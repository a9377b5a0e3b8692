// Report maps given byte by byte, and the trees they stand for.
module HidLiterals {
  import opened Bytes
  import opened HidForest
  import opened HidItems

  // ---------------------------------------------------------------- one item of given bytes

  lemma Parts(d: nat, kind: nat, tag: nat, bytes: nat)
    requires kind <= 3 && bytes <= 3 && d == tag * 16 + kind * 4 + bytes
    ensures d / 4 % 4 == kind && d / 16 == tag && d % 4 == bytes
  {
    assert d / 4 == tag * 4 + kind;
  }

  /** A whole round of the parser on an item that can be read. */
  lemma ParseScanned(data: seq<byte>, c: Context, p: nat, item: Item, next: nat)
    requires InRange(c) && p < |data| && data[p] != 0xFC && ScanItem(data, p) == Scan(item, next, false) && !EndsRoot(c, item)
    ensures Parse(data, c, p) == Parse(data, Interpret(c, item), next)
  {
  }

  lemma ScanShort(data: seq<byte>, p: nat, kind: nat, tag: nat)
    requires p + 2 < |data| && kind <= 2 && data[p] == tag * 16 + kind * 4 + 1 && data[p] != 0xC1
    ensures ScanItem(data, p) == Scan(Item(kind, tag, 1, data[p + 1]), p + 2, false)
  {
    Parts(data[p], kind, tag, 1);
  }

  lemma ScanLong(data: seq<byte>, p: nat, kind: nat, tag: nat)
    requires p + 5 < |data| && kind <= 2 && data[p] == tag * 16 + kind * 4 + 3 && data[p] != 0xC3
    ensures ScanItem(data, p) == Scan(Item(kind, tag, 3, Little(data[p + 1..p + 5])), p + 5, false)
  {
    Parts(data[p], kind, tag, 3);
  }

  /** A descriptor byte with one operand byte that is not the last of the map. */
  lemma ParseShort(data: seq<byte>, c: Context, p: nat, kind: nat, tag: nat)
    requires InRange(c) && p + 2 < |data| && kind <= 2 && data[p] == tag * 16 + kind * 4 + 1 && data[p] != 0xC1
    ensures Parse(data, c, p) == Parse(data, Interpret(c, Item(kind, tag, 1, data[p + 1])), p + 2)
  {
    ScanShort(data, p, kind, tag);
    Parts(data[p], kind, tag, 1);
    ParseScanned(data, c, p, Item(kind, tag, 1, data[p + 1]), p + 2);
  }

  /** A descriptor byte with four operand bytes. */
  lemma ParseLong(data: seq<byte>, c: Context, p: nat, kind: nat, tag: nat)
    requires InRange(c) && p + 5 < |data| && kind <= 2 && data[p] == tag * 16 + kind * 4 + 3 && data[p] != 0xC3
    ensures Parse(data, c, p) == Parse(data, Interpret(c, Item(kind, tag, 3, Little(data[p + 1..p + 5]))), p + 5)
  {
    ScanLong(data, p, kind, tag);
    Parts(data[p], kind, tag, 3);
    ParseScanned(data, c, p, Item(kind, tag, 3, Little(data[p + 1..p + 5])), p + 5);
  }

  lemma ParseEnd(data: seq<byte>, c: Context, p: nat)
    requires InRange(c) && p < |data| && data[p] == 0xC0 && c.forest.collections[c.current].category != 0xFF
    ensures Parse(data, c, p) == Parse(data, Interpret(c, Item(0, 12, 0, 0)), p + 1)
  {
    Parts(data[p], 0, 12, 0);
    ParseScanned(data, c, p, Item(0, 12, 0, 0), p + 1);
  }

  // ---------------------------------------------------------------- what each item does

  lemma PageMeans(c: Context, v: byte)
    requires InRange(c)
    ensures Interpret(c, Item(1, 0, 1, v)) == c.(usagePage := v)
  {
  }

  lemma UsageMeans(c: Context, v: byte)
    requires InRange(c)
    ensures Interpret(c, Item(2, 0, 1, v)) == c.(usages := c.usages + [MakeUsage(c.usagePage, v)])
  {
  }

  lemma LongUsageMeans(c: Context, v: nat)
    requires InRange(c)
    ensures Interpret(c, Item(2, 0, 3, v)) == c.(usages := c.usages + [v])
  {
  }

  lemma BoundsMean(c: Context, v: byte)
    requires InRange(c)
    ensures Interpret(c, Item(2, 1, 1, v)) == c.(logicalMin := v) && Interpret(c, Item(2, 2, 1, v)) == c.(logicalMax := v)
  {
  }

  lemma SizeMeans(c: Context, v: byte)
    requires InRange(c)
    ensures Interpret(c, Item(1, 7, 1, v)) == c.(size := v)
  {
  }

  lemma CountMeans(c: Context, v: byte)
    requires InRange(c)
    ensures Interpret(c, Item(1, 9, 1, v)) == c.(count := v)
  {
  }

  lemma ReportMeans(c: Context, v: byte)
    requires InRange(c)
    ensures Interpret(c, Item(1, 8, 1, v)) == NewReport(c, v)
  {
  }

  /** After a main item no local item is pending. */
  function Cleared(c: Context): Context {
    c.(usages := [], logicalMin := 0, logicalMax := 0)
  }

  lemma OpenMeans(c: Context, v: byte)
    requires InRange(c)
    ensures Interpret(c, Item(0, 10, 1, v)) == Cleared(Open(c, v, if c.usages == [] then 0 else c.usages[0]))
  {
  }

  lemma ElementMeans(c: Context, kind: Kind, v: byte)
    requires InRange(c)
    ensures Interpret(c, Item(0, match kind case Input => 8 case Output => 9 case Feature => 11, 1, v))
         == Cleared(Collect(c, kind, v))
  {
  }

  lemma EndMeans(c: Context)
    requires InRange(c) && c.forest.collections[c.current].category != 0xFF
    ensures Interpret(c, Item(0, 12, 0, 0)) == Cleared(c.(current := c.forest.collections[c.current].parent))
  {
  }

  /** All other items are read and ignored, but a main item still clears the pending local items. */
  lemma OthersIgnored(c: Context, item: Item)
    requires InRange(c)
    requires item.kind == 0 ==> item.tag !in {8, 9, 10, 11, 12}
    requires item.kind == 1 ==> item.tag !in {0, 7, 8, 9}
    requires item.kind == 2 ==> item.tag !in {0, 1, 2}
    ensures Interpret(c, item) == if item.kind == 0 then Cleared(c) else c
  {
  }

  // ---------------------------------------------------------------- descriptor bytes

  /** 0x05: the usage page. */
  lemma Page(data: seq<byte>, c: Context, p: nat)
    requires InRange(c) && p + 2 < |data| && data[p] == 0x05
    ensures Parse(data, c, p) == Parse(data, c.(usagePage := data[p + 1]), p + 2)
  {
    ParseShort(data, c, p, 1, 0);
    PageMeans(c, data[p + 1]);
  }

  /** 0x09: a usage on the page at hand. */
  lemma Usage(data: seq<byte>, c: Context, p: nat)
    requires InRange(c) && p + 2 < |data| && data[p] == 0x09
    ensures Parse(data, c, p) == Parse(data, c.(usages := c.usages + [MakeUsage(c.usagePage, data[p + 1])]), p + 2)
  {
    ParseShort(data, c, p, 2, 0);
    UsageMeans(c, data[p + 1]);
  }

  /** 0x0B: a usage that brings its page along. */
  lemma LongUsage(data: seq<byte>, c: Context, p: nat)
    requires InRange(c) && p + 5 < |data| && data[p] == 0x0B
    ensures Parse(data, c, p) == Parse(data, c.(usages := c.usages + [Little(data[p + 1..p + 5])]), p + 5)
  {
    ParseLong(data, c, p, 2, 0);
    LongUsageMeans(c, Little(data[p + 1..p + 5]));
  }

  /** 0xA1: a collection, with the first usage pending. */
  lemma Opens(data: seq<byte>, c: Context, p: nat)
    requires InRange(c) && p + 2 < |data| && data[p] == 0xA1
    ensures var d := Cleared(Open(c, data[p + 1], if c.usages == [] then 0 else c.usages[0]));
            InRange(d) && Parse(data, c, p) == Parse(data, d, p + 2)
  {
    ParseShort(data, c, p, 0, 10);
    OpenMeans(c, data[p + 1]);
  }

  /** 0x85: a report. */
  lemma Reports(data: seq<byte>, c: Context, p: nat)
    requires InRange(c) && p + 2 < |data| && data[p] == 0x85
    ensures InRange(NewReport(c, data[p + 1])) && Parse(data, c, p) == Parse(data, NewReport(c, data[p + 1]), p + 2)
  {
    ParseShort(data, c, p, 1, 8);
    ReportMeans(c, data[p + 1]);
  }

  /** 0x19 and 0x29: the bounds. */
  lemma Bounds(data: seq<byte>, c: Context, p: nat)
    requires InRange(c) && p + 4 < |data| && data[p] == 0x19 && data[p + 2] == 0x29
    ensures Parse(data, c, p) == Parse(data, c.(logicalMin := data[p + 1], logicalMax := data[p + 3]), p + 4)
  {
    ParseShort(data, c, p, 2, 1);
    BoundsMean(c, data[p + 1]);
    var d := c.(logicalMin := data[p + 1]);
    ParseShort(data, d, p + 2, 2, 2);
    BoundsMean(d, data[p + 3]);
  }

  /** 0x75 and 0x95: size and count. */
  lemma Sizes(data: seq<byte>, c: Context, p: nat)
    requires InRange(c) && p + 4 < |data| && data[p] == 0x75 && data[p + 2] == 0x95
    ensures Parse(data, c, p) == Parse(data, c.(size := data[p + 1], count := data[p + 3]), p + 4)
  {
    ParseShort(data, c, p, 1, 7);
    SizeMeans(c, data[p + 1]);
    var d := c.(size := data[p + 1]);
    ParseShort(data, d, p + 2, 1, 9);
    CountMeans(d, data[p + 3]);
  }

  /** 0x81, 0x91, 0xB1: an input, output or feature element. */
  lemma Collects(data: seq<byte>, c: Context, p: nat, kind: Kind)
    requires InRange(c) && p + 2 < |data| && data[p] == (match kind case Input => 0x81 case Output => 0x91 case Feature => 0xB1)
    ensures var d := Cleared(Collect(c, kind, data[p + 1])); InRange(d) && Parse(data, c, p) == Parse(data, d, p + 2)
  {
    ParseShort(data, c, p, 0, match kind case Input => 8 case Output => 9 case Feature => 11);
    ElementMeans(c, kind, data[p + 1]);
  }

  /** 0xC0: back to the parent. */
  lemma Closes(data: seq<byte>, c: Context, p: nat)
    requires InRange(c) && p < |data| && data[p] == 0xC0 && c.forest.collections[c.current].category != 0xFF
    ensures var d := Cleared(c.(current := c.forest.collections[c.current].parent));
            InRange(d) && Parse(data, c, p) == Parse(data, d, p + 1)
  {
    ParseEnd(data, c, p);
    EndMeans(c);
  }

  /** 0xFC, and an item without operand bytes that needs one: the parse fails. */
  lemma Fails(data: seq<byte>, c: Context, p: nat)
    requires InRange(c) && p < |data|
    requires data[p] == 0xFC || (data[p] % 4 == 0 && data[p] / 4 % 4 != 3 && data[p] != 0xC0)
    ensures !Succeeds(data, Parse(data, c, p))
  {
  }

  // ---------------------------------------------------------------- whole maps

  /** Collections of the given usages and categories inside each other, the outermost in the root. */
  lemma FirstCollection(c: Context, category: byte, usage: nat)
    requires c.forest == Forest([CollectionNode(0, 0xFF, 0, [], [])], []) && c.current == 0 && InRange(c)
    ensures var d := Cleared(Open(c, category, usage));
            && d.forest == Forest([CollectionNode(0, 0xFF, 0, [1], []), CollectionNode(0, category, usage, [], [])], [])
            && d.current == 1
  {
    var root := CollectionNode(0, 0xFF, 0, [], []);
    assert [] + [1] == [1];
    assert [root][0 := root.(collections := [] + [1])] + [CollectionNode(0, category, usage, [], [])]
        == [CollectionNode(0, 0xFF, 0, [1], []), CollectionNode(0, category, usage, [], [])];
  }

  /** What the parser starts from: a root collection of category 0xFF, and nothing set. */
  lemma Starts()
    ensures Initial(BARE) == Context(Forest([CollectionNode(0, 0xFF, 0, [], [])], []), 0, None, 0, 0, 0, 0, 0, [])
    ensures InRange(Initial(BARE))
  {
  }

  lemma Finished(data: seq<byte>, c: Context)
    requires InRange(c)
    ensures Parse(data, c, |data|) == Outcome(c, |data|, false)
  {
  }

  /** The end of a collection below the root ends the map. */
  lemma ClosesLast(data: seq<byte>, c: Context, p: nat)
    requires InRange(c) && c.current == 1 && |c.forest.collections| > 1 && c.forest.collections[1].category != 0xFF
    requires |data| == p + 1 && data[p] == 0xC0
    ensures var o := Parse(data, c, p); Succeeds(data, o) && o.context.forest == c.forest
  {
    Closes(data, c, p);
    Finished(data, Cleared(c.(current := c.forest.collections[1].parent)));
  }

  /** A pending usage, a collection, its end. */
  lemma OneCollection(data: seq<byte>, c: Context, p: nat, usage: nat)
    requires InRange(c) && c.forest == Forest([CollectionNode(0, 0xFF, 0, [], [])], []) && c.current == 0 && c.usages != [] && c.usages[0] == usage
    requires |data| == p + 3 && data[p] == 0xA1 && data[p + 1] != 0xFF && data[p + 2] == 0xC0
    ensures var o := Parse(data, c, p);
            && Succeeds(data, o)
            && o.context.forest == Forest([CollectionNode(0, 0xFF, 0, [1], []), CollectionNode(0, data[p + 1], usage, [], [])], [])
  {
    Opens(data, c, p);
    FirstCollection(c, data[p + 1], usage);
    ClosesLast(data, Cleared(Open(c, data[p + 1], usage)), p + 2);
  }

  /** A page and a usage on it. */
  lemma PageAndUsage(data: seq<byte>, c: Context, p: nat)
    requires InRange(c) && p + 4 < |data| && data[p] == 0x05 && data[p + 2] == 0x09
    ensures Parse(data, c, p)
         == Parse(data, c.(usagePage := data[p + 1], usages := c.usages + [MakeUsage(data[p + 1], data[p + 3])]), p + 4)
  {
    Page(data, c, p);
    Usage(data, c.(usagePage := data[p + 1]), p + 2);
  }

  /** The map is parsed into one collection with this usage. */
  ghost predicate MakesOne(data: seq<byte>, c: Context, p: nat, category: byte, usage: nat)
    requires InRange(c)
  {
    var o := Parse(data, c, p);
    && Succeeds(data, o)
    && o.context.forest == Forest([CollectionNode(0, 0xFF, 0, [1], []), CollectionNode(0, category, usage, [], [])], [])
  }

  lemma PageUsageCollection(data: seq<byte>, c: Context, p: nat)
    requires InRange(c) && c.forest == Forest([CollectionNode(0, 0xFF, 0, [], [])], []) && c.current == 0 && c.usages == []
    requires |data| == p + 7 && data[p] == 0x05 && data[p + 2] == 0x09
    requires data[p + 4] == 0xA1 && data[p + 5] != 0xFF && data[p + 6] == 0xC0
    ensures MakesOne(data, c, p, data[p + 5], MakeUsage(data[p + 1], data[p + 3]))
  {
    var usage := MakeUsage(data[p + 1], data[p + 3]);
    PageAndUsage(data, c, p);
    OneCollection(data, c.(usagePage := data[p + 1], usages := c.usages + [usage]), p + 4, usage);
  }

  /** One more usage changes nothing for the collection. */
  lemma UsageThenOne(data: seq<byte>, c: Context, p: nat, usage: nat)
    requires InRange(c) && c.forest == Forest([CollectionNode(0, 0xFF, 0, [], [])], []) && c.current == 0 && c.usages == [usage]
    requires |data| == p + 5 && data[p] == 0x09 && data[p + 2] == 0xA1 && data[p + 3] != 0xFF && data[p + 4] == 0xC0
    ensures MakesOne(data, c, p, data[p + 3], usage)
  {
    Usage(data, c, p);
    OneCollection(data, c.(usages := c.usages + [MakeUsage(c.usagePage, data[p + 1])]), p + 2, usage);
  }

  lemma TwoUsagesCollection(data: seq<byte>, c: Context, p: nat)
    requires InRange(c) && c.forest == Forest([CollectionNode(0, 0xFF, 0, [], [])], []) && c.current == 0 && c.usages == []
    requires |data| == p + 9 && data[p] == 0x05 && data[p + 2] == 0x09 && data[p + 4] == 0x09
    requires data[p + 6] == 0xA1 && data[p + 7] != 0xFF && data[p + 8] == 0xC0
    ensures MakesOne(data, c, p, data[p + 7], MakeUsage(data[p + 1], data[p + 3]))
  {
    var usage := MakeUsage(data[p + 1], data[p + 3]);
    PageAndUsage(data, c, p);
    assert c.usages + [usage] == [usage];
    UsageThenOne(data, c.(usagePage := data[p + 1], usages := [usage]), p + 4, usage);
  }

  lemma PageLongUsageCollection(data: seq<byte>, c: Context, p: nat)
    requires InRange(c) && c.forest == Forest([CollectionNode(0, 0xFF, 0, [], [])], []) && c.current == 0 && c.usages == []
    requires |data| == p + 10 && data[p] == 0x05 && data[p + 2] == 0x0B
    requires data[p + 7] == 0xA1 && data[p + 8] != 0xFF && data[p + 9] == 0xC0
    ensures MakesOne(data, c, p, data[p + 8], Little(data[p + 3..p + 7]))
  {
    var usage := Little(data[p + 3..p + 7]);
    Page(data, c, p);
    var d := c.(usagePage := data[p + 1]);
    LongUsage(data, d, p + 2);
    OneCollection(data, d.(usages := d.usages + [usage]), p + 7, usage);
  }

  /** A usage page, a usage on it, a collection: the usage is the collection's, page in the upper half. */
  lemma ShortUsageCollection(page: byte, usage: byte, category: byte)
    requires category != 0xFF
    ensures var data := [0x05, page, 0x09, usage, 0xA1, category, 0xC0];
            var o := Parse(data, Initial(BARE), 0);
            && Succeeds(data, o) && o.context.forest.reports == [] && |o.context.forest.collections| == 2
            && o.context.forest.collections[0] == CollectionNode(0, 0xFF, 0, [1], [])
            && var c := o.context.forest.collections[1];
               c.parent == 0 && c.category == category && c.collections == [] && c.reports == []
               && c.usage / 0x1_0000 == page && c.usage % 0x1_0000 == usage
  {
    Starts();
    PageUsageCollection([0x05, page, 0x09, usage, 0xA1, category, 0xC0], Initial(BARE), 0);
  }

  /** Of two usages the collection gets the first. */
  lemma FirstUsageCollection(page: byte, usage: byte, second: byte, category: byte)
    requires category != 0xFF
    ensures var data := [0x05, page, 0x09, usage, 0x09, second, 0xA1, category, 0xC0];
            var o := Parse(data, Initial(BARE), 0);
            && Succeeds(data, o) && |o.context.forest.collections| == 2
            && var c := o.context.forest.collections[1];
               c.category == category && c.usage / 0x1_0000 == page && c.usage % 0x1_0000 == usage
  {
    Starts();
    TwoUsagesCollection([0x05, page, 0x09, usage, 0x09, second, 0xA1, category, 0xC0], Initial(BARE), 0);
  }

  /** A usage of four bytes ignores the page at hand; its bytes come lowest first. */
  lemma LongUsageCollection(page: byte, b0: byte, b1: byte, b2: byte, b3: byte, category: byte)
    requires category != 0xFF
    ensures var data := [0x05, page, 0x0B, b0, b1, b2, b3, 0xA1, category, 0xC0];
            var o := Parse(data, Initial(BARE), 0);
            && Succeeds(data, o) && |o.context.forest.collections| == 2
            && var u := o.context.forest.collections[1].usage;
               u % 0x100 == b0 && u / 0x100 % 0x100 == b1 && u / 0x1_0000 % 0x100 == b2 && u / 0x100_0000 == b3
  {
    var data: seq<byte> := [0x05, page, 0x0B, b0, b1, b2, b3, 0xA1, category, 0xC0];
    Starts();
    PageLongUsageCollection(data, Initial(BARE), 0);
    assert data[3..7] == [b0, b1, b2, b3];
    Digits(b0, b1, b2, b3);
  }

  // ---------------------------------------------------------------- elements

  /** An element for the only report goes to its end. */
  lemma CollectsInto(data: seq<byte>, c: Context, p: nat, kind: Kind, r: ReportNode)
    requires InRange(c) && c.report == At(0) && c.forest.reports == [r]
    requires p + 2 < |data| && data[p] == (match kind case Input => 0x81 case Output => 0x91 case Feature => 0xB1)
    ensures var e := Element(kind, c.usages, data[p + 1], c.count, c.size, c.logicalMin, c.logicalMax);
            var d := Cleared(c.(forest := c.forest.(reports := [r.(elements := r.elements + [e])])));
            InRange(d) && Parse(data, c, p) == Parse(data, d, p + 2)
  {
    Collects(data, c, p, kind);
    CollectIs(c, kind, data[p + 1], r);
  }

  lemma CollectIs(c: Context, kind: Kind, v: byte, r: ReportNode)
    requires InRange(c) && c.report == At(0) && c.forest.reports == [r]
    ensures var e := Element(kind, c.usages, v, c.count, c.size, c.logicalMin, c.logicalMax);
            Collect(c, kind, v) == c.(forest := c.forest.(reports := [r.(elements := r.elements + [e])]))
  {
    var e := Element(kind, c.usages, v, c.count, c.size, c.logicalMin, c.logicalMax);
    assert c.forest.reports[0 := r.(elements := r.elements + [e])] == [r.(elements := r.elements + [e])];
  }

  /** One element of each kind: usages and bounds belong to the first only, size and count to all. */
  lemma ThreeKinds(data: seq<byte>, c: Context, p: nat, r: ReportNode)
    requires InRange(c) && c.report == At(0) && c.forest.reports == [r] && r.elements == []
    requires p + 6 < |data| && data[p] == 0x81 && data[p + 2] == 0x91 && data[p + 4] == 0xB1
    ensures var d := Cleared(c.(forest := c.forest.(reports := [r.(elements := [
              Element(Input, c.usages, data[p + 1], c.count, c.size, c.logicalMin, c.logicalMax),
              Element(Output, [], data[p + 3], c.count, c.size, 0, 0),
              Element(Feature, [], data[p + 5], c.count, c.size, 0, 0)])])));
            InRange(d) && Parse(data, c, p) == Parse(data, d, p + 6)
  {
    var e1 := Element(Input, c.usages, data[p + 1], c.count, c.size, c.logicalMin, c.logicalMax);
    var e2 := Element(Output, [], data[p + 3], c.count, c.size, 0, 0);
    var e3 := Element(Feature, [], data[p + 5], c.count, c.size, 0, 0);
    CollectsInto(data, c, p, Input, r);
    var r1 := r.(elements := r.elements + [e1]);
    var c1 := Cleared(c.(forest := c.forest.(reports := [r1])));
    CollectsInto(data, c1, p + 2, Output, r1);
    var r2 := r1.(elements := r1.elements + [e2]);
    var c2 := Cleared(c1.(forest := c1.forest.(reports := [r2])));
    CollectsInto(data, c2, p + 4, Feature, r2);
    assert r2.elements + [e3] == [e1, e2, e3];
  }

  /** A page, two usages on it, bounds, size and count. */
  lemma Fields(data: seq<byte>, c: Context, p: nat)
    requires InRange(c) && c.usages == [] && p + 14 < |data|
    requires data[p] == 0x05 && data[p + 2] == 0x09 && data[p + 4] == 0x09 && data[p + 6] == 0x19 && data[p + 8] == 0x29
    requires data[p + 10] == 0x75 && data[p + 12] == 0x95
    ensures Parse(data, c, p)
         == Parse(data, c.(usagePage := data[p + 1], usages := [MakeUsage(data[p + 1], data[p + 3]), MakeUsage(data[p + 1], data[p + 5])],
                           logicalMin := data[p + 7], logicalMax := data[p + 9], size := data[p + 11], count := data[p + 13]), p + 14)
  {
    var u1, u2 := MakeUsage(data[p + 1], data[p + 3]), MakeUsage(data[p + 1], data[p + 5]);
    PageAndUsage(data, c, p);
    assert [] + [u1] == [u1] && [u1] + [u2] == [u1, u2];
    var c1 := c.(usagePage := data[p + 1], usages := [u1]);
    Usage(data, c1, p + 4);
    var c2 := c1.(usages := [u1, u2]);
    Bounds(data, c2, p + 6);
    Sizes(data, c2.(logicalMin := data[p + 7], logicalMax := data[p + 9]), p + 10);
  }

  /** A collection without a usage, and a report in it. */
  lemma CollectionAndReport(data: seq<byte>, c: Context, p: nat)
    requires InRange(c) && c.forest == Forest([CollectionNode(0, 0xFF, 0, [], [])], []) && c.current == 0 && c.usages == []
    requires p + 4 < |data| && data[p] == 0xA1 && data[p + 2] == 0x85
    ensures var d := Cleared(c.(forest := Forest([CollectionNode(0, 0xFF, 0, [1], []), CollectionNode(0, data[p + 1], 0, [], [0])],
                                                 [ReportNode(1, data[p + 3], [])]), current := 1, report := At(0)));
            InRange(d) && Parse(data, c, p) == Parse(data, d, p + 4)
  {
    Opens(data, c, p);
    FirstCollection(c, data[p + 1], 0);
    var d := Cleared(Open(c, data[p + 1], 0));
    Reports(data, d, p + 2);
    FirstReport(d, data[p + 1], data[p + 3]);
  }

  lemma FirstReport(c: Context, category: byte, id: byte)
    requires c.forest == Forest([CollectionNode(0, 0xFF, 0, [1], []), CollectionNode(0, category, 0, [], [])], [])
    requires c.current == 1 && InRange(c)
    ensures NewReport(c, id).forest
         == Forest([CollectionNode(0, 0xFF, 0, [1], []), CollectionNode(0, category, 0, [], [0])], [ReportNode(1, id, [])])
  {
    var one := CollectionNode(0, category, 0, [], []);
    assert [] + [0] == [0] && [] + [ReportNode(1, id, [])] == [ReportNode(1, id, [])];
    assert [CollectionNode(0, 0xFF, 0, [1], []), one][1 := one.(reports := [0])]
        == [CollectionNode(0, 0xFF, 0, [1], []), CollectionNode(0, category, 0, [], [0])];
  }

  /** What a map with all of these builds: the operands are every second byte. */
  function WholeForest(data: seq<byte>, p: nat): Forest
    requires p + 25 <= |data|
  {
    Forest([CollectionNode(0, 0xFF, 0, [1], []), CollectionNode(0, data[p + 1], 0, [], [0])],
           [ReportNode(1, data[p + 3], [
              Element(Input, [MakeUsage(data[p + 5], data[p + 7]), MakeUsage(data[p + 5], data[p + 9])],
                      data[p + 19], data[p + 17], data[p + 15], data[p + 11], data[p + 13]),
              Element(Output, [], data[p + 21], data[p + 17], data[p + 15], 0, 0),
              Element(Feature, [], data[p + 23], data[p + 17], data[p + 15], 0, 0)])])
  }

  predicate AllDescriptors(data: seq<byte>, p: nat)
    requires |data| == p + 25
  {
    && data[p] == 0xA1 && data[p + 1] != 0xFF && data[p + 2] == 0x85 && data[p + 4] == 0x05 && data[p + 6] == 0x09
    && data[p + 8] == 0x09 && data[p + 10] == 0x19 && data[p + 12] == 0x29 && data[p + 14] == 0x75 && data[p + 16] == 0x95
    && data[p + 18] == 0x81 && data[p + 20] == 0x91 && data[p + 22] == 0xB1 && data[p + 24] == 0xC0
  }

  /** Parsing from one place goes on from another. */
  ghost predicate Reaches(data: seq<byte>, c: Context, p: nat, d: Context, q: nat)
    requires InRange(c)
  {
    InRange(d) && Parse(data, c, p) == Parse(data, d, q)
  }

  /** Fields and elements of the only report. */
  lemma FieldsAndElements(data: seq<byte>, c: Context, p: nat, f: Forest)
    requires |data| == p + 25 && AllDescriptors(data, p) && InRange(c) && c.usages == [] && c.report == At(0)
    requires c.forest.collections == f.collections && c.forest.reports == [ReportNode(1, data[p + 3], [])]
    requires f == WholeForest(data, p)
    ensures exists d: Context :: Reaches(data, c, p + 4, d, p + 24) && d.forest == f && d.current == c.current
  {
    Fields(data, c, p + 4);
    var u1, u2 := MakeUsage(data[p + 5], data[p + 7]), MakeUsage(data[p + 5], data[p + 9]);
    var c2 := c.(usagePage := data[p + 5], usages := [u1, u2], logicalMin := data[p + 11], logicalMax := data[p + 13],
                 size := data[p + 15], count := data[p + 17]);
    ThreeKinds(data, c2, p + 18, ReportNode(1, data[p + 3], []));
    var d := Cleared(c2.(forest := f));
    assert Reaches(data, c, p + 4, d, p + 24);
  }

  lemma AllItems(data: seq<byte>, c: Context, p: nat)
    requires InRange(c) && c.forest == Forest([CollectionNode(0, 0xFF, 0, [], [])], []) && c.current == 0 && c.usages == []
    requires |data| == p + 25 && AllDescriptors(data, p)
    ensures var o := Parse(data, c, p); Succeeds(data, o) && o.context.forest == WholeForest(data, p)
  {
    CollectionAndReport(data, c, p);
    var f := WholeForest(data, p);
    var c1 := Cleared(c.(forest := Forest(f.collections, [ReportNode(1, data[p + 3], [])]), current := 1, report := At(0)));
    FieldsAndElements(data, c1, p, f);
    var d: Context :| Reaches(data, c1, p + 4, d, p + 24) && d.forest == f && d.current == 1;
    ClosesLast(data, d, p + 24);
  }

  /** A map that uses every kind of item the parser knows, in their one-byte forms, with any operands: collection,
      report ID, usage page, two usages, minimum, maximum, size, count, an input, an output and a feature element,
      and the end. */
  lemma EveryItem(data: seq<byte>)
    requires |data| == 25 && data[1] != 0xFF
    requires [data[0], data[2], data[4], data[6], data[8], data[10], data[12], data[14], data[16], data[18], data[20], data[22], data[24]]
          == [0xA1, 0x85, 0x05, 0x09, 0x09, 0x19, 0x29, 0x75, 0x95, 0x81, 0x91, 0xB1, 0xC0]
    ensures var o := Parse(data, Initial(BARE), 0);
            && Succeeds(data, o)
            && o.context.forest.collections == [CollectionNode(0, 0xFF, 0, [1], []), CollectionNode(0, data[1], 0, [], [0])]
            && |o.context.forest.reports| == 1 && o.context.forest.reports[0].parent == 1 && o.context.forest.reports[0].id == data[3]
            && var es := o.context.forest.reports[0].elements;
               |es| == 3 && |es[0].usages| == 2
               && es[0] == Element(Input, es[0].usages, data[19], data[17], data[15], data[11], data[13])
               && es[0].usages[0] / 0x1_0000 == data[5] && es[0].usages[0] % 0x1_0000 == data[7]
               && es[0].usages[1] / 0x1_0000 == data[5] && es[0].usages[1] % 0x1_0000 == data[9]
               && es[1] == Element(Output, [], data[21], data[17], data[15], 0, 0)
               && es[2] == Element(Feature, [], data[23], data[17], data[15], 0, 0)
  {
    Starts();
    DescriptorsAt(data, 0);
    AllItems(data, Initial(BARE), 0);
  }

  lemma DescriptorsAt(data: seq<byte>, p: nat)
    requires p == 0 && |data| == p + 25 && data[1] != 0xFF
    requires [data[0], data[2], data[4], data[6], data[8], data[10], data[12], data[14], data[16], data[18], data[20], data[22], data[24]]
          == [0xA1, 0x85, 0x05, 0x09, 0x09, 0x19, 0x29, 0x75, 0x95, 0x81, 0x91, 0xB1, 0xC0]
    ensures AllDescriptors(data, p)
  {
    var d := [data[0], data[2], data[4], data[6], data[8], data[10], data[12], data[14], data[16], data[18], data[20], data[22], data[24]];
    assert d[0] == 0xA1 && d[1] == 0x85 && d[2] == 0x05 && d[3] == 0x09 && d[4] == 0x09 && d[5] == 0x19 && d[6] == 0x29;
    assert d[7] == 0x75 && d[8] == 0x95 && d[9] == 0x81 && d[10] == 0x91 && d[11] == 0xB1 && d[12] == 0xC0;
  }

  // ---------------------------------------------------------------- no report ID

  lemma FirstElement(c: Context, category: byte, flags: byte)
    requires c.forest == Forest([CollectionNode(0, 0xFF, 0, [1], []), CollectionNode(0, category, 0, [], [])], [])
    requires c.current == 1 && InRange(c) && c.report == None
    ensures Collect(c, Input, flags).forest
         == Forest([CollectionNode(0, 0xFF, 0, [1], []), CollectionNode(0, category, 0, [], [0])],
                   [ReportNode(1, 0, [Element(Input, c.usages, flags, c.count, c.size, c.logicalMin, c.logicalMax)])])
    ensures Collect(c, Input, flags).current == 1
  {
    FirstReport(c, category, 0);
    var e := Element(Input, c.usages, flags, c.count, c.size, c.logicalMin, c.logicalMax);
    var r := ReportNode(1, 0, []);
    assert [] + [e] == [e];
    assert [r][0 := r.(elements := [e])] == [ReportNode(1, 0, [e])];
  }

  /** An element without a report ID makes a report numbered zero, in the collection at hand. */
  lemma ElementAlone(data: seq<byte>, c: Context, p: nat)
    requires InRange(c) && c.forest == Forest([CollectionNode(0, 0xFF, 0, [], [])], []) && c.current == 0 && c.report == None
    requires c.usages == [] && c.count == 0 && c.size == 0
    requires |data| == p + 5 && data[p] == 0xA1 && data[p + 1] != 0xFF && data[p + 2] == 0x81 && data[p + 4] == 0xC0
    ensures var o := Parse(data, c, p);
            && Succeeds(data, o)
            && o.context.forest == Forest([CollectionNode(0, 0xFF, 0, [1], []), CollectionNode(0, data[p + 1], 0, [], [0])],
                                          [ReportNode(1, 0, [Element(Input, [], data[p + 3], 0, 0, 0, 0)])])
  {
    Opens(data, c, p);
    FirstCollection(c, data[p + 1], 0);
    var d := Cleared(Open(c, data[p + 1], 0));
    Collects(data, d, p + 2, Input);
    FirstElement(d, data[p + 1], data[p + 3]);
    ClosesLast(data, Cleared(Collect(d, Input, data[p + 3])), p + 4);
  }

  lemma NoReportID(category: byte, flags: byte)
    requires category != 0xFF
    ensures var data := [0xA1, category, 0x81, flags, 0xC0];
            var o := Parse(data, Initial(BARE), 0);
            && Succeeds(data, o)
            && o.context.forest == Forest([CollectionNode(0, 0xFF, 0, [1], []), CollectionNode(0, category, 0, [], [0])],
                                          [ReportNode(1, 0, [Element(Input, [], flags, 0, 0, 0, 0)])])
  {
    Starts();
    ElementAlone([0xA1, category, 0x81, flags, 0xC0], Initial(BARE), 0);
  }
}
