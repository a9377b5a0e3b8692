// Printing a tree as a report map and parsing it back.
module HidRoundTrip {
  import opened Bytes
  import opened HidForest
  import opened HidItems
  import opened HidPrint
  import opened HidBuild

  // ---------------------------------------------------------------- items build what they describe

  /** Between two nodes: the given forest, the given collection, and no local item pending. */
  predicate Settled(c: Context, f: Forest, i: nat) {
    c.forest == f && c.current == i && c.usages == [] && c.logicalMin == 0 && c.logicalMax == 0
  }

  /** The items lead from c to a settled context with forest g, in the same collection. */
  ghost predicate Makes(c: Context, items: seq<Item>, g: Forest) {
    && InRange(c) && Settled(c, c.forest, c.current)
    && Feed(c, items).Fed? && Settled(Feed(c, items).context, g, c.current)
  }

  lemma MakesBoth(c: Context, a: seq<Item>, b: seq<Item>, g: Forest, h: Forest)
    requires Makes(c, a, g) && Makes(Feed(c, a).context, b, h)
    ensures Makes(c, a + b, h)
  {
    FeedConcat(c, a, b);
  }

  lemma FeedFirst(c: Context, item: Item, rest: seq<Item>)
    requires InRange(c) && !EndsRoot(c, item)
    ensures Feed(c, [item] + rest) == Feed(Interpret(c, item), rest)
  {
    assert ([item] + rest)[1..] == rest;
  }

  lemma {:induction false} FeedUsages(c: Context, usages: seq<nat>)
    requires InRange(c)
    ensures Feed(c, UsageItems(usages)) == Fed(c.(usages := c.usages + usages))
    decreases |usages|
  {
    if usages == [] {
      assert c.usages + usages == c.usages;
    } else {
      var d := c.(usages := c.usages + [usages[0]]);
      FeedFirst(c, UsageItem(usages[0]), UsageItems(usages[1..]));
      FeedUsages(d, usages[1..]);
      assert c.usages + usages == d.usages + usages[1..];
    }
  }

  lemma FeedSize(c: Context, v: nat, rest: seq<Item>)
    requires InRange(c) && v < TWO_16
    ensures Feed(c, [Item(GLOBAL, SIZE_ITEM, 2, v)] + rest) == Feed(c.(size := v), rest)
  {
    var item := Item(GLOBAL, SIZE_ITEM, 2, v);
    FeedFirst(c, item, rest);
    assert Interpret(c, item) == c.(size := v);
  }

  lemma FeedCount(c: Context, v: nat, rest: seq<Item>)
    requires InRange(c) && v < TWO_16
    ensures Feed(c, [Item(GLOBAL, COUNT_ITEM, 2, v)] + rest) == Feed(c.(count := v), rest)
  {
    var item := Item(GLOBAL, COUNT_ITEM, 2, v);
    FeedFirst(c, item, rest);
    assert Interpret(c, item) == c.(count := v);
  }

  lemma FeedLocal(c: Context, tag: nat, v: nat, rest: seq<Item>)
    requires InRange(c) && (tag == MINIMUM_ITEM || tag == MAXIMUM_ITEM)
    ensures var d := if tag == MINIMUM_ITEM then c.(logicalMin := v) else c.(logicalMax := v);
            Feed(c, [Item(LOCAL, tag, 3, v)] + rest) == Feed(d, rest)
  {
    FeedFirst(c, Item(LOCAL, tag, 3, v), rest);
  }

  lemma FeedMain(c: Context, kind: Kind, flags: byte)
    requires InRange(c)
    ensures Feed(c, [Item(MAIN, KindTag(kind), 1, flags)]) == Fed(ClearLocals(Collect(c, kind, flags)))
  {
    FeedOne(c, Item(MAIN, KindTag(kind), 1, flags));
  }

  lemma CollectClears(c: Context, d: Context, e: Element)
    requires InRange(c) && c.report.At? && c.usages == e.usages && c.size == e.size && c.count == e.count
    requires d == c.(logicalMin := e.logicalMin, logicalMax := e.logicalMax)
    ensures ClearLocals(Collect(d, e.kind, e.flags)) == ClearLocals(c.(forest := AddElement(c.forest, c.report.report, e)))
  {
  }

  lemma FeedBounds(c: Context, e: Element)
    requires InRange(c) && c.report.At? && c.usages == e.usages && c.size == e.size && c.count == e.count
    ensures Feed(c, [Item(LOCAL, MINIMUM_ITEM, 3, e.logicalMin), Item(LOCAL, MAXIMUM_ITEM, 3, e.logicalMax),
                     Item(MAIN, KindTag(e.kind), 1, e.flags)])
         == Fed(ClearLocals(c.(forest := AddElement(c.forest, c.report.report, e))))
  {
    var high, main := Item(LOCAL, MAXIMUM_ITEM, 3, e.logicalMax), Item(MAIN, KindTag(e.kind), 1, e.flags);
    var d := c.(logicalMin := e.logicalMin);
    var d' := d.(logicalMax := e.logicalMax);
    FeedLocal(c, MINIMUM_ITEM, e.logicalMin, [high, main]);
    FeedLocal(d, MAXIMUM_ITEM, e.logicalMax, [main]);
    FeedMain(d', e.kind, e.flags);
    CollectClears(c, d', e);
  }

  lemma FeedFields(c: Context, e: Element)
    requires InRange(c) && c.report.At? && c.usages == e.usages && ElementFits(e)
    ensures Feed(c, FieldItems(e))
         == Fed(ClearLocals(c.(forest := AddElement(c.forest, c.report.report, e), size := e.size, count := e.count)))
  {
    var rest := [Item(LOCAL, MINIMUM_ITEM, 3, e.logicalMin), Item(LOCAL, MAXIMUM_ITEM, 3, e.logicalMax),
                 Item(MAIN, KindTag(e.kind), 1, e.flags)];
    var d := c.(size := e.size);
    FeedSize(c, e.size, [Item(GLOBAL, COUNT_ITEM, 2, e.count)] + rest);
    FeedCount(d, e.count, rest);
    FeedBounds(d.(count := e.count), e);
    assert FieldItems(e) == [Item(GLOBAL, SIZE_ITEM, 2, e.size)] + ([Item(GLOBAL, COUNT_ITEM, 2, e.count)] + rest);
  }

  /** An element, from its usages to its main item. */
  lemma FeedElement(c: Context, e: Element)
    requires InRange(c) && c.report.At? && Settled(c, c.forest, c.current) && ElementFits(e)
    ensures Feed(c, UsageItems(e.usages) + FieldItems(e))
         == Fed(c.(forest := AddElement(c.forest, c.report.report, e), size := e.size, count := e.count))
  {
    FeedUsages(c, e.usages);
    FeedConcat(c, UsageItems(e.usages), FieldItems(e));
    assert [] + e.usages == e.usages;
    FeedFields(c.(usages := e.usages), e);
  }

  /** Elements go to the report at hand. */
  lemma {:induction false} FeedElements(c: Context, es: seq<Element>)
    requires InRange(c) && c.report.At? && Settled(c, c.forest, c.current)
    requires forall k :: 0 <= k < |es| ==> ElementFits(es[k])
    ensures Makes(c, ElementsItems(es), WithElements(c.forest, c.report.report, es))
    decreases |es|
  {
    var r := c.report.report;
    if es == [] {
      assert WithElements(c.forest, r, es) == c.forest by {
        assert c.forest.reports[r].elements + [] == c.forest.reports[r].elements;
      }
    } else {
      var d := c.(forest := AddElement(c.forest, r, es[0]), size := es[0].size, count := es[0].count);
      FeedElement(c, es[0]);
      FeedElements(d, es[1..]);
      FeedConcat(c, UsageItems(es[0].usages) + FieldItems(es[0]), ElementsItems(es[1..]));
      WithElementsSplit(c.forest, r, es);
    }
  }

  lemma WithElementsSplit(f: Forest, r: nat, es: seq<Element>)
    requires r < |f.reports| && es != []
    ensures WithElements(AddElement(f, r, es[0]), r, es[1..]) == WithElements(f, r, es)
  {
    assert (f.reports[r].elements + [es[0]]) + es[1..] == f.reports[r].elements + es;
  }

  lemma FeedReport(c: Context, r: ReportTree)
    requires InRange(c) && Settled(c, c.forest, c.current) && ReportFits(r)
    ensures Makes(c, ReportItems(r), PutReport(c.forest, c.current, r))
  {
    var item := Item(GLOBAL, ID_ITEM, 1, r.id);
    FeedFirst(c, item, ElementsItems(r.elements));
    assert Interpret(c, item) == NewReport(c, r.id);
    FeedElements(NewReport(c, r.id), r.elements);
  }

  lemma {:induction false} FeedReports(c: Context, rs: seq<ReportTree>)
    requires InRange(c) && Settled(c, c.forest, c.current)
    requires forall k :: 0 <= k < |rs| ==> ReportFits(rs[k])
    ensures Makes(c, ReportsItems(rs), PutReports(c.forest, c.current, rs))
    decreases |rs|
  {
    if rs != [] {
      FeedReport(c, rs[0]);
      var d := Feed(c, ReportItems(rs[0])).context;
      FeedReports(d, rs[1..]);
      MakesBoth(c, ReportItems(rs[0]), ReportsItems(rs[1..]), d.forest, PutReports(d.forest, c.current, rs[1..]));
    }
  }

  /** The usage and the collection item open the collection. */
  lemma FeedOpen(c: Context, t: Tree, items: seq<Item>)
    requires InRange(c) && Settled(c, c.forest, c.current) && items == BodyItems(t) + [END]
    ensures Feed(c, TreeItems(t)) == Feed(Open(c, t.category, t.usage), items)
  {
    var open := Item(MAIN, COLLECTION_ITEM, 1, t.category);
    var c1 := c.(usages := [t.usage]);
    FeedFirst(c, UsageItem(t.usage), [open] + items);
    assert Interpret(c, UsageItem(t.usage)) == c1;
    FeedFirst(c1, open, items);
    assert Interpret(c1, open) == Open(c, t.category, t.usage);
    assert TreeItems(t) == [UsageItem(t.usage)] + ([open] + items);
  }

  /** A collection: opened, filled, ended. */
  lemma FeedChild(c: Context, t: Tree, body: Forest)
    requires InRange(c) && Settled(c, c.forest, c.current) && t.category != ROOT
    requires Makes(Open(c, t.category, t.usage), BodyItems(t), body)
    requires |c.forest.collections| < |body.collections|
    requires var n := body.collections[|c.forest.collections|]; n.parent == c.current && n.category == t.category
    ensures Makes(c, TreeItems(t), body)
  {
    var items := BodyItems(t) + [END];
    FeedOpen(c, t, items);
    var inside := Open(c, t.category, t.usage);
    FeedConcat(inside, BodyItems(t), [END]);
    FeedOne(Feed(inside, BodyItems(t)).context, END);
  }

  lemma {:induction false} FeedTree(c: Context, t: Tree)
    requires InRange(c) && Settled(c, c.forest, c.current) && Fits(t) && t.category != ROOT
    ensures Makes(c, TreeItems(t), PutTree(c.forest, c.current, t))
    decreases t, 1
  {
    FeedBody(Open(c, t.category, t.usage), t);
    FeedChild(c, t, PutTree(c.forest, c.current, t));
  }

  lemma {:induction false} FeedBody(c: Context, t: Tree)
    requires InRange(c) && Settled(c, c.forest, c.current) && Fits(t)
    ensures Makes(c, BodyItems(t), PutBody(c.forest, c.current, t))
    decreases t, 0
  {
    FeedReports(c, t.reports);
    var d := Feed(c, ReportsItems(t.reports)).context;
    FeedTrees(d, t.collections);
    MakesBoth(c, ReportsItems(t.reports), TreesItems(t.collections), d.forest, PutTrees(d.forest, c.current, t.collections));
  }

  lemma {:induction false} FeedTrees(c: Context, ts: seq<Tree>)
    requires InRange(c) && Settled(c, c.forest, c.current)
    requires forall k :: 0 <= k < |ts| ==> ts[k].category != ROOT && Fits(ts[k])
    ensures Makes(c, TreesItems(ts), PutTrees(c.forest, c.current, ts))
    decreases ts, 0
  {
    if ts != [] {
      FeedTree(c, ts[0]);
      var d := Feed(c, TreeItems(ts[0])).context;
      FeedTrees(d, ts[1..]);
      MakesBoth(c, TreeItems(ts[0]), TreesItems(ts[1..]), d.forest, PutTrees(d.forest, c.current, ts[1..]));
    }
  }

  // ---------------------------------------------------------------- every item can be printed

  predicate AllPrintable(items: seq<Item>) {
    forall i :: 0 <= i < |items| ==> Printable(items[i])
  }

  lemma {:induction false} UsagesPrintable(usages: seq<nat>)
    requires forall k :: 0 <= k < |usages| ==> usages[k] < TWO_32
    ensures AllPrintable(UsageItems(usages))
  {
    if usages != [] {
      UsagesPrintable(usages[1..]);
    }
  }

  lemma {:induction false} ElementsPrintable(es: seq<Element>)
    requires forall k :: 0 <= k < |es| ==> ElementFits(es[k])
    ensures AllPrintable(ElementsItems(es))
  {
    if es != [] {
      UsagesPrintable(es[0].usages);
      assert AllPrintable(FieldItems(es[0]));
      ElementsPrintable(es[1..]);
    }
  }

  lemma {:induction false} ReportsPrintable(rs: seq<ReportTree>)
    requires forall k :: 0 <= k < |rs| ==> ReportFits(rs[k])
    ensures AllPrintable(ReportsItems(rs))
  {
    if rs != [] {
      ElementsPrintable(rs[0].elements);
      ReportsPrintable(rs[1..]);
    }
  }

  lemma {:induction false} BodyPrintable(t: Tree)
    requires Fits(t)
    ensures AllPrintable(BodyItems(t))
    decreases t, 0
  {
    ReportsPrintable(t.reports);
    TreesPrintable(t.collections);
  }

  lemma {:induction false} TreesPrintable(ts: seq<Tree>)
    requires forall k :: 0 <= k < |ts| ==> ts[k].usage < TWO_32 && Fits(ts[k])
    ensures AllPrintable(TreesItems(ts))
    decreases ts, 0
  {
    if ts != [] {
      BodyPrintable(ts[0]);
      TreesPrintable(ts[1..]);
    }
  }

  // ---------------------------------------------------------------- the operand that is lost

  lemma DulledConcat(a: seq<Item>, b: seq<Item>)
    requires b != []
    ensures Dulled(a + b) == a + Dulled(b)
  {
  }

  /** What remains of the last element, or of the last report when it has none. */
  function BluntElements(es: seq<Element>): seq<Element>
    requires es != []
  {
    es[..|es| - 1] + [es[|es| - 1].(flags := 0)]
  }

  function BluntReport(r: ReportTree): ReportTree {
    if r.elements == [] then r.(id := 0) else r.(elements := BluntElements(r.elements))
  }

  function BluntReports(rs: seq<ReportTree>): seq<ReportTree>
    requires rs != []
  {
    rs[..|rs| - 1] + [BluntReport(rs[|rs| - 1])]
  }

  /** Does the map end in an operand? End items have none. */
  predicate EndsInOperand(t: Tree) {
    t.collections == [] && t.reports != []
  }

  /** The last operand of the map: the flags of the last element, or the ID of a report without elements. */
  function LastOperand(t: Tree): byte
    requires EndsInOperand(t)
  {
    var r := t.reports[|t.reports| - 1];
    if r.elements == [] then r.id else r.elements[|r.elements| - 1].flags
  }

  function Blunted(t: Tree): Tree {
    if EndsInOperand(t) then t.(reports := BluntReports(t.reports)) else t
  }

  lemma BluntedExactly(t: Tree)
    ensures Blunted(t) == t <==> (EndsInOperand(t) ==> LastOperand(t) == 0)
  {
    if EndsInOperand(t) {
      var last := |t.reports| - 1;
      var r := t.reports[last];
      assert BluntReports(t.reports)[last] == BluntReport(r);
      if r.elements != [] {
        var k := |r.elements| - 1;
        assert BluntElements(r.elements)[k] == r.elements[k].(flags := 0);
        if r.elements[k].flags == 0 {
          assert BluntElements(r.elements) == r.elements;
        }
      }
      if BluntReport(r) == r {
        assert BluntReports(t.reports) == t.reports;
      }
    }
  }

  lemma {:induction false} DulledElements(es: seq<Element>)
    requires es != []
    ensures Dulled(ElementsItems(es)) == ElementsItems(BluntElements(es)) && ElementsItems(es) != []
    decreases |es|
  {
    var first := UsageItems(es[0].usages) + FieldItems(es[0]);
    if |es| == 1 {
      var blunt := es[0].(flags := 0);
      assert BluntElements(es) == [blunt];
      assert ElementsItems([]) == [];
      assert ElementsItems(es) == first;
      assert ElementsItems([blunt]) == UsageItems(es[0].usages) + FieldItems(blunt);
      DulledConcat(UsageItems(es[0].usages), FieldItems(es[0]));
      assert Dulled(FieldItems(es[0])) == FieldItems(blunt);
    } else {
      DulledElements(es[1..]);
      DulledConcat(first, ElementsItems(es[1..]));
      assert BluntElements(es)[1..] == BluntElements(es[1..]);
      assert BluntElements(es)[0] == es[0];
    }
  }

  lemma DulledReport(r: ReportTree)
    ensures Dulled(ReportItems(r)) == ReportItems(BluntReport(r)) && ReportItems(r) != []
  {
    if r.elements == [] {
      assert ReportItems(r) == [Item(GLOBAL, ID_ITEM, 1, r.id)];
    } else {
      DulledElements(r.elements);
      DulledConcat([Item(GLOBAL, ID_ITEM, 1, r.id)], ElementsItems(r.elements));
    }
  }

  lemma {:induction false} DulledReports(rs: seq<ReportTree>)
    requires rs != []
    ensures Dulled(ReportsItems(rs)) == ReportsItems(BluntReports(rs)) && ReportsItems(rs) != []
    decreases |rs|
  {
    if |rs| == 1 {
      DulledReport(rs[0]);
      assert BluntReports(rs) == [BluntReport(rs[0])];
      assert ReportsItems(rs) == ReportItems(rs[0]);
      assert ReportsItems([BluntReport(rs[0])]) == ReportItems(BluntReport(rs[0]));
    } else {
      DulledReports(rs[1..]);
      DulledConcat(ReportItems(rs[0]), ReportsItems(rs[1..]));
      assert BluntReports(rs)[1..] == BluntReports(rs[1..]);
      assert BluntReports(rs)[0] == rs[0];
    }
  }

  /** Child trees end in an end item, which has no operand to lose. */
  lemma {:induction false} TreesEnd(ts: seq<Tree>)
    requires ts != []
    ensures var items := TreesItems(ts); items != [] && items[|items| - 1] == END
    decreases |ts|
  {
    if |ts| > 1 {
      TreesEnd(ts[1..]);
    } else {
      assert TreesItems(ts) == TreeItems(ts[0]);
    }
  }

  lemma DulledBody(t: Tree)
    ensures Dulled(BodyItems(t)) == BodyItems(Blunted(t))
  {
    if t.collections != [] {
      TreesEnd(t.collections);
    } else if t.reports != [] {
      DulledReports(t.reports);
      assert BodyItems(t) == ReportsItems(t.reports);
      assert BodyItems(Blunted(t)) == ReportsItems(BluntReports(t.reports));
    }
  }

  lemma BluntedFits(t: Tree)
    requires Fits(t)
    ensures Fits(Blunted(t))
  {
  }

  // ---------------------------------------------------------------- the round trip

  /** The report map of a tree; its root is not printed. */
  function ReportMap(t: Tree): seq<byte>
    requires Fits(t)
  {
    BodyPrintable(t);
    PrintAll(BodyItems(t))
  }

  /** A tree put into a bare forest is the tree found there. */
  lemma PutIntoBare(t: Tree)
    requires t.category == ROOT && t.usage == 0
    ensures var g := PutBody(BARE, 0, t); WellFormed(g) && TreeAt(g, 0) == t
  {
    PutBodyHolds(BARE, 0, t);
    var g := PutBody(BARE, 0, t);
    assert AllReports(BARE, 0) == [] && AllTrees(BARE, 0) == [];
  }

  /** Parsing a printed tree succeeds and rebuilds it, less the operand at the very end of the map. */
  lemma RoundTrip(t: Tree)
    requires t.category == ROOT && t.usage == 0 && Fits(t)
    ensures var o := Parse(ReportMap(t), Initial(BARE), 0);
            Succeeds(ReportMap(t), o) && WellFormed(o.context.forest) && TreeAt(o.context.forest, 0) == Blunted(t)
  {
    BodyPrintable(t);
    var data, c := ReportMap(t), Initial(BARE);
    assert data[0..] == data;
    ParsePrinted(data, c, 0, BodyItems(t));
    DulledBody(t);
    BluntedFits(t);
    FeedBody(c, Blunted(t));
    PutIntoBare(Blunted(t));
  }

  /** The round trip gives the same tree exactly when the map does not end in an operand other than zero;
      with a collection at the top level it always does. */
  lemma RoundTripExact(t: Tree)
    requires t.category == ROOT && t.usage == 0 && Fits(t)
    ensures var o := Parse(ReportMap(t), Initial(BARE), 0);
            && Succeeds(ReportMap(t), o) && WellFormed(o.context.forest)
            && (TreeAt(o.context.forest, 0) == t <==> (EndsInOperand(t) ==> LastOperand(t) == 0))
  {
    RoundTrip(t);
    BluntedExactly(t);
  }

  /** A single report without elements: its ID, if not zero, is lost. */
  lemma LastFieldLost(id: byte)
    requires id != 0
    ensures var t := Tree(ROOT, 0, [ReportTree(id, [])], []);
            && Fits(t)
            && var o := Parse(ReportMap(t), Initial(BARE), 0);
               Succeeds(ReportMap(t), o) && WellFormed(o.context.forest) && TreeAt(o.context.forest, 0) != t
  {
    RoundTripExact(Tree(ROOT, 0, [ReportTree(id, [])], []));
  }
}
