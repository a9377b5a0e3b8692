// What the HID parser builds from arbitrary bytes: when it succeeds, how deep it is nested, and that
// every collection and element item leaves exactly one node.
module HidStructure {
  import opened Bytes
  import opened HidForest
  import opened HidItems

  // ---------------------------------------------------------------- the items alone

  /** All items from p on, up to the first one that cannot be read. */
  function Items(data: seq<byte>, p: nat): seq<Item>
    decreases |data| - p
  {
    if p >= |data| then []
    else
      var s := ScanItem(data, p);
      if s.failure then [] else [s.item] + Items(data, s.next)
  }

  /** Every item can be read, and the last one ends where the data ends. */
  predicate Scannable(data: seq<byte>, p: nat)
    decreases |data| - p
  {
    if p >= |data| then p == |data|
    else
      var s := ScanItem(data, p);
      !s.failure && Scannable(data, s.next)
  }

  predicate IsCollection(item: Item) {
    item.kind == MAIN && item.tag == COLLECTION_ITEM
  }

  predicate IsEnd(item: Item) {
    item.kind == MAIN && item.tag == END_ITEM
  }

  predicate IsElement(item: Item) {
    item.kind == MAIN && (item.tag == INPUT_ITEM || item.tag == OUTPUT_ITEM || item.tag == FEATURE_ITEM)
  }

  function CollectionItems(items: seq<Item>): nat {
    if items == [] then 0 else (if IsCollection(items[0]) then 1 else 0) + CollectionItems(items[1..])
  }

  function ElementItems(items: seq<Item>): nat {
    if items == [] then 0 else (if IsElement(items[0]) then 1 else 0) + ElementItems(items[1..])
  }

  /** The categories of the open collections, or the mark of an end item with nothing to end. */
  datatype Nesting = Unmatched | Nested(open: seq<byte>)

  /** Opening pushes, ending pops; a collection of category ROOT cannot be ended. */
  function Nest(open: seq<byte>, items: seq<Item>): Nesting
    decreases |items|
  {
    if items == [] then Nested(open)
    else if IsCollection(items[0]) then Nest(open + [items[0].value % 0x100], items[1..])
    else if IsEnd(items[0]) then
      if open == [] || open[|open| - 1] == ROOT then Unmatched else Nest(open[..|open| - 1], items[1..])
    else Nest(open, items[1..])
  }

  // ---------------------------------------------------------------- the tree under construction

  /** The categories from the root down to a collection. */
  ghost function Path(f: Forest, i: nat): (path: seq<byte>)
    requires WellFormed(f) && i < |f.collections|
    ensures path != [] && path[|path| - 1] == f.collections[i].category
  {
    if i == 0 then [f.collections[0].category]
    else Path(f, f.collections[i].parent) + [f.collections[i].category]
  }

  lemma {:induction false} PathSame(f: Forest, g: Forest, i: nat)
    requires WellFormed(f) && WellFormed(g) && i < |f.collections| <= |g.collections|
    requires forall k :: 0 <= k <= i ==>
      g.collections[k].parent == f.collections[k].parent && g.collections[k].category == f.collections[k].category
    ensures Path(g, i) == Path(f, i)
  {
    if i > 0 {
      PathSame(f, g, f.collections[i].parent);
    }
  }

  /** Elements in all reports. */
  function ElementCount(reports: seq<ReportNode>): nat {
    if reports == [] then 0
    else ElementCount(reports[..|reports| - 1]) + |reports[|reports| - 1].elements|
  }

  lemma {:induction false} ElementCountUpdate(reports: seq<ReportNode>, r: nat, e: Element)
    requires r < |reports|
    ensures ElementCount(reports[r := reports[r].(elements := reports[r].elements + [e])]) == ElementCount(reports) + 1
    decreases |reports|
  {
    var last := |reports| - 1;
    var updated := reports[r := reports[r].(elements := reports[r].elements + [e])];
    if r < last {
      ElementCountUpdate(reports[..last], r, e);
      assert updated[..last] == reports[..last][r := reports[r].(elements := reports[r].elements + [e])];
    } else {
      assert updated[..last] == reports[..last];
    }
  }

  lemma ElementCountAppend(reports: seq<ReportNode>, node: ReportNode)
    ensures ElementCount(reports + [node]) == ElementCount(reports) + |node.elements|
  {
    assert (reports + [node])[..|reports|] == reports;
  }

  /** Nothing ever built is taken back or reordered: lists only grow at their ends. */
  ghost predicate Extends(f: Forest, g: Forest) {
    && |f.collections| <= |g.collections| && |f.reports| <= |g.reports|
    && (forall i :: 0 <= i < |f.collections| ==>
          var c, d := f.collections[i], g.collections[i];
          d.parent == c.parent && d.category == c.category && d.usage == c.usage
          && c.collections <= d.collections && c.reports <= d.reports)
    && (forall r :: 0 <= r < |f.reports| ==>
          g.reports[r].parent == f.reports[r].parent && g.reports[r].id == f.reports[r].id
          && f.reports[r].elements <= g.reports[r].elements)
  }

  lemma ExtendsTwice(f: Forest, g: Forest, h: Forest)
    requires Extends(f, g) && Extends(g, h)
    ensures Extends(f, h)
  {
  }

  // ---------------------------------------------------------------- one growth step

  /** g grew from f by so many collections and elements; the current collection's path is as given. */
  ghost predicate Grew(f: Forest, g: Forest, collections: nat, elements: nat) {
    && WellFormed(g) && Extends(f, g)
    && |g.collections| == |f.collections| + collections
    && ElementCount(g.reports) == ElementCount(f.reports) + elements
  }

  lemma ExtendsPath(f: Forest, g: Forest, i: nat)
    requires WellFormed(f) && WellFormed(g) && Extends(f, g) && i < |f.collections|
    ensures Path(g, i) == Path(f, i)
  {
    PathSame(f, g, i);
  }

  lemma AddReportGrew(f: Forest, i: nat, id: byte)
    requires WellFormed(f) && i < |f.collections|
    ensures Grew(f, AddReport(f, i, id), 0, 0)
  {
    AddReportWellFormed(f, i, id);
    ElementCountAppend(f.reports, ReportNode(i, id, []));
  }

  lemma AddElementGrew(f: Forest, r: nat, e: Element)
    requires WellFormed(f) && r < |f.reports|
    ensures Grew(f, AddElement(f, r, e), 0, 1)
  {
    AddElementWellFormed(f, r, e);
    ElementCountUpdate(f.reports, r, e);
  }

  lemma AddCollectionGrew(f: Forest, i: nat, category: byte, usage: nat)
    requires WellFormed(f) && i < |f.collections|
    ensures Grew(f, AddCollection(f, i, category, usage), 1, 0)
    ensures Path(AddCollection(f, i, category, usage), |f.collections|) == Path(f, i) + [category]
  {
    AddCollectionWellFormed(f, i, category, usage);
    ExtendsPath(f, AddCollection(f, i, category, usage), i);
  }

  // ---------------------------------------------------------------- one item

  lemma CollectGrew(c: Context, kind: Kind, flags: nat)
    requires Sound(c) && InRange(c)
    ensures var d := Collect(c, kind, flags);
            Sound(d) && d.current == c.current && Grew(c.forest, d.forest, 0, 1)
  {
    var d := if c.report.None? then NewReport(c, 0) else c;
    AddReportGrew(c.forest, c.current, 0);
    var e := Element(kind, d.usages, flags % 0x100, d.count, d.size, d.logicalMin, d.logicalMax);
    AddElementGrew(d.forest, d.report.report, e);
    if c.report.None? {
      ExtendsTwice(c.forest, d.forest, AddElement(d.forest, d.report.report, e));
    }
  }

  lemma OpenGrew(c: Context, category: byte, usage: nat)
    requires Sound(c) && InRange(c)
    ensures var d := Open(c, category, usage); Sound(d) && Grew(c.forest, d.forest, 1, 0)
  {
    AddCollectionGrew(c.forest, c.current, category, usage);
  }

  lemma NewReportGrew(c: Context, id: byte)
    requires Sound(c) && InRange(c)
    ensures var d := NewReport(c, id); Sound(d) && Grew(c.forest, d.forest, 0, 0)
  {
    AddReportGrew(c.forest, c.current, id);
  }

  lemma SameGrew(f: Forest)
    requires WellFormed(f)
    ensures Grew(f, f, 0, 0)
  {
  }

  lemma MainGrew(c: Context, item: Item)
    requires Sound(c) && InRange(c) && item.kind == MAIN
    ensures var d := MainItem(c, item);
            Sound(d) && Grew(c.forest, d.forest, if IsCollection(item) then 1 else 0, if IsElement(item) then 1 else 0)
  {
    SameGrew(c.forest);
    if item.tag == INPUT_ITEM {
      CollectGrew(c, Input, item.value);
    } else if item.tag == OUTPUT_ITEM {
      CollectGrew(c, Output, item.value);
    } else if item.tag == FEATURE_ITEM {
      CollectGrew(c, Feature, item.value);
    } else if item.tag == COLLECTION_ITEM {
      OpenGrew(c, item.value % 0x100, if c.usages == [] then 0 else c.usages[0]);
    }
  }

  lemma GlobalGrew(c: Context, item: Item)
    requires Sound(c) && InRange(c)
    ensures var d := GlobalItem(c, item); Sound(d) && Grew(c.forest, d.forest, 0, 0)
  {
    SameGrew(c.forest);
    if item.tag == ID_ITEM {
      NewReportGrew(c, item.value % 0x100);
    }
  }

  /** One item keeps the tree sound and adds at most the node it stands for. */
  lemma InterpretGrew(c: Context, item: Item)
    requires Sound(c) && InRange(c)
    ensures var d := Interpret(c, item);
            Sound(d) && Grew(c.forest, d.forest, if IsCollection(item) then 1 else 0, if IsElement(item) then 1 else 0)
  {
    SameGrew(c.forest);
    if item.kind == MAIN {
      MainGrew(c, item);
    } else if item.kind == GLOBAL {
      GlobalGrew(c, item);
    }
  }

  /** The path to the current collection follows the nesting of the items. */
  ghost predicate NestsLike(c: Context, item: Item)
    requires Sound(c) && InRange(c)
  {
    var d := Interpret(c, item);
    && Sound(d)
    && Nest(Path(c.forest, c.current), [item])
       == if EndsRoot(c, item) then Unmatched else Nested(Path(d.forest, d.current))
  }

  lemma EndNests(c: Context, item: Item)
    requires Sound(c) && InRange(c) && IsEnd(item)
    ensures NestsLike(c, item)
  {
    assert [item][1..] == [];
    assert Interpret(c, item).forest == c.forest;
  }

  lemma CollectionNests(c: Context, item: Item)
    requires Sound(c) && InRange(c) && IsCollection(item)
    ensures NestsLike(c, item)
  {
    assert [item][1..] == [];
    AddCollectionGrew(c.forest, c.current, item.value % 0x100, if c.usages == [] then 0 else c.usages[0]);
  }

  lemma OtherNests(c: Context, item: Item)
    requires Sound(c) && InRange(c) && !IsCollection(item) && !IsEnd(item)
    requires Sound(Interpret(c, item)) && Extends(c.forest, Interpret(c, item).forest)
    ensures NestsLike(c, item)
  {
    assert [item][1..] == [];
    ExtendsPath(c.forest, Interpret(c, item).forest, c.current);
  }

  lemma InterpretNests(c: Context, item: Item)
    requires Sound(c) && InRange(c)
    ensures NestsLike(c, item)
  {
    if IsEnd(item) {
      EndNests(c, item);
    } else if IsCollection(item) {
      CollectionNests(c, item);
    } else {
      InterpretGrew(c, item);
      OtherNests(c, item);
    }
  }

  // ---------------------------------------------------------------- the whole map

  lemma NestStep(open: seq<byte>, items: seq<Item>)
    requires items != []
    ensures Nest(open, items) == match Nest(open, items[..1])
                                 case Unmatched => Unmatched
                                 case Nested(more) => Nest(more, items[1..])
  {
    assert items[..1] == [items[0]];
    assert items[..1][1..] == [];
  }

  /** For arbitrary bytes: the tree stays sound and only grows; parsing succeeds exactly when every item
      can be read, the last one ends with the data, and no end item stands outside a collection; and then
      there is one new collection for every collection item, one new element for every input, output or
      feature item, and the current collection lies as deep as the items nest. */
  lemma {:induction false} ParseStructure(data: seq<byte>, c: Context, p: nat)
    requires Sound(c) && InRange(c)
    ensures var o := Parse(data, c, p);
            var items := Items(data, p);
            && Sound(o.context) && Extends(c.forest, o.context.forest)
            && (Succeeds(data, o) <==> Scannable(data, p) && Nest(Path(c.forest, c.current), items).Nested?)
            && (Succeeds(data, o) ==>
                  && |o.context.forest.collections| == |c.forest.collections| + CollectionItems(items)
                  && ElementCount(o.context.forest.reports) == ElementCount(c.forest.reports) + ElementItems(items)
                  && Nest(Path(c.forest, c.current), items) == Nested(Path(o.context.forest, o.context.current)))
    decreases |data| - p
  {
    if p < |data| && data[p] != EXTENDED {
      var s := ScanItem(data, p);
      InterpretGrew(c, s.item);
      InterpretNests(c, s.item);
      var d := Interpret(c, s.item);
      var open := Path(c.forest, c.current);
      if !s.failure {
        NestStep(open, [s.item] + Items(data, s.next));
        assert ([s.item] + Items(data, s.next))[1..] == Items(data, s.next);
        assert ([s.item] + Items(data, s.next))[..1] == [s.item];
        if !EndsRoot(c, s.item) {
          ParseStructure(data, d, s.next);
          ExtendsTwice(c.forest, d.forest, Parse(data, d, s.next).context.forest);
        }
      }
    }
  }
}
