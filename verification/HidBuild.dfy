// A tree as a run of items, and what putting its nodes one by one leaves in a forest.
module HidBuild {
  import opened Bytes
  import opened HidForest
  import opened HidItems

  // ---------------------------------------------------------------- trees as items

  function KindTag(kind: Kind): nat {
    match kind case Input => INPUT_ITEM case Output => OUTPUT_ITEM case Feature => FEATURE_ITEM
  }

  function UsageItem(usage: nat): Item {
    Item(LOCAL, USAGE_ITEM, 3, usage)
  }

  function UsageItems(usages: seq<nat>): seq<Item> {
    if usages == [] then [] else [UsageItem(usages[0])] + UsageItems(usages[1..])
  }

  /** What an element has besides its usages, and the main item that makes it. */
  function FieldItems(e: Element): seq<Item> {
    [Item(GLOBAL, SIZE_ITEM, 2, e.size), Item(GLOBAL, COUNT_ITEM, 2, e.count),
     Item(LOCAL, MINIMUM_ITEM, 3, e.logicalMin), Item(LOCAL, MAXIMUM_ITEM, 3, e.logicalMax),
     Item(MAIN, KindTag(e.kind), 1, e.flags)]
  }

  function ElementsItems(es: seq<Element>): seq<Item> {
    if es == [] then [] else (UsageItems(es[0].usages) + FieldItems(es[0])) + ElementsItems(es[1..])
  }

  function ReportItems(r: ReportTree): seq<Item> {
    [Item(GLOBAL, ID_ITEM, 1, r.id)] + ElementsItems(r.elements)
  }

  function ReportsItems(rs: seq<ReportTree>): seq<Item> {
    if rs == [] then [] else ReportItems(rs[0]) + ReportsItems(rs[1..])
  }

  const END: Item := Item(MAIN, END_ITEM, 0, 0)

  function TreeItems(t: Tree): seq<Item>
    decreases t, 1
  {
    [UsageItem(t.usage), Item(MAIN, COLLECTION_ITEM, 1, t.category)] + BodyItems(t) + [END]
  }

  function BodyItems(t: Tree): seq<Item>
    decreases t, 0
  {
    ReportsItems(t.reports) + TreesItems(t.collections)
  }

  function TreesItems(ts: seq<Tree>): seq<Item>
    decreases ts, 0
  {
    if ts == [] then [] else TreeItems(ts[0]) + TreesItems(ts[1..])
  }

  /** Every field fits the operand it is printed with. */
  predicate ElementFits(e: Element) {
    && (forall k :: 0 <= k < |e.usages| ==> e.usages[k] < TWO_32)
    && e.count < TWO_16 && e.size < TWO_16 && e.logicalMin < TWO_32 && e.logicalMax < TWO_32
  }

  predicate ReportFits(r: ReportTree) {
    forall k :: 0 <= k < |r.elements| ==> ElementFits(r.elements[k])
  }

  /** Fields fit, and no collection below this one claims to be a root. */
  predicate Fits(t: Tree) {
    && (forall k :: 0 <= k < |t.reports| ==> ReportFits(t.reports[k]))
    && (forall k :: 0 <= k < |t.collections| ==>
          t.collections[k].category != ROOT && t.collections[k].usage < TWO_32 && Fits(t.collections[k]))
  }

  // ---------------------------------------------------------------- what putting a tree leaves in a forest

  function WithElements(f: Forest, r: nat, es: seq<Element>): Forest
    requires r < |f.reports|
  {
    f.(reports := f.reports[r := f.reports[r].(elements := f.reports[r].elements + es)])
  }

  function PutReport(f: Forest, i: nat, r: ReportTree): (g: Forest)
    requires i < |f.collections|
    ensures GrownAt(f, g, i)
  {
    WithElements(AddReport(f, i, r.id), |f.reports|, r.elements)
  }

  function PutReports(f: Forest, i: nat, rs: seq<ReportTree>): (g: Forest)
    requires i < |f.collections|
    ensures GrownAt(f, g, i)
    decreases rs
  {
    if rs == [] then f else PutReports(PutReport(f, i, rs[0]), i, rs[1..])
  }

  function PutTree(f: Forest, i: nat, t: Tree): (g: Forest)
    requires i < |f.collections|
    ensures GrownAt(f, g, i) && |f.collections| < |g.collections| && g.collections[|f.collections|].parent == i
    decreases t, 1
  {
    PutBody(AddCollection(f, i, t.category, t.usage), |f.collections|, t)
  }

  function PutBody(f: Forest, i: nat, t: Tree): (g: Forest)
    requires i < |f.collections|
    ensures GrownAt(f, g, i)
    decreases t, 0
  {
    PutTrees(PutReports(f, i, t.reports), i, t.collections)
  }

  function PutTrees(f: Forest, i: nat, ts: seq<Tree>): (g: Forest)
    requires i < |f.collections|
    ensures GrownAt(f, g, i)
    decreases ts, 0
  {
    if ts == [] then f else PutTrees(PutTree(f, i, ts[0]), i, ts[1..])
  }

  // ---------------------------------------------------------------- reading back what was put

  lemma WithElementsWellFormed(f: Forest, r: nat, es: seq<Element>)
    requires WellFormed(f) && r < |f.reports|
    ensures WellFormed(WithElements(f, r, es))
  {
    var g := WithElements(f, r, es);
    forall k | 0 <= k < |g.collections|
      ensures ListsOwn(g, k)
    {
      assert ListsOwn(f, k);
    }
  }

  /** All reports and all child trees of collection i. */
  ghost function AllReports(f: Forest, i: nat): seq<ReportTree>
    requires WellFormed(f) && i < |f.collections|
  {
    ReportsAt(f, i, |f.collections[i].reports|)
  }

  ghost function AllTrees(f: Forest, i: nat): seq<Tree>
    requires WellFormed(f) && i < |f.collections|
  {
    TreesAt(f, i, |f.collections[i].collections|)
  }

  /** g holds, below collection i, what f holds there and then the given reports and trees. */
  ghost predicate Holds(f: Forest, g: Forest, i: nat, rs: seq<ReportTree>, ts: seq<Tree>) {
    && WellFormed(f) && WellFormed(g) && GrownAt(f, g, i)
    && AllReports(g, i) == AllReports(f, i) + rs && AllTrees(g, i) == AllTrees(f, i) + ts
  }

  lemma Appended<T>(a: seq<T>, b: seq<T>, c: seq<T>, x: seq<T>, y: seq<T>, z: seq<T>)
    requires b == a + x && c == b + y && z == x + y
    ensures c == a + z
  {
  }

  lemma HoldsBoth(f: Forest, g: Forest, h: Forest, i: nat, rs: seq<ReportTree>, ts: seq<Tree>,
                  rs': seq<ReportTree>, ts': seq<Tree>, rs'': seq<ReportTree>, ts'': seq<Tree>)
    requires Holds(f, g, i, rs, ts) && Holds(g, h, i, rs', ts')
    requires rs'' == rs + rs' && ts'' == ts + ts'
    ensures Holds(f, h, i, rs'', ts'')
  {
    GrownTwice(f, g, h, i);
    Appended(AllReports(f, i), AllReports(g, i), AllReports(h, i), rs, rs', rs'');
    Appended(AllTrees(f, i), AllTrees(g, i), AllTrees(h, i), ts, ts', ts'');
  }

  lemma HoldsNothing(f: Forest, i: nat)
    requires WellFormed(f) && i < |f.collections|
    ensures Holds(f, f, i, [], [])
  {
  }

  lemma PutReportHolds(f: Forest, i: nat, r: ReportTree)
    requires WellFormed(f) && i < |f.collections|
    ensures Holds(f, PutReport(f, i, r), i, [r], [])
  {
    var a, g := AddReport(f, i, r.id), PutReport(f, i, r);
    AddReportWellFormed(f, i, r.id);
    WithElementsWellFormed(a, |f.reports|, r.elements);
    GrownReports(f, g, i, i, |f.collections[i].reports|);
    GrownTrees(f, g, i, i, |f.collections[i].collections|);
    assert ReportAt(g, |f.reports|) == r;
  }

  lemma {:induction false} PutReportsHold(f: Forest, i: nat, rs: seq<ReportTree>)
    requires WellFormed(f) && i < |f.collections|
    ensures Holds(f, PutReports(f, i, rs), i, rs, [])
    decreases |rs|
  {
    if rs == [] {
      HoldsNothing(f, i);
    } else {
      var g := PutReport(f, i, rs[0]);
      PutReportHolds(f, i, rs[0]);
      PutReportsHold(g, i, rs[1..]);
      HoldsBoth(f, g, PutReports(g, i, rs[1..]), i, [rs[0]], [], rs[1..], [], rs, []);
    }
  }

  /** A child was added and then filled: one more tree. */
  lemma ChildHolds(f: Forest, g: Forest, h: Forest, i: nat, t: Tree)
    requires WellFormed(f) && i < |f.collections| && g == AddCollection(f, i, t.category, t.usage)
    requires Holds(g, h, |f.collections|, t.reports, t.collections)
    ensures Holds(f, h, i, [], [t])
  {
    var n := |f.collections|;
    assert GrownAt(f, h, i);
    GrownReports(f, h, i, i, |f.collections[i].reports|);
    GrownTrees(f, h, i, i, |f.collections[i].collections|);
    assert AllReports(g, n) == [] && AllTrees(g, n) == [];
    assert TreeAt(h, n) == t;
  }

  lemma {:induction false} PutTreeHolds(f: Forest, i: nat, t: Tree)
    requires WellFormed(f) && i < |f.collections|
    ensures Holds(f, PutTree(f, i, t), i, [], [t])
    decreases t, 1
  {
    var g := AddCollection(f, i, t.category, t.usage);
    AddCollectionWellFormed(f, i, t.category, t.usage);
    PutBodyHolds(g, |f.collections|, t);
    ChildHolds(f, g, PutTree(f, i, t), i, t);
  }

  lemma {:induction false} PutBodyHolds(f: Forest, i: nat, t: Tree)
    requires WellFormed(f) && i < |f.collections|
    ensures Holds(f, PutBody(f, i, t), i, t.reports, t.collections)
    decreases t, 0
  {
    var g := PutReports(f, i, t.reports);
    PutReportsHold(f, i, t.reports);
    PutTreesHold(g, i, t.collections);
    HoldsBoth(f, g, PutTrees(g, i, t.collections), i, t.reports, [], [], t.collections, t.reports, t.collections);
  }

  lemma {:induction false} PutTreesHold(f: Forest, i: nat, ts: seq<Tree>)
    requires WellFormed(f) && i < |f.collections|
    ensures Holds(f, PutTrees(f, i, ts), i, [], ts)
    decreases ts, 0
  {
    if ts == [] {
      HoldsNothing(f, i);
    } else {
      var g := PutTree(f, i, ts[0]);
      PutTreeHolds(f, i, ts[0]);
      PutTreesHold(g, i, ts[1..]);
      TreesHoldBoth(f, g, PutTrees(g, i, ts[1..]), i, ts);
    }
  }

  lemma TreesHoldBoth(f: Forest, g: Forest, h: Forest, i: nat, ts: seq<Tree>)
    requires ts != [] && Holds(f, g, i, [], [ts[0]]) && Holds(g, h, i, [], ts[1..])
    ensures Holds(f, h, i, [], ts)
  {
    HoldsBoth(f, g, h, i, [], [ts[0]], [], ts[1..], [], ts);
  }
}
