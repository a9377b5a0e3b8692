// The tree a HID report map describes: collections hold collections and reports, reports hold elements.
// Nodes are numbered in the order of their creation.
module HidForest {
  import opened Bytes

  const ROOT: byte := 0xFF

  datatype Kind = Input | Output | Feature

  datatype Element = Element(kind: Kind, usages: seq<nat>, flags: byte, count: nat, size: nat, logicalMin: nat, logicalMax: nat)

  datatype ReportNode = ReportNode(parent: nat, id: byte, elements: seq<Element>)

  datatype CollectionNode = CollectionNode(parent: nat, category: byte, usage: nat, collections: seq<nat>, reports: seq<nat>)

  /** Collection 0 is the root; every other node names its parent, and every parent lists its nodes. */
  datatype Forest = Forest(collections: seq<CollectionNode>, reports: seq<ReportNode>)

  const BARE: Forest := Forest([CollectionNode(0, ROOT, 0, [], [])], [])

  /** Strictly increasing: listed in order of creation, and only once. */
  predicate InOrder(a: seq<nat>) {
    forall i, j :: 0 <= i < j < |a| ==> a[i] < a[j]
  }

  /** Every node is listed by its parent and by nobody else, after everything created before it. */
  ghost predicate WellFormed(f: Forest) {
    && f.collections != [] && f.collections[0].parent == 0 && f.collections[0].category == ROOT
    && (forall i :: 0 < i < |f.collections| ==>
          f.collections[i].parent < i && i in f.collections[f.collections[i].parent].collections)
    && (forall r :: 0 <= r < |f.reports| ==>
          f.reports[r].parent < |f.collections| && r in f.collections[f.reports[r].parent].reports)
    && (forall i :: 0 <= i < |f.collections| ==> ListsOwn(f, i))
  }

  ghost predicate ListsOwn(f: Forest, i: nat)
    requires i < |f.collections|
  {
    var c := f.collections[i];
    && InOrder(c.collections) && InOrder(c.reports)
    && (forall k :: 0 <= k < |c.collections| ==>
          i < c.collections[k] < |f.collections| && f.collections[c.collections[k]].parent == i)
    && (forall k :: 0 <= k < |c.reports| ==> c.reports[k] < |f.reports| && f.reports[c.reports[k]].parent == i)
  }

  // ---------------------------------------------------------------- growing a forest

  /** Collection::Child. */
  function AddCollection(f: Forest, i: nat, category: byte, usage: nat): Forest
    requires i < |f.collections|
  {
    var c := f.collections[i];
    Forest(f.collections[i := c.(collections := c.collections + [|f.collections|])] + [CollectionNode(i, category, usage, [], [])],
           f.reports)
  }

  /** Collection::Add. */
  function AddReport(f: Forest, i: nat, id: byte): Forest
    requires i < |f.collections|
  {
    var c := f.collections[i];
    Forest(f.collections[i := c.(reports := c.reports + [|f.reports|])], f.reports + [ReportNode(i, id, [])])
  }

  /** Report::Add. */
  function AddElement(f: Forest, r: nat, e: Element): Forest
    requires r < |f.reports|
  {
    f.(reports := f.reports[r := f.reports[r].(elements := f.reports[r].elements + [e])])
  }

  /** ListsOwn depends on the lists of i and on the parents of the nodes listed. */
  lemma ListsOwnSame(f: Forest, g: Forest, i: nat)
    requires i < |f.collections| <= |g.collections| && |f.reports| <= |g.reports| && ListsOwn(f, i)
    requires forall k :: 0 <= k < |f.collections| ==> g.collections[k].parent == f.collections[k].parent
    requires forall r :: 0 <= r < |f.reports| ==> g.reports[r].parent == f.reports[r].parent
    requires g.collections[i].collections == f.collections[i].collections && g.collections[i].reports == f.collections[i].reports
    ensures ListsOwn(g, i)
  {
  }

  lemma AddCollectionListsOwn(f: Forest, i: nat, category: byte, usage: nat, k: nat)
    requires WellFormed(f) && i < |f.collections| && k <= |f.collections|
    ensures ListsOwn(AddCollection(f, i, category, usage), k)
  {
    var g := AddCollection(f, i, category, usage);
    if k < |f.collections| {
      assert ListsOwn(f, k);
      if k != i {
        ListsOwnSame(f, g, k);
      }
    }
  }

  lemma AddReportListsOwn(f: Forest, i: nat, id: byte, k: nat)
    requires WellFormed(f) && i < |f.collections| && k < |f.collections|
    ensures ListsOwn(AddReport(f, i, id), k)
  {
    var g := AddReport(f, i, id);
    assert ListsOwn(f, k);
    if k != i {
      ListsOwnSame(f, g, k);
    }
  }

  lemma AddCollectionWellFormed(f: Forest, i: nat, category: byte, usage: nat)
    requires WellFormed(f) && i < |f.collections|
    ensures WellFormed(AddCollection(f, i, category, usage))
  {
    var g := AddCollection(f, i, category, usage);
    var n := |f.collections|;
    forall k | 0 < k < |g.collections|
      ensures g.collections[k].parent < k && k in g.collections[g.collections[k].parent].collections
    {
      if k == n {
        assert g.collections[i].collections[|f.collections[i].collections|] == n;
      } else {
        assert k in f.collections[f.collections[k].parent].collections;
      }
    }
    forall r | 0 <= r < |g.reports|
      ensures g.reports[r].parent < |g.collections| && r in g.collections[g.reports[r].parent].reports
    {
      assert r in f.collections[f.reports[r].parent].reports;
    }
    forall k | 0 <= k < |g.collections|
      ensures ListsOwn(g, k)
    {
      AddCollectionListsOwn(f, i, category, usage, k);
    }
  }

  lemma AddReportWellFormed(f: Forest, i: nat, id: byte)
    requires WellFormed(f) && i < |f.collections|
    ensures WellFormed(AddReport(f, i, id))
  {
    var g := AddReport(f, i, id);
    var n := |f.reports|;
    forall k | 0 < k < |g.collections|
      ensures g.collections[k].parent < k && k in g.collections[g.collections[k].parent].collections
    {
      assert k in f.collections[f.collections[k].parent].collections;
    }
    forall r | 0 <= r < |g.reports|
      ensures g.reports[r].parent < |g.collections| && r in g.collections[g.reports[r].parent].reports
    {
      if r == n {
        assert g.collections[i].reports[|f.collections[i].reports|] == n;
      } else {
        assert r in f.collections[f.reports[r].parent].reports;
      }
    }
    forall k | 0 <= k < |g.collections|
      ensures ListsOwn(g, k)
    {
      AddReportListsOwn(f, i, id, k);
    }
  }

  lemma AddElementWellFormed(f: Forest, r: nat, e: Element)
    requires WellFormed(f) && r < |f.reports|
    ensures WellFormed(AddElement(f, r, e))
  {
    var g := AddElement(f, r, e);
    forall k | 0 <= k < |g.collections|
      ensures ListsOwn(g, k)
    {
      assert ListsOwn(f, k);
    }
  }

  // ---------------------------------------------------------------- the tree read from a forest

  datatype ReportTree = ReportTree(id: byte, elements: seq<Element>)

  datatype Tree = Tree(category: byte, usage: nat, reports: seq<ReportTree>, collections: seq<Tree>)

  function ReportAt(f: Forest, r: nat): ReportTree
    requires r < |f.reports|
  {
    ReportTree(f.reports[r].id, f.reports[r].elements)
  }

  /** The reports of a collection, in order. */
  ghost function ReportsAt(f: Forest, i: nat, k: nat): (rs: seq<ReportTree>)
    requires WellFormed(f) && i < |f.collections| && k <= |f.collections[i].reports|
    ensures |rs| == k
  {
    if k == 0 then []
    else
      assert ListsOwn(f, i);
      ReportsAt(f, i, k - 1) + [ReportAt(f, f.collections[i].reports[k - 1])]
  }

  /** The first k child trees of a collection, in order. */
  ghost function TreesAt(f: Forest, i: nat, k: nat): (ts: seq<Tree>)
    requires WellFormed(f) && i < |f.collections| && k <= |f.collections[i].collections|
    ensures |ts| == k
    decreases |f.collections| - i, k
  {
    if k == 0 then []
    else
      assert ListsOwn(f, i);
      TreesAt(f, i, k - 1) + [TreeAt(f, f.collections[i].collections[k - 1])]
  }

  ghost function TreeAt(f: Forest, i: nat): Tree
    requires WellFormed(f) && i < |f.collections|
    decreases |f.collections| - i, |f.collections[i].collections| + 1
  {
    var c := f.collections[i];
    Tree(c.category, c.usage, ReportsAt(f, i, |c.reports|), TreesAt(f, i, |c.collections|))
  }

  // ---------------------------------------------------------------- growth leaves other subtrees alone

  /** g has everything f has, changed at most by longer lists at collection i. */
  ghost predicate GrownAt(f: Forest, g: Forest, i: nat) {
    && i < |f.collections| <= |g.collections| && |f.reports| <= |g.reports|
    && (forall k :: 0 <= k < |f.collections| && k != i ==> g.collections[k] == f.collections[k])
    && (forall r :: 0 <= r < |f.reports| ==> g.reports[r] == f.reports[r])
    && var c, d := f.collections[i], g.collections[i];
       d.parent == c.parent && d.category == c.category && d.usage == c.usage
       && c.collections <= d.collections && c.reports <= d.reports
  }

  lemma GrownTwice(f: Forest, g: Forest, h: Forest, i: nat)
    requires GrownAt(f, g, i) && GrownAt(g, h, i)
    ensures GrownAt(f, h, i)
  {
  }

  lemma {:induction false} GrownReports(f: Forest, g: Forest, i: nat, j: nat, k: nat)
    requires WellFormed(f) && WellFormed(g) && GrownAt(f, g, i) && j < |f.collections| && k <= |f.collections[j].reports|
    ensures k <= |g.collections[j].reports| && ReportsAt(g, j, k) == ReportsAt(f, j, k)
  {
    if k > 0 {
      GrownReports(f, g, i, j, k - 1);
      assert ListsOwn(f, j);
    }
  }

  /** Subtrees created after collection i stay as they are while i grows. */
  lemma {:induction false} GrownTree(f: Forest, g: Forest, i: nat, j: nat)
    requires WellFormed(f) && WellFormed(g) && GrownAt(f, g, i) && i < j < |f.collections|
    ensures TreeAt(g, j) == TreeAt(f, j)
    decreases |f.collections| - j, |f.collections[j].collections| + 1
  {
    GrownReports(f, g, i, j, |f.collections[j].reports|);
    GrownTrees(f, g, i, j, |f.collections[j].collections|);
  }

  lemma {:induction false} GrownTrees(f: Forest, g: Forest, i: nat, j: nat, k: nat)
    requires WellFormed(f) && WellFormed(g) && GrownAt(f, g, i) && i <= j < |f.collections| && k <= |f.collections[j].collections|
    ensures k <= |g.collections[j].collections| && TreesAt(g, j, k) == TreesAt(f, j, k)
    decreases |f.collections| - j, k
  {
    if k > 0 {
      GrownTrees(f, g, i, j, k - 1);
      assert ListsOwn(f, j);
      GrownTree(f, g, i, f.collections[j].collections[k - 1]);
    }
  }
}
