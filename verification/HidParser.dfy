// The HID report-map parser as it runs: one pass over the bytes, linking collection, report and
// element objects as it goes.
module HidParser {
  import opened Bytes
  import opened HidForest
  import opened HidItems

  class Report {
    const parent: Collection
    const id: byte
    var elements: seq<Element>

    constructor (parent: Collection, id: byte)
      ensures this.parent == parent && this.id == id && elements == []
    {
      this.parent, this.id, elements := parent, id, [];
    }

    method Add(e: Element)
      modifies this
      ensures elements == old(elements) + [e]
    {
      elements := elements + [e];
    }
  }

  class Collection {
    const parent: Collection?  // null in the root
    const category: byte
    const usage: nat
    var collections: seq<Collection>
    var reports: seq<Report>

    constructor Root()
      ensures parent == null && category == ROOT && usage == 0 && collections == [] && reports == []
    {
      parent, category, usage, collections, reports := null, ROOT, 0, [], [];
    }

    constructor Under(parent: Collection, category: byte, usage: nat)
      ensures this.parent == parent && this.category == category && this.usage == usage && collections == [] && reports == []
    {
      this.parent, this.category, this.usage, collections, reports := parent, category, usage, [], [];
    }

    method Child(category: byte, usage: nat) returns (child: Collection)
      modifies this
      ensures fresh(child) && child.parent == this && child.category == category && child.usage == usage
      ensures child.collections == [] && child.reports == []
      ensures collections == old(collections) + [child] && reports == old(reports)
    {
      child := new Collection.Under(this, category, usage);
      collections := collections + [child];
    }

    method Add(id: byte) returns (report: Report)
      modifies this
      ensures fresh(report) && report.parent == this && report.id == id && report.elements == []
      ensures reports == old(reports) + [report] && collections == old(collections)
    {
      report := new Report(this, id);
      reports := reports + [report];
    }
  }

  // ---------------------------------------------------------------- the objects and the forest

  predicate Distinct<T(==)>(a: seq<T>) {
    forall i, j :: 0 <= i < j < |a| ==> a[i] != a[j]
  }

  /** A list of objects, given by their numbers. */
  predicate Named<T(==)>(all: seq<T>, list: seq<T>, numbers: seq<nat>) {
    |list| == |numbers| && forall k :: 0 <= k < |numbers| ==> numbers[k] < |all| && list[k] == all[numbers[k]]
  }

  lemma NamedMore<T>(all: seq<T>, list: seq<T>, numbers: seq<nat>, one: T)
    requires Named(all, list, numbers)
    ensures Named(all + [one], list, numbers)
    ensures Named(all + [one], list + [one], numbers + [|all|])
  {
  }

  lemma DistinctMore<T>(a: seq<T>, one: T)
    requires Distinct(a) && one !in a
    ensures Distinct(a + [one])
  {
  }

  ghost predicate NodeIs(nodes: seq<Collection>, reps: seq<Report>, n: Collection, c: CollectionNode, i: nat)
    reads n
  {
    && n.category == c.category && n.usage == c.usage
    && (if i == 0 then n.parent == null else c.parent < |nodes| && n.parent == nodes[c.parent])
    && Named(nodes, n.collections, c.collections) && Named(reps, n.reports, c.reports)
  }

  ghost predicate ReportIs(nodes: seq<Collection>, r: Report, s: ReportNode)
    reads r
  {
    s.parent < |nodes| && r.parent == nodes[s.parent] && r.id == s.id && r.elements == s.elements
  }

  /** The objects, in the order of their creation, link up as the forest says. */
  ghost predicate Represents(nodes: seq<Collection>, reps: seq<Report>, f: Forest)
    reads nodes, reps
  {
    && |nodes| == |f.collections| && |reps| == |f.reports| && Distinct(nodes) && Distinct(reps)
    && (forall i :: 0 <= i < |nodes| ==> NodeIs(nodes, reps, nodes[i], f.collections[i], i))
    && (forall r :: 0 <= r < |reps| ==> ReportIs(nodes, reps[r], f.reports[r]))
  }

  /** The parent of a new collection, from what it listed before. */
  lemma ParentOfChild(nodes: seq<Collection>, reps: seq<Report>, n: Collection, c: CollectionNode, i: nat, child: Collection,
                      before: seq<Collection>)
    requires n.category == c.category && n.usage == c.usage
    requires if i == 0 then n.parent == null else c.parent < |nodes| && n.parent == nodes[c.parent]
    requires Named(nodes, before, c.collections) && Named(reps, n.reports, c.reports)
    requires n.collections == before + [child]
    ensures NodeIs(nodes + [child], reps, n, c.(collections := c.collections + [|nodes|]), i)
  {
    NamedMore(nodes, before, c.collections, child);
  }

  /** The parent of a new report, from what it listed before. */
  lemma ParentOfReport(nodes: seq<Collection>, reps: seq<Report>, n: Collection, c: CollectionNode, i: nat, report: Report,
                       before: seq<Report>)
    requires n.category == c.category && n.usage == c.usage
    requires if i == 0 then n.parent == null else c.parent < |nodes| && n.parent == nodes[c.parent]
    requires Named(nodes, n.collections, c.collections) && Named(reps, before, c.reports)
    requires n.reports == before + [report]
    ensures NodeIs(nodes, reps + [report], n, c.(reports := c.reports + [|reps|]), i)
  {
    NamedMore(reps, before, c.reports, report);
  }

  /** What a new child of collection i leaves: everything at once, from its parts. */
  lemma ChildRepresents(nodes: seq<Collection>, reps: seq<Report>, f: Forest, i: nat, child: Collection)
    requires |nodes| == |f.collections| && |reps| == |f.reports| && Distinct(nodes) && Distinct(reps)
    requires i < |nodes| && child !in nodes
    requires forall k :: 0 <= k < |nodes| && k != i ==> NodeIs(nodes, reps, nodes[k], f.collections[k], k)
    requires forall r :: 0 <= r < |reps| ==> ReportIs(nodes, reps[r], f.reports[r])
    requires NodeIs(nodes + [child], reps, nodes[i], f.collections[i].(collections := f.collections[i].collections + [|nodes|]), i)
    requires child.parent == nodes[i] && child.collections == [] && child.reports == []
    ensures Represents(nodes + [child], reps, AddCollection(f, i, child.category, child.usage))
  {
    var g := AddCollection(f, i, child.category, child.usage);
    var all := nodes + [child];
    DistinctMore(nodes, child);
    forall k | 0 <= k < |all|
      ensures NodeIs(all, reps, all[k], g.collections[k], k)
    {
      if k < |nodes| && k != i {
        NamedMore(nodes, nodes[k].collections, f.collections[k].collections, child);
      }
    }
    forall r | 0 <= r < |reps|
      ensures ReportIs(all, reps[r], g.reports[r])
    {
      assert ReportIs(nodes, reps[r], f.reports[r]);
    }
  }

  lemma ReportRepresents(nodes: seq<Collection>, reps: seq<Report>, f: Forest, i: nat, report: Report)
    requires |nodes| == |f.collections| && |reps| == |f.reports| && Distinct(nodes) && Distinct(reps)
    requires i < |nodes| && report !in reps
    requires forall k :: 0 <= k < |nodes| && k != i ==> NodeIs(nodes, reps, nodes[k], f.collections[k], k)
    requires forall r :: 0 <= r < |reps| ==> ReportIs(nodes, reps[r], f.reports[r])
    requires NodeIs(nodes, reps + [report], nodes[i], f.collections[i].(reports := f.collections[i].reports + [|reps|]), i)
    requires report.parent == nodes[i] && report.elements == []
    ensures Represents(nodes, reps + [report], AddReport(f, i, report.id))
  {
    var g := AddReport(f, i, report.id);
    var all := reps + [report];
    DistinctMore(reps, report);
    forall k | 0 <= k < |nodes|
      ensures NodeIs(nodes, all, nodes[k], g.collections[k], k)
    {
      if k != i {
        NamedMore(reps, nodes[k].reports, f.collections[k].reports, report);
      }
    }
    forall r | 0 <= r < |all|
      ensures ReportIs(nodes, all[r], g.reports[r])
    {
      if r < |reps| {
        assert ReportIs(nodes, reps[r], f.reports[r]);
      }
    }
  }

  /** An element was added to report r. */
  lemma ElementRepresents(nodes: seq<Collection>, reps: seq<Report>, f: Forest, r: nat, e: Element)
    requires |nodes| == |f.collections| && |reps| == |f.reports| && Distinct(nodes) && Distinct(reps) && r < |reps|
    requires forall k :: 0 <= k < |nodes| ==> NodeIs(nodes, reps, nodes[k], f.collections[k], k)
    requires forall k :: 0 <= k < |reps| && k != r ==> ReportIs(nodes, reps[k], f.reports[k])
    requires ReportIs(nodes, reps[r], f.reports[r].(elements := f.reports[r].elements + [e]))
    ensures Represents(nodes, reps, AddElement(f, r, e))
  {
  }

  // ---------------------------------------------------------------- growing the objects

  method NewChild(collection: Collection, category: byte, usage: nat,
                  ghost nodes: seq<Collection>, ghost reps: seq<Report>, ghost f: Forest, ghost i: nat) returns (child: Collection)
    requires Represents(nodes, reps, f) && i < |nodes| && nodes[i] == collection
    modifies collection
    ensures fresh(child) && Represents(nodes + [child], reps, AddCollection(f, i, category, usage))
  {
    assert NodeIs(nodes, reps, nodes[i], f.collections[i], i);
    ghost var listed := collection.collections;
    label before:
    child := collection.Child(category, usage);
    forall k | 0 <= k < |nodes| && k != i
      ensures NodeIs(nodes, reps, nodes[k], f.collections[k], k)
    {
      assert old@before(NodeIs(nodes, reps, nodes[k], f.collections[k], k));
    }
    ParentOfChild(nodes, reps, nodes[i], f.collections[i], i, child, listed);
    ChildRepresents(nodes, reps, f, i, child);
  }

  method NewReportOf(collection: Collection, id: byte,
                     ghost nodes: seq<Collection>, ghost reps: seq<Report>, ghost f: Forest, ghost i: nat) returns (report: Report)
    requires Represents(nodes, reps, f) && i < |nodes| && nodes[i] == collection
    modifies collection
    ensures fresh(report) && Represents(nodes, reps + [report], HidForest.AddReport(f, i, id))
  {
    assert NodeIs(nodes, reps, nodes[i], f.collections[i], i);
    ghost var listed := collection.reports;
    label before:
    report := collection.Add(id);
    forall k | 0 <= k < |nodes| && k != i
      ensures NodeIs(nodes, reps, nodes[k], f.collections[k], k)
    {
      assert old@before(NodeIs(nodes, reps, nodes[k], f.collections[k], k));
    }
    ParentOfReport(nodes, reps, nodes[i], f.collections[i], i, report, listed);
    ReportRepresents(nodes, reps, f, i, report);
  }

  method NewElement(report: Report, e: Element,
                    ghost nodes: seq<Collection>, ghost reps: seq<Report>, ghost f: Forest, ghost r: nat)
    requires Represents(nodes, reps, f) && r < |reps| && reps[r] == report
    modifies report
    ensures Represents(nodes, reps, AddElement(f, r, e))
  {
    assert ReportIs(nodes, reps[r], f.reports[r]);
    label before:
    report.Add(e);
    forall k | 0 <= k < |reps| && k != r
      ensures ReportIs(nodes, reps[k], f.reports[k])
    {
      assert old@before(ReportIs(nodes, reps[k], f.reports[k]));
    }
    forall k | 0 <= k < |nodes|
      ensures NodeIs(nodes, reps, nodes[k], f.collections[k], k)
    {
      assert old@before(NodeIs(nodes, reps, nodes[k], f.collections[k], k));
    }
    ElementRepresents(nodes, reps, f, r, e);
  }

  /** Without a report at hand, a new one takes the element. */
  lemma CollectNew(c: Context, kind: Kind, flags: nat)
    requires InRange(c) && c.report.None?
    ensures InRange(NewReport(c, 0)) && Collect(c, kind, flags) == Collect(NewReport(c, 0), kind, flags)
  {
  }

  lemma OpenInRange(c: Context, category: byte, usage: nat)
    requires InRange(c)
    ensures var d := Open(c, category, usage);
            InRange(d) && d.forest.collections[0].category == c.forest.collections[0].category
  {
  }

  lemma ParseRound(data: seq<byte>, c: Context, p: nat)
    requires InRange(c) && p < |data|
    ensures var o := Step(data, c, p);
            Parse(data, c, p) == if o.failure then o else Parse(data, o.context, o.position)
  {
  }

  /** What the object of a node shows of it. */
  lemma ParentOf(nodes: seq<Collection>, reps: seq<Report>, f: Forest, i: nat)
    requires Represents(nodes, reps, f) && i < |nodes| && f.collections[0].category == ROOT
    ensures nodes[i].category == f.collections[i].category
    ensures f.collections[i].category != ROOT ==> f.collections[i].parent < |nodes| && nodes[i].parent == nodes[f.collections[i].parent]
  {
    assert NodeIs(nodes, reps, nodes[i], f.collections[i], i);
  }

  lemma EndMeans(c: Context)
    requires InRange(c)
    ensures HidItems.MainItem(c, Item(MAIN, END_ITEM, 0, 0))
         == if EndsRoot(c, Item(MAIN, END_ITEM, 0, 0)) then c else c.(current := c.forest.collections[c.current].parent)
  {
  }

  lemma StepOf(data: seq<byte>, c: Context, p: nat, kind: nat, tag: nat, bytes: nat)
    requires InRange(c) && p < |data| && data[p] != EXTENDED
    requires kind == data[p] / 4 % 4 && tag == data[p] / 16 && bytes == data[p] % 4
    ensures var r := Read(data, p + 1, bytes);
            var item := Item(kind, tag, bytes, if Reads(kind, tag) then r.0 else 0);
            Step(data, c, p) == Outcome(Interpret(c, item), if Reads(kind, tag) then r.1 else p + 1,
                                        (Reads(kind, tag) && r.2) || EndsRoot(c, item))
  {
  }

  // ---------------------------------------------------------------- the parser

  /** The parser's local variables, shared by its lambdas; the ghost fields number the objects created. */
  class Parser {
    const data: seq<byte>
    var p: nat
    var collection: Collection
    var report: Report?
    var usagePage: nat
    var count: nat
    var size: nat
    var logicalMin: nat
    var logicalMax: nat
    var usages: seq<nat>
    var failure: bool

    ghost var nodes: seq<Collection>
    ghost var reps: seq<Report>
    ghost var view: Context

    ghost predicate Scalars()
      reads this
    {
      view == view.(usagePage := usagePage, count := count, size := size,
                    logicalMin := logicalMin, logicalMax := logicalMax, usages := usages)
    }

    /** The current objects are those the view's numbers stand for. */
    ghost predicate Linked()
      reads this
    {
      && view.current < |nodes| && collection == nodes[view.current]
      && (view.report.None? <==> report == null)
      && (view.report.At? ==> view.report.report < |reps| && report == reps[view.report.report])
    }

    ghost predicate Valid()
      reads this, nodes, reps
    {
      InRange(view) && view.forest.collections[0].category == ROOT && Represents(nodes, reps, view.forest) && Linked() && Scalars()
    }

    constructor (data: seq<byte>, root: Collection, ghost nodes: seq<Collection>, ghost reps: seq<Report>, ghost forest: Forest)
      requires WellFormed(forest) && Represents(nodes, reps, forest) && nodes[0] == root
      ensures Valid() && view == Initial(forest) && this.nodes == nodes && this.reps == reps
      ensures this.data == data && p == 0 && !failure
    {
      this.data, p := data, 0;
      collection, report := root, null;
      usagePage, count, size, logicalMin, logicalMax, usages, failure := 0, 0, 0, 0, 0, [], false;
      this.nodes, this.reps, view := nodes, reps, Initial(forest);
    }

    /** Objects came, none went. */
    twostate predicate Grown()
      reads this
    {
      && (forall n :: n in nodes ==> n in old(nodes) || fresh(n))
      && (forall r :: r in reps ==> r in old(reps) || fresh(r))
    }

    method OpenCollection(category: byte, usage: nat)
      requires Valid()
      modifies this, collection
      ensures Valid() && view == Open(old(view), category, usage) && failure == old(failure) && p == old(p)
      ensures Grown()
    {
      OpenInRange(view, category, usage);
      var child := NewChild(collection, category, usage, nodes, reps, view.forest, view.current);
      collection, nodes, view := child, nodes + [child], Open(view, category, usage);
    }

    method AddReport(id: byte)
      requires Valid()
      modifies this, nodes
      ensures Valid() && view == NewReport(old(view), id) && failure == old(failure) && p == old(p)
      ensures report != null && fresh(report) && reps == old(reps) + [report] && nodes == old(nodes)
    {
      assert collection == nodes[view.current];
      var one := NewReportOf(collection, id, nodes, reps, view.forest, view.current);
      report, reps, view := one, reps + [one], NewReport(view, id);
    }

    /** An element for the report at hand. */
    method AddElement(kind: Kind, flags: nat)
      requires Valid() && report != null
      modifies this, report
      ensures Valid() && view == Collect(old(view), kind, flags) && failure == old(failure) && p == old(p)
      ensures nodes == old(nodes) && reps == old(reps)
    {
      var e := Element(kind, usages, flags % 0x100, count, size, logicalMin, logicalMax);
      NewElement(report, e, nodes, reps, view.forest, view.report.report);
      view := view.(forest := HidForest.AddElement(view.forest, view.report.report, e));
    }

    method CollectElement(kind: Kind, flags: nat)
      requires Valid()
      modifies this, nodes, reps
      ensures Valid() && view == Collect(old(view), kind, flags) && failure == old(failure) && p == old(p)
      ensures Grown()
    {
      if report == null {
        CollectNew(view, kind, flags);
        AddReport(0);
        AddElement(kind, flags);
      } else {
        assert report == reps[view.report.report];
        AddElement(kind, flags);
      }
    }

    /** The Read lambda. */
    method Operand(size: nat) returns (value: nat)
      modifies this
      ensures (value, p, failure) == (var r := Read(data, old(p), size); (r.0, r.1, old(failure) || r.2))
      ensures collection == old(collection) && report == old(report) && view == old(view)
      ensures usagePage == old(usagePage) && count == old(count) && this.size == old(this.size)
      ensures logicalMin == old(logicalMin) && logicalMax == old(logicalMax) && usages == old(usages)
      ensures nodes == old(nodes) && reps == old(reps)
    {
      value := 0;
      if size == 1 {
        if p + 1 < |data| {
          value := data[p];
        }
        p := p + 1;
      } else if size == 2 {
        if p + 2 < |data| {
          value := data[p] as nat + data[p + 1] as nat * 0x100;
        }
        p := p + 2;
      } else if size == 3 {
        if p + 4 < |data| {
          value := data[p] as nat + data[p + 1] as nat * 0x100 + data[p + 2] as nat * 0x1_0000 + data[p + 3] as nat * 0x100_0000;
        }
        p := p + 4;
      } else {
        failure := true;
      }
    }

    /** Where reading an operand ends, and whether it failed. */
    ghost predicate Consumed(from: nat, failed: bool, size: nat)
      reads this
    {
      var r := Read(data, from, size);
      p == r.1 && (failure <==> failed || r.2)
    }

    method ElementItem(kind: Kind, bytes: nat)
      requires Valid()
      modifies this, nodes, reps
      ensures Valid() && view == Collect(old(view), kind, Read(data, old(p), bytes).0)
      ensures Consumed(old(p), old(failure), bytes) && Grown()
    {
      var flags := Operand(bytes);
      CollectElement(kind, flags);
    }

    method CollectionItem(bytes: nat)
      requires Valid()
      modifies this, nodes, reps
      ensures Valid() && Grown()
      ensures view == Open(old(view), Read(data, old(p), bytes).0 % 0x100, if old(usages) == [] then 0 else old(usages)[0])
      ensures Consumed(old(p), old(failure), bytes)
    {
      var category := Operand(bytes);
      OpenCollection(category % 0x100, if usages == [] then 0 else usages[0]);
    }

    method EndCollection()
      requires Valid()
      modifies this
      ensures Valid() && (p, nodes, reps) == old((p, nodes, reps))
      ensures view == HidItems.MainItem(old(view), Item(MAIN, END_ITEM, 0, 0))
      ensures failure == (old(failure) || EndsRoot(old(view), Item(MAIN, END_ITEM, 0, 0)))
    {
      ParentOf(nodes, reps, view.forest, view.current);
      EndMeans(view);
      if collection.category != ROOT {
        collection := collection.parent;
        view := view.(current := view.forest.collections[view.current].parent);
      } else {
        failure := true;
      }
    }

    method ClearLocals()
      requires Valid()
      modifies this
      ensures Valid() && view == HidItems.ClearLocals(old(view))
      ensures (p, failure, nodes, reps) == old((p, failure, nodes, reps))
    {
      usages, logicalMin, logicalMax := [], 0, 0;
      view := HidItems.ClearLocals(view);
    }

    method MainItem(tag: nat, bytes: nat)
      requires Valid()
      modifies this, nodes, reps
      ensures Valid() && Grown()
      ensures var item := Item(MAIN, tag, bytes, if tag == END_ITEM then 0 else Read(data, old(p), bytes).0);
              view == HidItems.ClearLocals(HidItems.MainItem(old(view), item))
      ensures if tag == END_ITEM then p == old(p) && failure == (old(failure) || EndsRoot(old(view), Item(MAIN, tag, bytes, 0)))
              else Consumed(old(p), old(failure), bytes)
    {
      if tag == INPUT_ITEM {
        ElementItem(Input, bytes);
      } else if tag == OUTPUT_ITEM {
        ElementItem(Output, bytes);
      } else if tag == FEATURE_ITEM {
        ElementItem(Feature, bytes);
      } else if tag == COLLECTION_ITEM {
        CollectionItem(bytes);
      } else if tag == END_ITEM {
        EndCollection();
      } else {
        var _ := Operand(bytes);
      }
      ClearLocals();
    }

    method GlobalItem(tag: nat, bytes: nat)
      requires Valid()
      modifies this, nodes
      ensures Valid() && Grown() && Consumed(old(p), old(failure), bytes)
      ensures view == HidItems.GlobalItem(old(view), Item(GLOBAL, tag, bytes, Read(data, old(p), bytes).0))
    {
      var value := Operand(bytes);
      if tag == ID_ITEM {
        AddReport(value % 0x100);
      } else {
        SetGlobal(tag, bytes, value);
      }
    }

    /** The global items that only set a variable. */
    method SetGlobal(tag: nat, ghost bytes: nat, value: nat)
      requires Valid() && tag != ID_ITEM
      modifies this`view, this`usagePage, this`size, this`count
      ensures Valid() && view == HidItems.GlobalItem(old(view), Item(GLOBAL, tag, bytes, value))
    {
      view := HidItems.GlobalItem(view, Item(GLOBAL, tag, bytes, value));
      if tag == USAGE_PAGE_ITEM {
        usagePage := value % 0x1_0000;
      } else if tag == SIZE_ITEM {
        size := value % 0x1_0000;
      } else if tag == COUNT_ITEM {
        count := value % 0x1_0000;
      }
    }

    method LocalItem(tag: nat, bytes: nat)
      requires Valid()
      modifies this
      ensures Valid() && (nodes, reps) == old((nodes, reps)) && Consumed(old(p), old(failure), bytes)
      ensures view == HidItems.LocalItem(old(view), Item(LOCAL, tag, bytes, Read(data, old(p), bytes).0))
    {
      var value := Operand(bytes);
      SetLocal(tag, bytes, value);
    }

    /** Local items only set a variable. */
    method SetLocal(tag: nat, bytes: nat, value: nat)
      requires Valid()
      modifies this`view, this`usages, this`logicalMin, this`logicalMax
      ensures Valid() && view == HidItems.LocalItem(old(view), Item(LOCAL, tag, bytes, value))
    {
      view := HidItems.LocalItem(view, Item(LOCAL, tag, bytes, value));
      if tag == USAGE_ITEM {
        usages := usages + [if bytes == 3 then value else MakeUsage(usagePage, value)];
      } else if tag == MINIMUM_ITEM {
        logicalMin := value;
      } else if tag == MAXIMUM_ITEM {
        logicalMax := value;
      }
    }

    /** The parse from here on is the rest of the whole parse. */
    ghost predicate Follows(f: Forest)
      requires InRange(Initial(f))
      reads this, nodes, reps
    {
      Valid() && Parse(data, Initial(f), 0) == if failure then Outcome(view, p, true) else Parse(data, view, p)
    }

    /** The loop's body: one item. */
    method Round(ghost f: Forest)
      requires InRange(Initial(f)) && Follows(f) && p < |data| && !failure
      modifies this, nodes, reps
      ensures Follows(f) && Grown() && p > old(p)
    {
      ParseRound(data, view, p);
      OneItem();
    }

    method OneItem()
      requires Valid() && p < |data| && !failure
      modifies this, nodes, reps
      ensures Valid() && Grown()
      ensures Outcome(view, p, failure) == Step(data, old(view), old(p))
    {
      var descriptor := data[p];
      p := p + 1;
      if descriptor == EXTENDED {
        failure := true;
      } else {
        var kind, tag, bytes := descriptor / 4 % 4, descriptor / 16, descriptor % 4;
        StepOf(data, view, p - 1, kind, tag, bytes);
        if kind == MAIN {
          MainItem(tag, bytes);
        } else if kind == GLOBAL {
          GlobalItem(tag, bytes);
        } else if kind == LOCAL {
          LocalItem(tag, bytes);
        }
      }
    }
  }

  /** HID::ParseReportMap, on any bytes and any tree already there. */
  method ParseReportMap(data: seq<byte>, root: Collection, ghost nodes: seq<Collection>, ghost reps: seq<Report>, ghost f: Forest)
    returns (success: bool, ghost allNodes: seq<Collection>, ghost allReps: seq<Report>)
    requires WellFormed(f) && Represents(nodes, reps, f) && nodes[0] == root
    modifies nodes, reps
    ensures var o := Parse(data, Initial(f), 0);
            success == Succeeds(data, o) && Represents(allNodes, allReps, o.context.forest)
  {
    var parser := new Parser(data, root, nodes, reps, f);
    while parser.p < |data| && !parser.failure
      invariant parser.Follows(f) && fresh(parser) && parser.data == data
      invariant forall n :: n in parser.nodes ==> n in nodes || fresh(n)
      invariant forall r :: r in parser.reps ==> r in reps || fresh(r)
      decreases !parser.failure, |data| - parser.p
    {
      assert forall k :: 0 <= k < |parser.nodes| ==> parser.nodes[k] in nodes || fresh(parser.nodes[k]);
      assert forall k :: 0 <= k < |parser.reps| ==> parser.reps[k] in reps || fresh(parser.reps[k]);
      parser.Round(f);
    }
    success, allNodes, allReps := !parser.failure && parser.p == |data|, parser.nodes, parser.reps;
  }
}
