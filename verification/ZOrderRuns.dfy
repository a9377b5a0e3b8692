// Whole runs of the compositor: what each operation intends, when it achieves it, and that a
// run of operations behaves exactly when every one of them met its condition.
module ZOrderRuns {
  import opened Names
  import opened ZOrder

  // ---------------------------------------------------------------- attaching

  /** Where Attached puts a client: next to the topmost sub screen of its callsign, above it for
      graphics and below it otherwise; without such a sub screen on top, or at the bottom. */
  function InsertionPlace(s: seq<string>, name: string, newOnTop: bool): (k: nat)
    ensures k <= |s|
  {
    var sibling := FirstSubOf(s, Primary(name));
    if IsSub(name) && sibling < |s| then
      if IsGraphics(name) then sibling else sibling + 1
    else if newOnTop then 0 else |s|
  }

  function Inserted(s: seq<string>, name: string, newOnTop: bool): seq<string> {
    var k := InsertionPlace(s, name, newOnTop);
    s[..k] + [name] + s[k..]
  }

  /** The condition, checked on the remaining clients, under which attaching keeps callsigns together. */
  predicate AttachKeepsTogether(s: seq<string>, name: string, newOnTop: bool) {
    || Primary(name) !in Callsigns(s)
    || (IsSub(name) && FirstSubOf(s, Primary(name)) < |s|)
    || (s != [] && Primary(if newOnTop then s[0] else s[|s| - 1]) == Primary(name))
  }

  lemma InsertedCallsigns(s: seq<string>, k: nat, name: string)
    requires k <= |s|
    ensures Callsigns(s[..k] + [name] + s[k..]) == Callsigns(s)[..k] + [Primary(name)] + Callsigns(s)[k..]
  {
    InsertContents(s, k, name);
  }

  /** Attaching keeps every callsign together if and only if no layer of the callsign is there yet,
      the new client joins a sub screen, or the end of the stack it goes to is the callsign's. */
  lemma AttachTogether(s: seq<string>, name: string, newOnTop: bool)
    requires Grouped(s)
    ensures Grouped(Inserted(s, name, newOnTop)) <==> AttachKeepsTogether(s, name, newOnTop)
  {
    var k := InsertionPlace(s, name, newOnTop);
    InsertedCallsigns(s, k, name);
    InsertClustered(Callsigns(s), k, Primary(name));
    InsertionJoins(s, name, newOnTop);
  }

  /** The insertion place lies at an end of the stack, or next to a sub screen of the callsign. */
  lemma InsertionJoins(s: seq<string>, name: string, newOnTop: bool)
    ensures var p, k, x := Callsigns(s), InsertionPlace(s, name, newOnTop), Primary(name);
            (x !in p && Cut(p, k)) || (k > 0 && p[k - 1] == x) || (k < |p| && p[k] == x)
            <==> AttachKeepsTogether(s, name, newOnTop)
  {
    var first := FirstSubOf(s, Primary(name));
    if IsSub(name) && first < |s| {
      assert Callsigns(s)[first] == Primary(name);
    } else if s != [] {
      assert Callsigns(s)[0] == Primary(s[0]) && Callsigns(s)[|s| - 1] == Primary(s[|s| - 1]);
    }
  }

  /** No sub screen lies above a graphics sub screen of the same callsign. */
  ghost predicate GraphicsOnTop(s: seq<string>) {
    forall i, j :: 0 <= i < j < |s| && IsSub(s[i]) && IsSub(s[j]) && Primary(s[i]) == Primary(s[j])
                   ==> !IsGraphics(s[j])
  }

  ghost predicate HasGraphics(s: seq<string>, callsign: string) {
    exists i :: 0 <= i < |s| && IsGraphics(s[i]) && Primary(s[i]) == callsign
  }

  /** Video goes below graphics, whichever attaches first; only a second graphics layer of the
      same callsign breaks that. */
  lemma AttachGraphics(s: seq<string>, name: string, newOnTop: bool)
    requires GraphicsOnTop(s)
    ensures GraphicsOnTop(Inserted(s, name, newOnTop))
            <==> !(IsGraphics(name) && HasGraphics(s, Primary(name)))
  {
    var k := InsertionPlace(s, name, newOnTop);
    var t := Inserted(s, name, newOnTop);
    InsertContents(s, k, name);
    if IsGraphics(name) && HasGraphics(s, Primary(name)) {
      var i :| 0 <= i < |s| && IsGraphics(s[i]) && Primary(s[i]) == Primary(name);
      assert k <= i;
      assert t[k] == name && t[i + 1] == s[i];
    } else {
      forall i, j | 0 <= i < j < |t| && IsSub(t[i]) && IsSub(t[j]) && Primary(t[i]) == Primary(t[j])
        ensures !IsGraphics(t[j])
      {
        var first := FirstSubOf(s, Primary(name));
        if j == k {
          assert IsSub(s[i]) && Primary(s[i]) == Primary(name);
        } else if i == k {
          assert t[j] == s[j - 1] && first <= j - 1;
          assert IsGraphics(name) || first < j - 1;
        }
      }
    }
  }

  /** Layers equal to places: the state Attached leaves behind. */
  function Numbered(t: seq<string>): Stack {
    map n | n in t :: Place(t, n)
  }

  lemma NumberedReadsBack(t: seq<string>)
    requires NoRepeats(t)
    ensures DistinctLayers(Numbered(t)) && Order(Numbered(t)) == t
  {
    var a := LayersAlong(Numbered(t), t);
    forall i | 0 <= i < |t|
      ensures a[i] == i
    {
      PlaceUnique(t, i);
    }
    AscendingReadsBack(Numbered(t), t);
  }

  // ---------------------------------------------------------------- detaching

  function WithoutPlace<T>(s: seq<T>, k: nat): seq<T>
    requires k < |s|
  {
    s[..k] + s[k + 1..]
  }

  function WithoutName(s: seq<string>, name: string): seq<string> {
    if name in s then WithoutPlace(s, Place(s, name)) else s
  }

  lemma WithoutClustered<T>(p: seq<T>, k: nat)
    requires Clustered(p) && k < |p|
    ensures Clustered(WithoutPlace(p, k))
  {
    var q := WithoutPlace(p, k);
    assert forall i {:trigger q[i]} :: 0 <= i < |q| ==> q[i] == if i < k then p[i] else p[i + 1];
  }

  lemma WithoutPlaceMembers(s: seq<string>, k: nat)
    requires k < |s| && NoRepeats(s)
    ensures forall n :: n in WithoutPlace(s, k) <==> n in s && n != s[k]
  {
    var t := WithoutPlace(s, k);
    assert forall i {:trigger t[i]} :: 0 <= i < |t| ==> t[i] == if i < k then s[i] else s[i + 1];
    forall n | n in s && n != s[k]
      ensures n in t
    {
      var i := Place(s, n);
      assert t[if i < k then i else i - 1] == n;
    }
  }

  lemma SubstackMembers(v: Stack, w: Stack, s: seq<string>, k: nat)
    requires ReadsBack(v, s) && k < |s| && w == v - {s[k]}
    ensures forall n :: n in w <==> n in WithoutPlace(s, k)
  {
    ReadsBackNoRepeats(v, s);
    WithoutPlaceMembers(s, k);
  }

  lemma SubstackReadsBack(v: Stack, w: Stack, s: seq<string>, k: nat)
    requires ReadsBack(v, s) && k < |s| && w == v - {s[k]}
    ensures ReadsBack(w, WithoutPlace(s, k))
  {
    var t := WithoutPlace(s, k);
    SubstackMembers(v, w, s, k);
    forall i, j | 0 <= i < j < |t|
      ensures Above(w, t[i], t[j])
    {
      var i', j' := if i < k then i else i + 1, if j < k then j else j + 1;
      assert t[i] == s[i'] && t[j] == s[j'];
      assert Above(v, s[i'], s[j']);
    }
  }

  lemma DetachReadsBack(v: Stack, name: string)
    ensures Order(v - {name}) == WithoutName(Order(v), name)
  {
    var s := Order(v);
    OrderReadsBack(v);
    OrderReadsBack(v - {name});
    if name in s {
      SubstackReadsBack(v, v - {name}, s, Place(s, name));
      OrderUnique(v - {name}, Order(v - {name}), WithoutPlace(s, Place(s, name)));
    } else {
      assert v - {name} == v;
    }
  }

  lemma CallsignsWithout(s: seq<string>, k: nat)
    requires k < |s|
    ensures Callsigns(WithoutPlace(s, k)) == WithoutPlace(Callsigns(s), k)
  {
    var t := WithoutPlace(s, k);
    assert forall i {:trigger t[i]} :: 0 <= i < |t| ==> t[i] == if i < k then s[i] else s[i + 1];
  }

  lemma DetachGrouped(s: seq<string>, name: string)
    requires Grouped(s)
    ensures Grouped(WithoutName(s, name))
  {
    if name in s {
      var k := Place(s, name);
      WithoutClustered(Callsigns(s), k);
      CallsignsWithout(s, k);
    }
  }

  // ---------------------------------------------------------------- moving

  lemma GroupedContiguous(s: seq<string>, callsign: string)
    requires Grouped(s)
    ensures Contiguous(s, callsign)
  {
    var p := Callsigns(s);
    var i := FirstOf(s, callsign);
    forall j, k | i <= j < k < |s| && Primary(s[k]) == callsign
      ensures Primary(s[j]) == callsign
    {
      assert p[i] == p[k] == callsign && p[j] == Primary(s[j]);
    }
  }

  lemma FirstOfCuts(s: seq<string>, callsign: string)
    requires FirstOf(s, callsign) < |s|
    ensures Cut(Callsigns(s), FirstOf(s, callsign))
  {
  }

  /** A callsign whose layers are neighbours occupies one segment. */
  lemma Segment(s: seq<string>, callsign: string) returns (past: nat)
    requires Contiguous(s, callsign) && FirstOf(s, callsign) < |s|
    ensures FirstOf(s, callsign) < past <= |s|
    ensures forall i :: 0 <= i < |s| ==> (Primary(s[i]) == callsign <==> FirstOf(s, callsign) <= i < past)
    ensures Cut(Callsigns(s), past) && Cut(Callsigns(s), FirstOf(s, callsign))
  {
    var from := FirstOf(s, callsign);
    var p := Callsigns(s);
    past := |s|;
    while p[past - 1] != callsign
      invariant from < past <= |s|
      invariant forall i :: past <= i < |s| ==> p[i] != callsign
      decreases past
    {
      past := past - 1;
    }
    forall i | from <= i < past
      ensures p[i] == callsign
    {
      assert p[past - 1] == Primary(s[past - 1]);
    }
  }

  lemma {:induction false} SplitByCallsign(s: seq<string>, callsign: string)
    ensures forall i :: 0 <= i < |LayersOf(s, callsign)| ==> Primary(LayersOf(s, callsign)[i]) == callsign
    ensures forall i :: 0 <= i < |WithoutLayersOf(s, callsign)| ==> Primary(WithoutLayersOf(s, callsign)[i]) != callsign
    ensures forall n :: n in s && Primary(n) != callsign ==> n in WithoutLayersOf(s, callsign)
    decreases |s|
  {
    if s != [] {
      SplitByCallsign(s[1..], callsign);
    }
  }

  lemma PutBackSegment(s: seq<string>, callsign: string, k: nat)
    requires k <= |WithoutLayersOf(s, callsign)|
    ensures var others, block := WithoutLayersOf(s, callsign), LayersOf(s, callsign);
            var t := others[..k] + block + others[k..];
            LayersOf(t, callsign) == block && WithoutLayersOf(t, callsign) == others
  {
    var others, block := WithoutLayersOf(s, callsign), LayersOf(s, callsign);
    var t := others[..k] + block + others[k..];
    SplitByCallsign(s, callsign);
    SegmentOf(t, callsign, k, k + |block|);
    assert t[k..k + |block|] == block && t[..k] + t[k + |block|..] == others;
  }

  /** A move changes neither the order of the callsign's own layers nor that of all the others. */
  lemma MovedKeepsOrders(s: seq<string>, relative: string, callsign: string)
    requires relative == "" || relative != callsign
    ensures LayersOf(Moved(s, relative, callsign), callsign) == LayersOf(s, callsign)
    ensures WithoutLayersOf(Moved(s, relative, callsign), callsign) == WithoutLayersOf(s, callsign)
  {
    var others, block := WithoutLayersOf(s, callsign), LayersOf(s, callsign);
    var k := if relative == "" then 0 else FirstOf(others, relative);
    var t := others[..k] + block + others[k..];
    assert LayersOf(t, callsign) == block && WithoutLayersOf(t, callsign) == others by {
      PutBackSegment(s, callsign, k);
    }
    assert relative == "" ==> t == block + others;
  }

  /** After a move the callsign's layers end directly above the topmost layer of relative. */
  lemma MovedJustBefore(s: seq<string>, relative: string, callsign: string)
    requires relative != "" && relative != callsign
    requires LayersOf(s, callsign) != [] && FirstOf(s, relative) < |s|
    ensures var t := Moved(s, relative, callsign);
            FirstOf(t, relative) < |t| && FirstOf(t, relative) == FirstOf(t, callsign) + |LayersOf(s, callsign)|
  {
    var others, block := WithoutLayersOf(s, callsign), LayersOf(s, callsign);
    SplitByCallsign(s, callsign);
    var first := s[FirstOf(s, relative)];
    assert first in others;
    var k := FirstOf(others, relative);
    assert k < |others|;
    var t := others[..k] + block + others[k..];
    assert t[k] == block[0] && t[k + |block|] == others[k];
    FirstOfUnique(t, callsign, k);
    FirstOfUnique(t, relative, k + |block|);
  }

  lemma ExchangeNothing<T>(s: seq<T>, lo: nat, mid: nat, hi: nat)
    requires lo <= mid <= hi <= |s| && (lo == mid || mid == hi)
    ensures Exchange(s, lo, mid, hi) == s
  {
    assert s == s[..lo] + s[lo..hi] + s[hi..];
  }

  lemma MovedSegments(s: seq<string>, relative: string, callsign: string) returns (lo: nat, mid: nat, hi: nat)
    requires Contiguous(s, callsign) && FirstOf(s, callsign) < |s|
    requires relative == "" || FirstOf(s, relative) < |s|
    ensures lo <= mid <= hi <= |s| && Moved(s, relative, callsign) == Exchange(s, lo, mid, hi)
    ensures relative == "" ==> lo == 0
    ensures if relative == callsign && relative != "" then forall i :: lo <= i < hi ==> Primary(s[i]) == Primary(s[lo])
            else var p := Callsigns(s); Cut(p, lo) && Cut(p, mid) && Cut(p, hi)
  {
    var from := FirstOf(s, callsign);
    var past := Segment(s, callsign);
    if relative == "" {
      MovedToTop(s, callsign, from, past);
      lo, mid, hi := 0, from, past;
    } else if relative == callsign {
      MovedBeforeItself(s, callsign, from, past);
      lo, mid, hi := from, from + 1, past;
    } else {
      var at := FirstOf(s, relative);
      FirstOfCuts(s, relative);
      if at < from {
        MovedUp(s, relative, callsign, at, from, past);
        lo, mid, hi := at, from, past;
      } else {
        MovedDown(s, relative, callsign, at, from, past);
        lo, mid, hi := from, past, at;
      }
    }
  }

  /** Moving a callsign exchanges two neighbouring segments. */
  lemma MovedShape(s: seq<string>, relative: string, callsign: string) returns (lo: nat, mid: nat, hi: nat)
    requires Contiguous(s, callsign)
    ensures lo <= mid <= hi <= |s| && Moved(s, relative, callsign) == Exchange(s, lo, mid, hi)
    ensures lo < mid < hi || Moved(s, relative, callsign) == s
    ensures relative == "" ==> lo == 0
  {
    if FirstOf(s, callsign) == |s| || (relative != "" && FirstOf(s, relative) == |s|) {
      if FirstOf(s, callsign) == |s| { NoneOf(s, callsign); }
      lo, mid, hi := 0, 0, 0;
      ExchangeNothing(s, 0, 0, 0);
    } else {
      lo, mid, hi := MovedSegments(s, relative, callsign);
      if lo == mid || mid == hi {
        ExchangeNothing(s, lo, mid, hi);
      }
    }
  }

  /** A move splits no callsign when every callsign was in one piece. */
  lemma MovedGrouped(s: seq<string>, relative: string, callsign: string)
    requires Grouped(s)
    ensures Grouped(Moved(s, relative, callsign))
  {
    GroupedContiguous(s, callsign);
    if FirstOf(s, callsign) == |s| {
      NoneOf(s, callsign);
    } else if relative == "" || FirstOf(s, relative) < |s| {
      var lo, mid, hi := MovedSegments(s, relative, callsign);
      ExchangeKeepsGroups(s, lo, mid, hi, relative == callsign && relative != "");
    }
  }

  lemma ExchangeKeepsGroups(s: seq<string>, lo: nat, mid: nat, hi: nat, inside: bool)
    requires Grouped(s) && lo <= mid <= hi <= |s|
    requires if inside then forall i :: lo <= i < hi ==> Primary(s[i]) == Primary(s[lo])
             else var p := Callsigns(s); Cut(p, lo) && Cut(p, mid) && Cut(p, hi)
    ensures Grouped(Exchange(s, lo, mid, hi))
  {
    var t := Exchange(s, lo, mid, hi);
    ExchangeSource(s, lo, mid, hi);
    if inside {
      assert Callsigns(t) == Callsigns(s);
    } else {
      ExchangeSource(Callsigns(s), lo, mid, hi);
      assert Callsigns(t) == Exchange(Callsigns(s), lo, mid, hi);
      ExchangeClustered(Callsigns(s), lo, mid, hi);
    }
  }

  // ---------------------------------------------------------------- operations and runs

  datatype Operation =
    | Attach(name: string)
    | Detach(name: string)
    | PutBefore(relative: string, callsign: string)  // ToTop is PutBefore with an empty relative

  /** The order the operation is meant to produce. */
  ghost function Intended(v: Stack, op: Operation, newOnTop: bool): seq<string> {
    match op
    case Attach(name) => Inserted(Order(v - {name}), name, newOnTop)
    case Detach(name) => WithoutName(Order(v), name)
    case PutBefore(relative, callsign) => Moved(Order(v), relative, callsign)
  }

  /** The layers stored afterwards. */
  ghost function Step(v: Stack, op: Operation, newOnTop: bool): Stack {
    match op
    case Attach(name) => Numbered(Intended(v, op, newOnTop))
    case Detach(name) => v - {name}
    case PutBefore(relative, callsign) => Renumbered(v, Order(v), Intended(v, op, newOnTop))
  }

  /** What a caller has to check before the operation. */
  ghost predicate Condition(v: Stack, op: Operation, newOnTop: bool) {
    match op
    case Attach(name) => AttachKeepsTogether(Order(v - {name}), name, newOnTop)
    case Detach(name) => true
    case PutBefore(relative, callsign) => NoGapAboveMove(v, relative, callsign)
  }

  /** Nothing moves, or the layers above the first place that changes carry no gap. */
  ghost predicate NoGapAboveMove(v: Stack, relative: string, callsign: string) {
    NoGapAbove(v, Order(v), Moved(Order(v), relative, callsign))
  }

  ghost predicate NoGapAbove(v: Stack, s: seq<string>, t: seq<string>)
    requires forall i :: 0 <= i < |s| ==> s[i] in v
  {
    && |s| == |t|
    && var lo := FirstChange(s, t);
       lo == |s| || lo == 0 || v[s[lo - 1]] == lo - 1
  }

  /** Every client has a layer of its own and every callsign's layers are neighbours. */
  ghost predicate Sound(v: Stack) {
    DistinctLayers(v) && Grouped(Order(v))
  }

  lemma InsertMembers(s: seq<string>, k: nat, x: string)
    requires NoRepeats(s) && k <= |s| && x !in s
    ensures NoRepeats(s[..k] + [x] + s[k..])
    ensures forall n :: n in s[..k] + [x] + s[k..] <==> n in s || n == x
  {
    InsertContents(s, k, x);
  }

  lemma AttachMembers(v: Stack, name: string, newOnTop: bool)
    ensures NoRepeats(Inserted(Order(v - {name}), name, newOnTop))
    ensures forall n :: n in Inserted(Order(v - {name}), name, newOnTop) <==> n in v || n == name
  {
    var s := Order(v - {name});
    OrderReadsBack(v - {name});
    ReadsBackNoRepeats(v - {name}, s);
    InsertMembers(s, InsertionPlace(s, name, newOnTop), name);
  }

  lemma AttachContents(v: Stack, rest: set<string>, name: string, newOnTop: bool)
    requires rest == v.Keys - {name}
    ensures var t := Intended(v, Attach(name), newOnTop);
            NoRepeats(t) && (forall n :: n in t <==> n in rest || n == name) && |t| == |rest| + 1
  {
    AttachMembers(v, name, newOnTop);
    NoRepeatsSize(Intended(v, Attach(name), newOnTop), rest + {name});
  }

  lemma FirstChangeIs(s: seq<string>, t: seq<string>, lo: nat)
    requires |s| == |t| && lo < |s| && s[lo] != t[lo]
    requires forall i :: 0 <= i < lo ==> s[i] == t[i]
    ensures FirstChange(s, t) == lo
  {
  }

  lemma NoGapAt(v: Stack, s: seq<string>, t: seq<string>, lo: nat)
    requires |s| == |t| && lo < |s| && s[lo] != t[lo] && forall i :: 0 <= i < lo ==> s[i] == t[i]
    requires forall i :: 0 <= i < |s| ==> s[i] in v
    ensures NoGapAbove(v, s, t) <==> lo == 0 || v[s[lo - 1]] == lo - 1
  {
    FirstChangeIs(s, t, lo);
  }

  lemma RewriteExact(v: Stack, w: Stack, s: seq<string>, t: seq<string>, lo: nat, hi: nat)
    requires DistinctLayers(v) && s == Order(v) && |s| == |t| && lo < hi <= |s| && s[lo] != t[lo]
    requires forall n :: n in s <==> n in t
    requires forall i :: 0 <= i < lo || hi <= i < |s| ==> t[i] == s[i]
    requires Rewritten(v, w, t, lo, hi)
    ensures DistinctLayers(w) && Order(w) == t <==> NoGapAbove(v, s, t)
  {
    assert forall i :: 0 <= i < |s| ==> s[i] in s;
    NoGapAt(v, s, t, lo);
    RearrangedReadsBack(v, w, s, t, lo, hi);
  }

  lemma RewriteNothing(v: Stack)
    ensures Renumbered(v, Order(v), Order(v)) == v && NoGapAbove(v, Order(v), Order(v))
  {
  }

  /** The partial rewrite of PutBefore achieves the move if and only if there is no gap above it. */
  lemma PutBeforeExact(v: Stack, relative: string, callsign: string)
    requires DistinctLayers(v) && Contiguous(Order(v), callsign)
    ensures var s := Order(v);
            var t := Moved(s, relative, callsign);
            DistinctLayers(Renumbered(v, s, t)) && Order(Renumbered(v, s, t)) == t <==> NoGapAboveMove(v, relative, callsign)
  {
    var s := Order(v);
    var t := Moved(s, relative, callsign);
    var lo, mid, hi := MovedShape(s, relative, callsign);
    OrderReadsBack(v);
    ReadsBackNoRepeats(v, s);
    if lo < mid < hi {
      ExchangeRearranges(s, lo, mid, hi);
      RearrangedLayers(v, s, t, lo, hi);
      RewriteExact(v, Renumbered(v, s, t), s, t, lo, hi);
    } else {
      RewriteNothing(v);
    }
  }

  /** One operation leaves a sound stack in the intended order if and only if its condition held. */
  lemma StepExact(v: Stack, op: Operation, newOnTop: bool)
    requires Sound(v)
    ensures var w := Step(v, op, newOnTop);
            Sound(w) && Order(w) == Intended(v, op, newOnTop) <==> Condition(v, op, newOnTop)
  {
    match op
    case Attach(name) =>
      DetachReadsBack(v, name);
      DetachGrouped(Order(v), name);
      AttachMembers(v, name, newOnTop);
      NumberedReadsBack(Intended(v, op, newOnTop));
      AttachTogether(Order(v - {name}), name, newOnTop);
    case Detach(name) =>
      DetachReadsBack(v, name);
      DetachGrouped(Order(v), name);
    case PutBefore(relative, callsign) =>
      GroupedContiguous(Order(v), callsign);
      MovedGrouped(Order(v), relative, callsign);
      PutBeforeExact(v, relative, callsign);
  }

  /** Raising a callsign to the top never needs a condition: nothing lies above the rewritten part. */
  lemma ToTopAlways(v: Stack, callsign: string, newOnTop: bool)
    requires DistinctLayers(v) && Contiguous(Order(v), callsign)
    ensures Condition(v, PutBefore("", callsign), newOnTop)
  {
    var s := Order(v);
    var lo, mid, hi := MovedShape(s, "", callsign);
    OrderReadsBack(v);
    ReadsBackNoRepeats(v, s);
    if lo < mid < hi {
      ExchangeRearranges(s, lo, mid, hi);
    }
  }

  /** The layers are exactly the places 0, 1, 2, ... */
  ghost predicate GapFree(v: Stack) {
    forall i :: 0 <= i < |Order(v)| ==> v[Order(v)[i]] == i
  }

  lemma GapFreeAttach(v: Stack, name: string, newOnTop: bool)
    ensures GapFree(Step(v, Attach(name), newOnTop))
  {
    var t := Intended(v, Attach(name), newOnTop);
    AttachMembers(v, name, newOnTop);
    NumberedReadsBack(t);
    forall i | 0 <= i < |t| ensures Numbered(t)[t[i]] == i { PlaceUnique(t, i); }
  }

  lemma GapFreeRewrite(v: Stack, w: Stack, s: seq<string>, t: seq<string>, lo: nat, hi: nat)
    requires |s| == |t| && lo < hi <= |s| && s[lo] != t[lo]
    requires forall i :: 0 <= i < lo || hi <= i < |s| ==> t[i] == s[i]
    requires forall i :: 0 <= i < |s| ==> s[i] in v && v[s[i]] == i
    requires Rewritten(v, w, t, lo, hi) && (NoGapAbove(v, s, t) ==> Order(w) == t)
    ensures NoGapAbove(v, s, t) && GapFree(w)
  {
    FirstChangeIs(s, t, lo);
  }

  lemma GapFreeExchange(v: Stack, w: Stack, s: seq<string>, t: seq<string>, lo: nat, hi: nat)
    requires DistinctLayers(v) && s == Order(v) && Rearranged(s, t, lo, hi) && Rewritten(v, w, t, lo, hi)
    requires forall i :: 0 <= i < |s| ==> s[i] in v && v[s[i]] == i
    ensures NoGapAbove(v, s, t) && GapFree(w)
  {
    RewriteExact(v, w, s, t, lo, hi);
    GapFreeRewrite(v, w, s, t, lo, hi);
  }

  lemma GapFreeRewrites(v: Stack, t: seq<string>, lo: nat, mid: nat, hi: nat)
    requires DistinctLayers(v) && GapFree(v) && lo < mid < hi <= |Order(v)| && t == Exchange(Order(v), lo, mid, hi)
    ensures NoGapAbove(v, Order(v), t) && GapFree(Renumbered(v, Order(v), t))
  {
    var s := Order(v);
    assert forall i :: 0 <= i < |s| ==> s[i] in v && v[s[i]] == i;
    ReadsBackNoRepeats(v, s);
    ExchangeRearranges(s, lo, mid, hi);
    RearrangedLayers(v, s, t, lo, hi);
    GapFreeExchange(v, Renumbered(v, s, t), s, t, lo, hi);
  }

  lemma GapFreeStays(v: Stack, t: seq<string>)
    requires GapFree(v) && t == Order(v)
    ensures NoGapAbove(v, Order(v), t) && GapFree(Renumbered(v, Order(v), t))
  {
    RewriteNothing(v);
  }

  lemma GapFreeMoved(v: Stack, relative: string, callsign: string, t: seq<string>)
    requires DistinctLayers(v) && GapFree(v) && Contiguous(Order(v), callsign) && t == Moved(Order(v), relative, callsign)
    ensures NoGapAbove(v, Order(v), t) && GapFree(Renumbered(v, Order(v), t))
  {
    var lo, mid, hi := MovedShape(Order(v), relative, callsign);
    if lo < mid < hi {
      GapFreeRewrites(v, t, lo, mid, hi);
    } else {
      GapFreeStays(v, t);
    }
  }

  /** Without gaps every move is allowed and leaves no gap. */
  lemma GapFreeMove(v: Stack, relative: string, callsign: string, newOnTop: bool)
    requires DistinctLayers(v) && GapFree(v) && Contiguous(Order(v), callsign)
    ensures Condition(v, PutBefore(relative, callsign), newOnTop)
    ensures GapFree(Step(v, PutBefore(relative, callsign), newOnTop))
  {
    GapFreeMoved(v, relative, callsign, Moved(Order(v), relative, callsign));
  }

  ghost function Run(v: Stack, ops: seq<Operation>, newOnTop: bool): Stack
    decreases |ops|
  {
    if ops == [] then v else Run(Step(v, ops[0], newOnTop), ops[1..], newOnTop)
  }

  /** Every operation of the run met its condition at the moment it was called. */
  ghost predicate Guarded(v: Stack, ops: seq<Operation>, newOnTop: bool)
    decreases |ops|
  {
    ops == [] || (Condition(v, ops[0], newOnTop) && Guarded(Step(v, ops[0], newOnTop), ops[1..], newOnTop))
  }

  /** After every operation of the run the stack is sound and reads back in the intended order. */
  ghost predicate Behaves(v: Stack, ops: seq<Operation>, newOnTop: bool)
    decreases |ops|
  {
    ops == [] || (var w := Step(v, ops[0], newOnTop);
                  Sound(w) && Order(w) == Intended(v, ops[0], newOnTop) && Behaves(w, ops[1..], newOnTop))
  }

  /** Over whole runs, in any mix of operations, the compositor behaves exactly as long as every
      attach and every move meets its condition. */
  lemma {:induction false} RunExact(v: Stack, ops: seq<Operation>, newOnTop: bool)
    requires Sound(v)
    ensures Behaves(v, ops, newOnTop) <==> Guarded(v, ops, newOnTop)
    ensures Guarded(v, ops, newOnTop) ==> Sound(Run(v, ops, newOnTop))
    decreases |ops|
  {
    if ops != [] {
      StepExact(v, ops[0], newOnTop);
      if Condition(v, ops[0], newOnTop) {
        RunExact(Step(v, ops[0], newOnTop), ops[1..], newOnTop);
      }
    }
  }
}
