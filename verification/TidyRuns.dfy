// A discipline of calls, readable from the calls alone, under which the compositor always behaves.
module TidyRuns {
  import opened Names
  import opened ZOrder
  import opened ZOrderRuns

  function AttachedNames(ops: seq<Operation>): set<string> {
    if ops == [] then {}
    else (if ops[0].Attach? then {ops[0].name} else {}) + AttachedNames(ops[1..])
  }

  /** No callsign is attached both by its bare name and by sub screens. */
  ghost predicate Unmixed(names: set<string>) {
    forall a, b | a in names && b in names && Primary(a) == Primary(b) :: IsSub(a) <==> IsSub(b)
  }

  /** No client is put before another one between a detach and the next attach; gap tells whether a detach
      came last. Raising to the top is always allowed. */
  predicate MovesWithoutGap(gap: bool, ops: seq<Operation>)
    decreases |ops|
  {
    if ops == [] then true
    else
      match ops[0]
      case Attach(_) => MovesWithoutGap(false, ops[1..])
      case Detach(_) => MovesWithoutGap(true, ops[1..])
      case PutBefore(relative, _) => (relative == "" || !gap) && MovesWithoutGap(gap, ops[1..])
  }

  /** Without mixed names attaching always finds a sub screen to join, or a callsign that is not there yet. */
  lemma UnmixedAttach(v: Stack, name: string, newOnTop: bool)
    requires Unmixed(v.Keys + {name})
    ensures Condition(v, Attach(name), newOnTop)
  {
    var s := Order(v - {name});
    if Primary(name) in Callsigns(s) {
      var i :| 0 <= i < |s| && Callsigns(s)[i] == Primary(name);
      assert s[i] in s;
      SiblingIsSub(v.Keys + {name}, s[i], name);
      FirstSubAtMost(s, Primary(name), i);
    }
  }

  lemma SiblingIsSub(names: set<string>, other: string, name: string)
    requires Unmixed(names) && other in names && name in names && other != name && Primary(other) == Primary(name)
    ensures IsSub(other) && IsSub(name)
  {
  }

  lemma FirstSubAtMost(s: seq<string>, callsign: string, i: nat)
    requires i < |s| && IsSub(s[i]) && Primary(s[i]) == callsign
    ensures FirstSubOf(s, callsign) <= i
  {
  }

  lemma StepNames(v: Stack, op: Operation, newOnTop: bool)
    ensures Step(v, op, newOnTop).Keys <= v.Keys + if op.Attach? then {op.name} else {}
  {
    if op.Attach? {
      AttachMembers(v, op.name, newOnTop);
    }
  }

  lemma ConditionMet(v: Stack, op: Operation, gap: bool, newOnTop: bool)
    requires Sound(v) && (!gap ==> GapFree(v))
    requires op.Attach? ==> Unmixed(v.Keys + {op.name})
    requires op.PutBefore? ==> op.relative == "" || !gap
    ensures Condition(v, op, newOnTop)
  {
    match op
    case Attach(name) => UnmixedAttach(v, name, newOnTop);
    case Detach(name) =>
    case PutBefore(relative, callsign) =>
      GroupedContiguous(Order(v), callsign);
      if relative == "" {
        ToTopAlways(v, callsign, newOnTop);
      } else {
        GapFreeMove(v, relative, callsign, newOnTop);
      }
  }

  /** Whether a gap can be there after an operation. */
  function GapAfter(gap: bool, op: Operation): bool {
    match op case Attach(_) => false case Detach(_) => true case PutBefore(_, _) => gap
  }

  lemma GapKept(v: Stack, op: Operation, gap: bool, newOnTop: bool)
    requires Sound(v) && (!gap ==> GapFree(v))
    ensures !GapAfter(gap, op) ==> GapFree(Step(v, op, newOnTop))
  {
    match op
    case Attach(name) => GapFreeAttach(v, name, newOnTop);
    case Detach(name) =>
    case PutBefore(relative, callsign) =>
      if !gap {
        GroupedContiguous(Order(v), callsign);
        GapFreeMove(v, relative, callsign, newOnTop);
      }
  }

  lemma UnmixedFewer(names: set<string>, fewer: set<string>)
    requires Unmixed(names) && fewer <= names
    ensures Unmixed(fewer)
  {
  }

  lemma {:induction false} TidyGuarded(v: Stack, ops: seq<Operation>, gap: bool, newOnTop: bool)
    requires Sound(v) && (!gap ==> GapFree(v))
    requires Unmixed(v.Keys + AttachedNames(ops)) && MovesWithoutGap(gap, ops)
    ensures Guarded(v, ops, newOnTop)
    decreases |ops|
  {
    if ops != [] {
      var op, rest, w := ops[0], ops[1..], Step(v, ops[0], newOnTop);
      StepNames(v, op, newOnTop);
      if op.Attach? {
        UnmixedFewer(v.Keys + AttachedNames(ops), v.Keys + {op.name});
      }
      ConditionMet(v, op, gap, newOnTop);
      StepExact(v, op, newOnTop);
      GapKept(v, op, gap, newOnTop);
      UnmixedFewer(v.Keys + AttachedNames(ops), w.Keys + AttachedNames(rest));
      TidyGuarded(w, rest, GapAfter(gap, op), newOnTop);
    }
  }

  lemma NothingAttached()
    ensures Sound(map[]) && GapFree(map[])
  {
    assert ReadsBack(map[], []);
    OrderUnique(map[], Order(map[]), []);
  }

  /** From an empty compositor: as long as names are not mixed and moves keep away from gaps, every
      operation does what it is meant to, and no callsign is ever split. */
  lemma TidyBehaves(ops: seq<Operation>, newOnTop: bool)
    requires Unmixed(AttachedNames(ops)) && MovesWithoutGap(false, ops)
    ensures Behaves(map[], ops, newOnTop) && Sound(Run(map[], ops, newOnTop))
  {
    NothingAttached();
    var empty: Stack := map[];
    assert empty.Keys + AttachedNames(ops) == AttachedNames(ops);
    TidyGuarded(empty, ops, false, newOnTop);
    RunExact(empty, ops, newOnTop);
  }
}
