// The command sequencer as a machine that moves from one release of its lock to the next: callers load,
// start and abort, and a worker executes steps outside the lock and jumps where their results say.
module SequencerRuns {

  datatype Command = Command(tag: string, item: string, parameters: string)

  datatype State = IDLE | LOADED | RUNNING | ABORTING

  /** Where the worker is: not at work, or executing a step with the lock released. */
  datatype Worker = Away | Executing(step: nat)

  datatype Machine = Machine(state: State, current: nat, steps: seq<Command>, worker: Worker)

  const START: Machine := Machine(IDLE, 0, [], Away)

  predicate Active(s: State) {
    s == RUNNING || s == ABORTING
  }

  // ---------------------------------------------------------------- jumps

  /** First step at or after i with the tag, or the number of steps. */
  function FirstFrom(steps: seq<Command>, i: nat, tag: string): (k: nat)
    requires i <= |steps|
    ensures i <= k <= |steps|
    decreases |steps| - i
  {
    if i == |steps| || steps[i].tag == tag then i else FirstFrom(steps, i + 1, tag)
  }

  /** One more than the last step before i with the tag, or zero. */
  function LastBefore(steps: seq<Command>, i: nat, tag: string): (k: nat)
    requires i <= |steps|
    ensures k <= i
  {
    if i == 0 || steps[i - 1].tag == tag then i else LastBefore(steps, i - 1, tag)
  }

  /** The step after step c returned a label. */
  function Target(steps: seq<Command>, c: nat, tag: string): (n: nat)
    requires c < |steps|
    ensures n <= |steps|
  {
    if tag == "" then c + 1
    else
      var ahead := FirstFrom(steps, c + 1, tag);
      if ahead < |steps| then ahead
      else
        var back := LastBefore(steps, c + 1, tag);
        if back > 0 then back - 1 else c + 1
  }

  predicate Labelled(steps: seq<Command>, k: int, tag: string) {
    0 <= k < |steps| && steps[k].tag == tag
  }

  lemma {:induction false} FirstFromIsFirst(steps: seq<Command>, i: nat, tag: string)
    requires i <= |steps|
    ensures var k := FirstFrom(steps, i, tag);
            (k < |steps| ==> Labelled(steps, k, tag)) && (forall j :: i <= j < k ==> !Labelled(steps, j, tag))
    decreases |steps| - i
  {
    if i < |steps| && steps[i].tag != tag {
      FirstFromIsFirst(steps, i + 1, tag);
    }
  }

  lemma {:induction false} LastBeforeIsLast(steps: seq<Command>, i: nat, tag: string)
    requires i <= |steps|
    ensures var k := LastBefore(steps, i, tag);
            (k > 0 ==> Labelled(steps, k - 1, tag)) && (forall j :: k <= j < i ==> !Labelled(steps, j, tag))
  {
    if i > 0 && steps[i - 1].tag != tag {
      LastBeforeIsLast(steps, i - 1, tag);
    }
  }

  /** The jump language: the nearest later step with the label; else the nearest one at or before this
      step; else the next step. An empty label is no jump. */
  lemma JumpsToNearest(steps: seq<Command>, c: nat, tag: string, n: nat)
    requires c < |steps|
    ensures n == Target(steps, c, tag) <==>
            if tag == "" then n == c + 1
            else if exists k :: c < k && Labelled(steps, k, tag) then
              c < n && Labelled(steps, n, tag) && forall j :: c < j < n ==> !Labelled(steps, j, tag)
            else if exists k :: k <= c && Labelled(steps, k, tag) then
              n <= c && Labelled(steps, n, tag) && forall j :: n < j <= c ==> !Labelled(steps, j, tag)
            else n == c + 1
  {
    FirstFromIsFirst(steps, c + 1, tag);
    LastBeforeIsLast(steps, c + 1, tag);
  }

  // ---------------------------------------------------------------- atomic steps

  datatype Event =
    | Load(commands: seq<Command>, known: set<string>)  // with the command classes the factory can make
    | Execute
    | Abort
    | Begin                   // the worker takes the job up
    | Return(tag: string)   // the step being executed comes back

  /** The commands the factory can make. */
  function Made(commands: seq<Command>, known: set<string>): seq<Command> {
    if commands == [] then []
    else (if commands[0].item in known then [commands[0]] else []) + Made(commands[1..], known)
  }

  /** There is one worker, and only a step being executed can return. */
  predicate Enabled(m: Machine, e: Event) {
    (e.Begin? ==> m.worker.Away?) && (e.Return? ==> m.worker.Executing? && m.current < |m.steps|)
  }

  /** The loop's condition: execute the current step, or finish. */
  function Proceed(m: Machine): Machine {
    if m.current < |m.steps| && m.state == RUNNING then m.(worker := Executing(m.current))
    else m.(state := IDLE, steps := [], worker := Away)
  }

  function Next(m: Machine, e: Event): Machine
    requires Enabled(m, e)
  {
    match e
    case Load(commands, known) =>
      if Active(m.state) then m
      else
        var made := Made(commands, known);
        if made == [] then m.(steps := []) else m.(steps := made, state := LOADED, current := 0)
    case Execute => if m.state == LOADED then m.(state := RUNNING) else m
    case Abort => if m.state == RUNNING then m.(state := ABORTING) else m
    case Begin => Proceed(m)
    case Return(tag) => Proceed(m.(current := Target(m.steps, m.current, tag)))
  }

  /** What the code asserts or takes for granted: nothing is loaded over an active sequence, Abort finds
      the current step it tells, and a worker that finishes was active. */
  predicate Safe(m: Machine, e: Event)
    requires Enabled(m, e)
  {
    && (e.Load? ==> !Active(m.state))
    && (e.Abort? && m.state == RUNNING ==> m.current < |m.steps|)
    && ((e.Begin? || e.Return?) && Next(m, e).state == IDLE ==> Active(m.state))
  }

  // ---------------------------------------------------------------- the invariant

  predicate Good(m: Machine) {
    && (m.state == IDLE ==> m.steps == [])
    && (m.state == LOADED ==> m.current == 0)
    && (m.state != IDLE ==> m.current < |m.steps|)
    && (m.worker.Executing? ==> Active(m.state) && m.worker.step == m.current)
  }

  /** A load of nothing in place of a loaded sequence. */
  predicate Empties(m: Machine, e: Event) {
    e.Load? && m.state == LOADED && Made(e.commands, e.known) == []
  }

  /** Only emptying a loaded sequence breaks the invariant. */
  lemma GoodExact(m: Machine, e: Event)
    requires Good(m) && Enabled(m, e)
    ensures Good(Next(m, e)) <==> !Empties(m, e)
  {
  }

  /** What an empty load leaves in place of a loaded sequence, before and after it is started. */
  predicate Hollow(m: Machine) {
    m.state != IDLE && m.steps == [] && m.current == 0 && m.worker.Away?
  }

  /** Every machine that a new one can become. */
  predicate Reached(m: Machine) {
    Good(m) || Hollow(m)
  }

  lemma ReachedKept(m: Machine, e: Event)
    requires Reached(m) && Enabled(m, e)
    ensures Reached(Next(m, e))
  {
  }

  /** A load while a sequence is active. */
  predicate LoadsBusy(m: Machine, e: Event) {
    e.Load? && Active(m.state)
  }

  /** An abort of a running sequence without steps. */
  predicate AbortsNothing(m: Machine, e: Event) {
    e.Abort? && m.state == RUNNING && m.steps == []
  }

  /** A worker that starts with nothing to run. */
  predicate BeginsIdle(m: Machine, e: Event) {
    e.Begin? && !Active(m.state)
  }

  /** One event is safe exactly when it is none of these. */
  lemma SafeExact(m: Machine, e: Event)
    requires Reached(m) && Enabled(m, e)
    ensures Safe(m, e) <==> !LoadsBusy(m, e) && !AbortsNothing(m, e) && !BeginsIdle(m, e)
  {
  }

  /** A loaded sequence is started although it was emptied. */
  predicate StartsNothing(m: Machine, e: Event) {
    e.Execute? && m.state == LOADED && m.steps == []
  }

  /** An active machine has a current step. */
  predicate HasStep(m: Machine) {
    Active(m.state) ==> m.current < |m.steps|
  }

  lemma HasStepExact(m: Machine, e: Event)
    requires Reached(m) && HasStep(m) && Enabled(m, e)
    ensures HasStep(Next(m, e)) <==> !StartsNothing(m, e)
  {
  }

  /** A sequence being executed stays as loaded until the worker finishes it. */
  lemma StepsFrozen(m: Machine, e: Event)
    requires Good(m) && Enabled(m, e) && Active(m.state)
    ensures var n := Next(m, e);
            (Active(n.state) && n.steps == m.steps) || (n.state == IDLE && n.steps == [] && n.worker.Away?)
  {
  }

  // ---------------------------------------------------------------- runs

  /** Every event was possible when it came. */
  predicate Possible(m: Machine, es: seq<Event>)
    decreases |es|
  {
    es != [] ==> Enabled(m, es[0]) && Possible(Next(m, es[0]), es[1..])
  }

  function Run(m: Machine, es: seq<Event>): Machine
    requires Possible(m, es)
    decreases |es|
  {
    if es == [] then m else Run(Next(m, es[0]), es[1..])
  }

  /** The machine is good at every lock-free point of the run. */
  predicate AlwaysGood(m: Machine, es: seq<Event>)
    requires Possible(m, es)
    decreases |es|
  {
    Good(m) && (es != [] ==> AlwaysGood(Next(m, es[0]), es[1..]))
  }

  /** Some event of the run empties a loaded sequence. */
  predicate SomeEmpties(m: Machine, es: seq<Event>)
    requires Possible(m, es)
    decreases |es|
  {
    es != [] && (Empties(m, es[0]) || SomeEmpties(Next(m, es[0]), es[1..]))
  }

  predicate AllSafe(m: Machine, es: seq<Event>)
    requires Possible(m, es)
    decreases |es|
  {
    es != [] ==> Safe(m, es[0]) && AllSafe(Next(m, es[0]), es[1..])
  }

  /** Some event of the run is one that goes wrong. */
  predicate SomeWrong(m: Machine, es: seq<Event>)
    requires Possible(m, es)
    decreases |es|
  {
    es != [] &&
    (LoadsBusy(m, es[0]) || AbortsNothing(m, es[0]) || BeginsIdle(m, es[0]) || SomeWrong(Next(m, es[0]), es[1..]))
  }

  predicate AlwaysHasStep(m: Machine, es: seq<Event>)
    requires Possible(m, es)
    decreases |es|
  {
    HasStep(m) && (es != [] ==> AlwaysHasStep(Next(m, es[0]), es[1..]))
  }

  predicate SomeStartsNothing(m: Machine, es: seq<Event>)
    requires Possible(m, es)
    decreases |es|
  {
    es != [] && (StartsNothing(m, es[0]) || SomeStartsNothing(Next(m, es[0]), es[1..]))
  }

  /** Every interleaving: a sequence is loaded or active only with a current step, exactly when no load
      empties a loaded sequence. */
  lemma {:induction false} RunGoodExact(m: Machine, es: seq<Event>)
    requires Good(m) && Possible(m, es)
    ensures AlwaysGood(m, es) <==> !SomeEmpties(m, es)
    decreases |es|
  {
    if es != [] {
      GoodExact(m, es[0]);
      if !Empties(m, es[0]) {
        RunGoodExact(Next(m, es[0]), es[1..]);
      }
    }
  }

  /** Every interleaving: no access goes out of range and every assertion holds, exactly when nothing is
      loaded over an active sequence, no running sequence without steps is aborted, and no worker starts with
      nothing to run. */
  lemma {:induction false} RunSafeExact(m: Machine, es: seq<Event>)
    requires Reached(m) && Possible(m, es)
    ensures AllSafe(m, es) <==> !SomeWrong(m, es)
    decreases |es|
  {
    if es != [] {
      SafeExact(m, es[0]);
      ReachedKept(m, es[0]);
      RunSafeExact(Next(m, es[0]), es[1..]);
    }
  }

  /** Every interleaving: an active machine has a current step at every lock-free point, exactly when no
      emptied sequence is started. */
  lemma {:induction false} RunHasStepExact(m: Machine, es: seq<Event>)
    requires Reached(m) && HasStep(m) && Possible(m, es)
    ensures AlwaysHasStep(m, es) <==> !SomeStartsNothing(m, es)
    decreases |es|
  {
    if es != [] {
      HasStepExact(m, es[0]);
      ReachedKept(m, es[0]);
      if !StartsNothing(m, es[0]) {
        RunHasStepExact(Next(m, es[0]), es[1..]);
      }
    }
  }

  /** In runs that always have a step only these calls go wrong: no access is out of range. */
  lemma {:induction false} HasStepCalls(m: Machine, es: seq<Event>)
    requires Possible(m, es) && AlwaysHasStep(m, es)
    ensures SomeWrong(m, es) <==> SomeWrongCall(m, es)
    decreases |es|
  {
    if es != [] {
      HasStepCalls(Next(m, es[0]), es[1..]);
    }
  }

  /** Some load comes while a sequence is active, or some worker starts with nothing to run. */
  predicate SomeWrongCall(m: Machine, es: seq<Event>)
    requires Possible(m, es)
    decreases |es|
  {
    es != [] && (LoadsBusy(m, es[0]) || BeginsIdle(m, es[0]) || SomeWrongCall(Next(m, es[0]), es[1..]))
  }

  /** Loading, emptying, executing and aborting: Abort looks for a step that is not there. */
  lemma EmptiedLoadUnsafe()
    ensures var load := Load([Command("a", "x", "")], {"x"});
            var es := [load, Load([], {}), Execute, Abort];
            Possible(START, es) && !AllSafe(START, es) && SomeStartsNothing(START, es) && !SomeWrongCall(START, es)
  {
    var load := Load([Command("a", "x", "")], {"x"});
    assert Made(load.commands[1..], load.known) == [];
    var m1 := Next(START, load);
    assert m1.state == LOADED;
    var m2 := Next(m1, Load([], {}));
    var m3 := Next(m2, Execute);
    var es3, es2, es1 := [Abort], [Execute, Abort], [Load([], {}), Execute, Abort];
    var es := [load] + es1;
    assert es3[1..] == [] && es2[1..] == es3 && es1[1..] == es2 && es[1..] == es1;
    assert m3.state == RUNNING && !Safe(m3, Abort);
    assert Possible(m3, es3) && !AllSafe(m3, es3) && !SomeWrongCall(m3, es3);
    assert Possible(m2, es2) && !AllSafe(m2, es2) && !SomeWrongCall(m2, es2) && SomeStartsNothing(m2, es2);
    assert Possible(m1, es1) && !AllSafe(m1, es1) && !SomeWrongCall(m1, es1) && SomeStartsNothing(m1, es1);
    assert es == [load, Load([], {}), Execute, Abort];
  }

  /** Two requests that both found the sequencer idle: the second one loads over an active sequence. */
  lemma BusyLoadUnsafe(commands: seq<Command>, known: set<string>)
    ensures var es := [Load([Command("a", "x", "")], {"x"}), Execute, Load(commands, known)];
            Possible(START, es) && !AllSafe(START, es)
  {
    var load := Load([Command("a", "x", "")], {"x"});
    assert Made(load.commands[1..], load.known) == [];
    var m1 := Next(START, load);
    var m2 := Next(m1, Execute);
    var es2, es1 := [Load(commands, known)], [Execute, Load(commands, known)];
    var es := [load] + es1;
    assert es2[1..] == [] && es1[1..] == es2 && es[1..] == es1;
    assert m2.state == RUNNING && !Safe(m2, es2[0]);
    assert Possible(m2, es2) && !AllSafe(m2, es2);
    assert Possible(m1, es1) && !AllSafe(m1, es1);
    assert es == [load, Execute, Load(commands, known)];
  }

  /** A request without a valid command: nothing starts, and the worker finds nothing to run. */
  lemma IdleBeginUnsafe()
    ensures var es := [Load([], {}), Execute, Begin]; Possible(START, es) && !AllSafe(START, es)
  {
    var m1 := Next(START, Load([], {}));
    var m2 := Next(m1, Execute);
    var es2, es1 := [Begin], [Execute, Begin];
    var es := [Load([], {})] + es1;
    assert es2[1..] == [] && es1[1..] == es2 && es[1..] == es1;
    assert Possible(m2, es2) && !AllSafe(m2, es2);
    assert Possible(m1, es1) && !AllSafe(m1, es1);
    assert es == [Load([], {}), Execute, Begin];
  }

  // ---------------------------------------------------------------- what a sequence executes

  /** The steps a program executes from step c on, given what they return. */
  function Trace(steps: seq<Command>, c: nat, results: seq<string>): seq<nat>
    decreases |results|
  {
    if c >= |steps| then []
    else if results == [] then [c]
    else [c] + Trace(steps, Target(steps, c, results[0]), results[1..])
  }

  /** What the steps return before the first abort. */
  function Heard(es: seq<Event>): seq<string> {
    if es == [] || es[0].Abort? then []
    else (if es[0].Return? then [es[0].tag] else []) + Heard(es[1..])
  }

  /** The steps executed until the worker finishes. */
  function Executed(m: Machine, es: seq<Event>): seq<nat>
    requires Possible(m, es)
    decreases |es|
  {
    if m.worker.Away? then []
    else if es == [] then [m.worker.step]
    else (if es[0].Return? then [m.worker.step] else []) + Executed(Next(m, es[0]), es[1..])
  }

  lemma {:induction false} AbortedExecutesOne(m: Machine, es: seq<Event>)
    requires Good(m) && Possible(m, es) && m.state == ABORTING && m.worker.Executing?
    ensures Executed(m, es) == [m.current]
    decreases |es|
  {
    if es != [] {
      if es[0].Return? {
        assert Next(m, es[0]).worker.Away?;
      } else {
        AbortedExecutesOne(Next(m, es[0]), es[1..]);
      }
    }
  }

  /** Whatever callers do meanwhile, a running sequence executes the steps its jumps lead to, up to the
      step that is aborted. */
  lemma {:induction false} ExecutesTrace(m: Machine, es: seq<Event>)
    requires Good(m) && Possible(m, es) && m.state == RUNNING && m.worker.Executing?
    ensures Executed(m, es) == Trace(m.steps, m.current, Heard(es))
    decreases |es|
  {
    if es != [] {
      var n := Next(m, es[0]);
      if es[0].Abort? {
        AbortedExecutesOne(n, es[1..]);
      } else if es[0].Return? {
        var target := Target(m.steps, m.current, es[0].tag);
        assert Heard(es) == [es[0].tag] + Heard(es[1..]);
        assert Heard(es)[1..] == Heard(es[1..]);
        if target < |m.steps| {
          ExecutesTrace(n, es[1..]);
        } else {
          assert n.worker.Away?;
        }
      } else {
        assert n == m;
        assert Heard(es) == Heard(es[1..]);
        ExecutesTrace(n, es[1..]);
      }
    }
  }

  /** No result leads back. */
  predicate Forward(steps: seq<Command>, c: nat, results: seq<string>)
    decreases |results|
  {
    c < |steps| && results != [] ==>
      var n := Target(steps, c, results[0]);
      c < n && Forward(steps, n, results[1..])
  }

  /** Without jumps back a sequence executes every step at most once, in order. */
  lemma {:induction false} ForwardOnce(steps: seq<Command>, c: nat, results: seq<string>)
    requires Forward(steps, c, results)
    ensures var t := Trace(steps, c, results);
            && (forall i, j :: 0 <= i < j < |t| ==> t[i] < t[j])
            && (forall i :: 0 <= i < |t| ==> c <= t[i] < |steps|)
            && |t| <= if c < |steps| then |steps| - c else 0
    decreases |results|
  {
    if c < |steps| && results != [] {
      ForwardOnce(steps, Target(steps, c, results[0]), results[1..]);
    }
  }

  /** A result leads back exactly when no later step has its label and this one or an earlier one has. */
  lemma LeadsBack(steps: seq<Command>, c: nat, tag: string)
    requires c < |steps|
    ensures Target(steps, c, tag) <= c <==>
            && tag != "" && (exists k :: k <= c && Labelled(steps, k, tag))
            && !exists k :: c < k && Labelled(steps, k, tag)
  {
    FirstFromIsFirst(steps, c + 1, tag);
    LastBeforeIsLast(steps, c + 1, tag);
  }

  // ---------------------------------------------------------------- what a load makes of its commands

  lemma {:induction false} MadeConcat(a: seq<Command>, b: seq<Command>, known: set<string>)
    ensures Made(a + b, known) == Made(a, known) + Made(b, known)
    decreases |a|
  {
    if a == [] {
      assert a + b == b;
    } else {
      assert (a + b)[1..] == a[1..] + b;
      MadeConcat(a[1..], b, known);
    }
  }

  lemma MadeOne(c: Command, known: set<string>)
    ensures Made([c], known) == if c.item in known then [c] else []
  {
    assert [c][1..] == [] && Made([], known) == [];
  }

  lemma {:induction false} MadeAll(commands: seq<Command>, known: set<string>)
    requires forall i :: 0 <= i < |commands| ==> commands[i].item in known
    ensures Made(commands, known) == commands
    decreases |commands|
  {
    if commands != [] {
      MadeAll(commands[1..], known);
      assert [commands[0]] + commands[1..] == commands;
    }
  }

  /** Commands that can all be made are loaded as they are, ready to be started at the first. */
  lemma LoadsAll(m: Machine, commands: seq<Command>, known: set<string>)
    requires !Active(m.state) && commands != [] && forall i :: 0 <= i < |commands| ==> commands[i].item in known
    ensures Next(m, Load(commands, known)) == m.(steps := commands, state := LOADED, current := 0)
  {
    MadeAll(commands, known);
  }

  /** In general a load keeps those that can be made, in order. */
  lemma LoadsInOrder(m: Machine, a: seq<Command>, b: seq<Command>, known: set<string>)
    requires !Active(m.state)
    ensures Next(m, Load(a + b, known)).steps == Next(m, Load(a, known)).steps + Next(m, Load(b, known)).steps
  {
    MadeConcat(a, b, known);
  }

  lemma LoadsOne(m: Machine, c: Command, known: set<string>)
    requires !Active(m.state)
    ensures Next(m, Load([c], known)).steps == if c.item in known then [c] else []
  {
    MadeOne(c, known);
  }

  // ---------------------------------------------------------------- a program from load to end

  /** Loaded, started and taken up, a program executes from its first step on, whatever happens meanwhile. */
  lemma ProgramExecutes(commands: seq<Command>, known: set<string>, es: seq<Event>)
    requires commands != [] && forall i :: 0 <= i < |commands| ==> commands[i].item in known
    ensures var m := Machine(RUNNING, 0, commands, Executing(0));
            && m == Next(Next(Next(START, Load(commands, known)), Execute), Begin)
            && (Possible(m, es) ==> Executed(m, es) == Trace(commands, 0, Heard(es)))
  {
    LoadsAll(START, commands, known);
    var m := Machine(RUNNING, 0, commands, Executing(0));
    if Possible(m, es) {
      ExecutesTrace(m, es);
    }
  }

  /** Steps that return no label are executed one after the other, each once, to the last. */
  lemma {:induction false} StraightThrough(steps: seq<Command>, c: nat, results: seq<string>)
    requires c < |steps| && forall i :: 0 <= i < |results| ==> results[i] == ""
    ensures var t := Trace(steps, c, results);
            && |t| == (if |results| < |steps| - c then |results| + 1 else |steps| - c)
            && forall i :: 0 <= i < |t| ==> t[i] == c + i
    decreases |results|
  {
    if results != [] && c + 1 < |steps| {
      StraightThrough(steps, c + 1, results[1..]);
    }
  }
}
