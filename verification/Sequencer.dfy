// The command sequencer's state, and its methods cut where they release the lock.
module Sequencer {
  import opened SequencerRuns

  class Sequencer {
    var state: State
    var currentIndex: nat
    var sequenceList: seq<Command>
    var worker: Worker  // how far Dispatch got

    function View(): Machine
      reads this
    {
      Machine(state, currentIndex, sequenceList, worker)
    }

    constructor ()
      ensures View() == START && Good(View())
    {
      state, currentIndex, sequenceList, worker := IDLE, 0, [], Away;
    }

    predicate IsActive()
      reads this
    {
      state != IDLE && state != LOADED
    }

    /** The index of the step executing, or all ones. */
    method Index() returns (index: nat)
      ensures index == if Active(state) then currentIndex else 0xFFFF_FFFF
    {
      index := 0xFFFF_FFFF;
      if IsActive() {
        index := currentIndex;
      }
    }

    /** The label of the step at hand; empty when no sequence is active, or an active one has no step. */
    method Label() returns (tag: string)
      ensures Active(state) && currentIndex < |sequenceList| ==> Labelled(sequenceList, currentIndex, tag)
      ensures !Active(state) || currentIndex >= |sequenceList| ==> tag == ""
      ensures Good(View()) && Active(state) ==> Labelled(sequenceList, currentIndex, tag)
    {
      tag := "";
      if IsActive() && currentIndex < |sequenceList| {
        tag := sequenceList[currentIndex].tag;
      }
    }

    /** The number of commands loaded, and whether the assertion that no sequence is active held. */
    method Load(commands: seq<Command>, known: set<string>) returns (count: nat, asserted: bool)
      modifies this
      ensures asserted == Safe(old(View()), Event.Load(commands, known))
      ensures View() == Next(old(View()), Event.Load(commands, known)) && count == |sequenceList|
    {
      asserted := !IsActive();
      if !IsActive() {
        sequenceList := [];
        for i := 0 to |commands|
          invariant (state, currentIndex, worker) == old((state, currentIndex, worker))
          invariant sequenceList + Made(commands[i..], known) == Made(commands, known)
        {
          assert commands[i..][1..] == commands[i + 1..];
          if commands[i].item in known {
            sequenceList := sequenceList + [commands[i]];
          }
        }
        if |sequenceList| > 0 {
          state, currentIndex := LOADED, 0;
        }
      }
      count := |sequenceList|;
    }

    /** Whether the state allowed it. */
    method Execute() returns (ok: bool)
      modifies this
      ensures View() == Next(old(View()), Event.Execute) && ok == (old(state) == LOADED)
    {
      ok := state == LOADED;
      if ok {
        state := RUNNING;
      }
    }

    /** The step that was told to abort, if any. */
    method Abort() returns (told: seq<Command>)
      requires Safe(View(), Event.Abort)
      modifies this
      ensures View() == Next(old(View()), Event.Abort)
      ensures told == if old(state) == RUNNING then [sequenceList[currentIndex]] else []
    {
      told := [];
      if state == RUNNING {
        state := ABORTING;
        told := [sequenceList[currentIndex]];
      }
    }

    /** Dispatch, up to the first step or the end. */
    method DispatchBegin()
      requires worker.Away?
      modifies this
      ensures View() == Next(old(View()), Begin)
    {
      Continue();
    }

    /** Dispatch, from a step's return up to the next step or the end. */
    method DispatchReturn(result: string)
      requires Enabled(View(), Return(result))
      modifies this
      ensures View() == Next(old(View()), Return(result))
    {
      Jump(result);
      Continue();
    }

    /** The loop's condition, and what follows the loop. */
    method Continue()
      modifies this
      ensures View() == Proceed(old(View()))
    {
      if currentIndex < |sequenceList| && state == RUNNING {
        worker := Executing(currentIndex);
      } else {
        state, sequenceList, worker := IDLE, [], Away;
      }
    }

    /** Moving on from a step that returned a label. */
    method Jump(result: string)
      requires currentIndex < |sequenceList|
      modifies this
      ensures View() == old(View()).(current := Target(old(sequenceList), old(currentIndex), result))
    {
      if result == "" {
        currentIndex := currentIndex + 1;
      } else {
        var index := currentIndex + 1;
        while index < |sequenceList| && sequenceList[index].tag != result
          invariant index <= |sequenceList|
          invariant FirstFrom(sequenceList, index, result) == FirstFrom(sequenceList, currentIndex + 1, result)
        {
          index := index + 1;
        }
        if index < |sequenceList| {
          currentIndex := index;
        } else {
          currentIndex := currentIndex + 1;
          index := currentIndex;
          while index > 0 && sequenceList[index - 1].tag != result
            invariant 0 <= index <= currentIndex <= |sequenceList|
            invariant LastBefore(sequenceList, index, result) == LastBefore(sequenceList, currentIndex, result)
          {
            index := index - 1;
          }
          if index > 0 {
            currentIndex := index - 1;
          }
        }
      }
    }
  }
}
