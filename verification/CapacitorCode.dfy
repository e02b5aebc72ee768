/**
 The capacitor as an object, with the goroutine of a delayer as the code has it.  Other goroutines may take any steps
 of theirs between two of its own; the object remembers the run, so that what is known of every run holds of it.
 */
module CapacitorCode {
  import opened Options
  import opened Channels
  import opened P = Capacitor

  /** The step is one of the goroutine of delayer i. */
  predicate Mine(i: nat, step: Step) {
    (step.TakeTimer? || step.TakeTerminate? || step.TakeDefault? || step.Execute? || step.Cleanup?) && step.i == i
  }

  /** What the others leave as it was for that goroutine; what it may receive can only become more. */
  ghost predicate Kept(i: nat, s: State, t: State) {
    |s.delayers| <= |t.delayers| &&
    (i < |s.delayers| ==>
      var v, w := s.delayers[i], t.delayers[i];
      w.pc == v.pc && w.ran == v.ran && (v.fired ==> w.fired) && v.terminate.buffer <= w.terminate.buffer)
  }

  lemma OthersKeep(i: nat, s: State, step: Step)
    requires Enabled(s, step) && !Mine(i, step)
    ensures Kept(i, s, Apply(s, step))
  {
  }

  class Capacitor {
    var d: Option<nat>
    var delayers: seq<Delayer>
    ghost var trace: seq<Step>
    ghost var run: seq<State>

    function View(): State reads this {
      State(d, delayers)
    }

    /** The object is in the last state of a run. */
    ghost predicate Valid() reads this {
      IsRun(run, trace) && run[|trace|] == View()
    }

    /** The run got longer by this step.  With Valid before and after, the step was enabled and led to this state. */
    twostate predicate Did(step: Step) reads this {
      trace == old(trace) + [step] && run == old(run) + [View()]
    }

    constructor ()
      ensures Valid() && View() == Initial && trace == []
    {
      d, delayers, trace, run := None, [], [], [Initial];
    }

    method Submit(f: Func)
      requires Valid()
      modifies this
      ensures Valid() && Did(Step.Submit(f))
    {
      ghost var t := Apply(View(), Step.Submit(f));
      LongerRun(run, trace, Step.Submit(f));
      RunKeepsInv(run, trace, |trace|);
      if d.None? {
        delayers := delayers + [Delayer(f, false, Make(1), Waiting, None, None, false, [])];
        d := Some(|delayers| - 1);
      } else {
        delayers := delayers[d.value := delayers[d.value].(current := f)];
      }
      assert View() == t;
      run, trace := run + [t], trace + [Step.Submit(f)];
    }

    method Discharge()
      requires Valid()
      modifies this
      ensures Valid() && Did(Step.Discharge)
    {
      Terminate(true);
    }

    method Cancel()
      requires Valid()
      modifies this
      ensures Valid() && Did(Step.Cancel)
    {
      Terminate(false);
    }

    /** The send never blocks: the one slot of the terminate channel is free. */
    method Terminate(verdict: bool)
      requires Valid()
      modifies this
      ensures Valid() && Did(if verdict then Step.Discharge else Step.Cancel)
      ensures old(d).Some? ==> old(d).value < |old(delayers)| && old(delayers)[old(d).value].terminate.buffer == []
    {
      ghost var step := if verdict then Step.Discharge else Step.Cancel;
      ghost var t := Apply(View(), step);
      LongerRun(run, trace, step);
      RunKeepsInv(run, trace, |trace|);
      if d.Some? {
        assert DelayerOk(View(), d.value);
        var v := delayers[d.value];
        delayers := delayers[d.value :=
          v.(terminate := Put(v.terminate, verdict), verdict := Some(verdict), charge := v.current)];
        d := None;
      }
      assert View() == t;
      run, trace := run + [t], trace + [step];
    }

    // -------------------------------------------------------------- the goroutine of a delayer

    /** Whatever the other goroutines, the timer included, do meanwhile. */
    method Interfere(i: nat)
      requires Valid()
      modifies this
      ensures Valid() && old(trace) <= trace && Kept(i, old(View()), View())
    {
      var n: nat := *;
      while n > 0
        invariant Valid() && old(trace) <= trace && Kept(i, old(View()), View())
      {
        var step: Step := *;
        if Enabled(View(), step) && !Mine(i, step) {
          OthersKeep(i, View(), step);
          LongerRun(run, trace, step);
          var t := Apply(View(), step);
          d, delayers := t.d, t.delayers;
          run, trace := run + [t], trace + [step];
        }
        n := n - 1;
      }
    }

    /** One step that concerns this delayer alone. */
    method Move(i: nat, step: Step)
      requires Valid() && Enabled(View(), step) && Mine(i, step) && !step.Cleanup?
      modifies this
      ensures Valid() && Did(step) && |delayers| == |old(delayers)| && delayers[i] == Moved(old(delayers[i]), step)
    {
      ghost var t := Apply(View(), step);
      LongerRun(run, trace, step);
      delayers := delayers[i := Moved(delayers[i], step)];
      assert View() == t;
      run, trace := run + [t], trace + [step];
    }

    method Cleanup(i: nat)
      requires Valid() && i < |delayers| && delayers[i].pc.Cleaning?
      modifies this
      ensures Valid() && Did(Step.Cleanup(i)) && |delayers| == |old(delayers)|
      ensures delayers[i] == old(delayers[i]).(pc := Gone) && d != Some(i)
    {
      ghost var t := Apply(View(), Step.Cleanup(i));
      LongerRun(run, trace, Step.Cleanup(i));
      if d == Some(i) {
        d := None;
      }
      delayers := delayers[i := delayers[i].(pc := Gone)];
      assert View() == t;
      run, trace := run + [t], trace + [Step.Cleanup(i)];
    }

    /** The two selects: an explicit termination trumps the timer.  Nothing may be ready yet. */
    method Decide(i: nat) returns (decided: bool, call: bool)
      requires Valid() && i < |delayers| && delayers[i].pc.Waiting?
      modifies this
      ensures Valid() && old(trace) <= trace && i < |delayers| && delayers[i].ran == old(delayers[i].ran)
      ensures delayers[i].pc == if !decided then Waiting else if call then Executing else Cleaning
    {
      Interfere(i);
      var choice: bool := *;
      call := false;
      if choice && delayers[i].fired {
        Move(i, TakeTimer(i));
        Interfere(i);
        if |delayers[i].terminate.buffer| > 0 {
          call := delayers[i].terminate.buffer[0];
          Move(i, TakeTerminate(i));
        } else {
          call := true;
          Move(i, TakeDefault(i));
        }
        decided := true;
      } else if |delayers[i].terminate.buffer| > 0 {
        call := delayers[i].terminate.buffer[0];
        Move(i, TakeTerminate(i));
        decided := true;
      } else {
        decided := false;
      }
    }

    /**
     run, watched up to its decision and then to its end: it takes only steps of the protocol, calls at most one
     function, and when it is over it is not in charge.
     */
    method Run(i: nat) returns (over: bool)
      requires Valid() && i < |delayers| && delayers[i].pc.Waiting?
      modifies this
      ensures Valid() && old(trace) <= trace && i < |delayers| && |delayers[i].ran| <= 1
      ensures if over then delayers[i].pc.Gone? && d != Some(i) else delayers[i].pc.Waiting?
    {
      var call;
      over, call := Decide(i);
      if over {
        if call {
          Interfere(i);
          Move(i, Execute(i));
        }
        Interfere(i);
        Cleanup(i);
      }
      OneVerdictOneCall(run, trace, |trace|, i);
    }
  }
}
