/**
 A capacitor of function calls.  Submit, Discharge, Cancel and the cleanup of a delayer run under the capacitor's lock;
 each delayer's goroutine chooses between its timer and its terminate channel, loads the current function, runs it and
 cleans up.  A step is one of these, in any order.
 */
module Capacitor {
  import opened Options
  import opened Channels

  /** Functions are told apart by number; None is a nil function, which is never called. */
  type Func = Option<nat>

  datatype Pc = Waiting | TimerTaken | Executing | Cleaning | Gone

  /**
   `verdict` is what was sent on terminate and `charge` the current function at that time; `defaulted` says that the
   goroutine decided on its timer alone; `ran` is what it called.  These are history: no step reads them.
   */
  datatype Delayer = Delayer(
    current: Func,
    fired: bool,
    terminate: Chan<bool>,
    pc: Pc,
    verdict: Option<bool>,
    charge: Func,
    defaulted: bool,
    ran: seq<Func>)

  datatype State = State(d: Option<nat>, delayers: seq<Delayer>)

  const Initial := State(None, [])

  datatype Step =
    | Submit(f: Func)
    | Discharge
    | Cancel
    | Fire(i: nat)
    | TakeTimer(i: nat)
    | TakeTerminate(i: nat)
    | TakeDefault(i: nat)
    | Execute(i: nat)
    | Cleanup(i: nat)

  function Submitted(s: State, f: Func): State {
    if s.d.None? then
      State(Some(|s.delayers|), s.delayers + [Delayer(f, false, Make(1), Waiting, None, None, false, [])])
    else if s.d.value < |s.delayers| then
      s.(delayers := s.delayers[s.d.value := s.delayers[s.d.value].(current := f)])
    else s
  }

  /** Discharge sends true and Cancel false; both then forget the delayer. */
  function Terminated(s: State, verdict: bool): State {
    if s.d.None? then s
    else if s.d.value < |s.delayers| then
      var v := s.delayers[s.d.value];
      State(None, s.delayers[s.d.value :=
        v.(terminate := Put(v.terminate, verdict), verdict := Some(verdict), charge := v.current)])
    else s.(d := None)
  }

  function CleanedUp(s: State, i: nat): State
    requires i < |s.delayers|
  {
    State(if s.d == Some(i) then None else s.d, s.delayers[i := s.delayers[i].(pc := Gone)])
  }

  predicate Undecided(v: Delayer) {
    v.pc.Waiting? || v.pc.TimerTaken?
  }

  predicate Enabled(s: State, step: Step) {
    match step
    case Submit(_) => true
    case Discharge => true
    case Cancel => true
    case Fire(i) => i < |s.delayers|
    case TakeTimer(i) => i < |s.delayers| && s.delayers[i].pc.Waiting? && s.delayers[i].fired
    case TakeTerminate(i) => i < |s.delayers| && Undecided(s.delayers[i]) && s.delayers[i].terminate.buffer != []
    case TakeDefault(i) => i < |s.delayers| && s.delayers[i].pc.TimerTaken? && s.delayers[i].terminate.buffer == []
    case Execute(i) => i < |s.delayers| && s.delayers[i].pc.Executing?
    case Cleanup(i) => i < |s.delayers| && s.delayers[i].pc.Cleaning?
  }

  /** What the goroutine of a delayer does to it. */
  function Moved(v: Delayer, step: Step): Delayer
    requires step.TakeTerminate? ==> v.terminate.buffer != []
  {
    match step
    case Fire(_) => v.(fired := true)
    case TakeTimer(_) => v.(pc := TimerTaken)
    case TakeTerminate(_) =>
      v.(terminate := Take(v.terminate), pc := if v.terminate.buffer[0] then Executing else Cleaning)
    case TakeDefault(_) => v.(pc := Executing, defaulted := true)
    case Execute(_) => v.(pc := Cleaning, ran := if v.current.Some? then v.ran + [v.current] else v.ran)
    case _ => v
  }

  function Apply(s: State, step: Step): State
    requires Enabled(s, step)
  {
    match step
    case Submit(f) => Submitted(s, f)
    case Discharge => Terminated(s, true)
    case Cancel => Terminated(s, false)
    case Cleanup(i) => CleanedUp(s, i)
    case _ => s.(delayers := s.delayers[step.i := Moved(s.delayers[step.i], step)])
  }

  /** Step number i of a run: it could be taken, and it led to the next state. */
  ghost predicate StepAt(run: seq<State>, steps: seq<Step>, i: nat) {
    i < |steps| && i + 1 < |run| && Enabled(run[i], steps[i]) && run[i + 1] == Apply(run[i], steps[i])
  }

  ghost predicate IsRun(run: seq<State>, steps: seq<Step>) {
    && |run| == |steps| + 1
    && run[0] == Initial
    && (forall i: nat :: i < |steps| ==> StepAt(run, steps, i))
  }

  lemma LongerRun(run: seq<State>, steps: seq<Step>, step: Step)
    requires IsRun(run, steps) && Enabled(run[|steps|], step)
    ensures IsRun(run + [Apply(run[|steps|], step)], steps + [step])
  {
    var run', steps' := run + [Apply(run[|steps|], step)], steps + [step];
    forall i: nat | i < |steps'| ensures StepAt(run', steps', i) {
      if i < |steps| {
        assert StepAt(run, steps, i);
        assert run'[i] == run[i] && steps'[i] == steps[i] && run'[i + 1] == run[i + 1];
      } else {
        assert run'[i] == run[i] && steps'[i] == step && run'[i + 1] == Apply(run[i], step);
      }
    }
  }

  // ---------------------------------------------------------------- what every run keeps

  /** The calls a delayer can have made: none before it executes, at most one, and of the right function. */
  predicate RanOk(v: Delayer) {
    if Undecided(v) || v.pc.Executing? then v.ran == []
    else if v.verdict == Some(false) && !v.defaulted then v.ran == []
    else if v.verdict == Some(true) && !v.defaulted then v.ran == (if v.charge.Some? then [v.charge] else [])
    else |v.ran| <= 1
  }

  predicate Sound(v: Delayer, inCharge: bool) {
    && v.terminate.cap == 1 && v.terminate.faults == 0 && !v.terminate.closed
    && v.terminate.sends == (if v.verdict.Some? then 1 else 0)
    && (inCharge ==> v.verdict.None?)
    && (v.verdict.Some? ==> v.charge == v.current)
    && (Undecided(v) || v.defaulted ==> v.terminate.buffer == (if v.verdict.Some? then [v.verdict.value] else []))
    && (Undecided(v) ==> !v.defaulted)
    && (!Undecided(v) && !v.defaulted ==> v.verdict.Some? && v.terminate.buffer == [])
    && (v.pc.Executing? && !v.defaulted ==> v.verdict == Some(true))
    && (v.pc.Gone? ==> !inCharge)
    && RanOk(v)
  }

  predicate DelayerOk(s: State, i: nat)
    requires i < |s.delayers|
  {
    Sound(s.delayers[i], s.d == Some(i))
  }

  ghost predicate Inv(s: State) {
    && (s.d.Some? ==> s.d.value < |s.delayers|)
    && (forall i :: 0 <= i < |s.delayers| ==> DelayerOk(s, i))
  }

  lemma TerminatedIsSound(v: Delayer, verdict: bool)
    requires Sound(v, true)
    ensures Sound(v.(terminate := Put(v.terminate, verdict), verdict := Some(verdict), charge := v.current), false)
  {
  }

  lemma MovedIsSound(v: Delayer, step: Step, inCharge: bool)
    requires Sound(v, inCharge)
    requires step.TakeTerminate? ==> Undecided(v) && v.terminate.buffer != []
    requires step.TakeTimer? ==> v.pc.Waiting?
    requires step.TakeDefault? ==> v.pc.TimerTaken?
    requires step.Execute? ==> v.pc.Executing?
    ensures Sound(Moved(v, step), inCharge)
  {
  }

  lemma CleanedUpIsSound(v: Delayer, inCharge: bool)
    requires Sound(v, inCharge) && v.pc.Cleaning?
    ensures Sound(v.(pc := Gone), false)
  {
  }

  lemma StepKeepsDelayer(s: State, step: Step, i: nat)
    requires Inv(s) && Enabled(s, step) && i < |Apply(s, step).delayers|
    ensures DelayerOk(Apply(s, step), i)
  {
    if i < |s.delayers| {
      assert DelayerOk(s, i);
      var v, inCharge := s.delayers[i], s.d == Some(i);
      match step
      case Submit(_) =>
      case Discharge => if inCharge { TerminatedIsSound(v, true); }
      case Cancel => if inCharge { TerminatedIsSound(v, false); }
      case Cleanup(j) => if i == j { CleanedUpIsSound(v, inCharge); }
      case _ => if i == step.i { MovedIsSound(v, step, inCharge); }
    }
  }

  lemma StepKeepsInv(s: State, step: Step)
    requires Inv(s) && Enabled(s, step)
    ensures Inv(Apply(s, step))
  {
    var t := Apply(s, step);
    forall i | 0 <= i < |t.delayers| ensures DelayerOk(t, i) {
      StepKeepsDelayer(s, step, i);
    }
  }

  lemma {:induction false} RunKeepsInv(run: seq<State>, steps: seq<Step>, n: nat)
    requires IsRun(run, steps) && n < |run|
    ensures Inv(run[n])
  {
    if n > 0 {
      RunKeepsInv(run, steps, n - 1);
      assert StepAt(run, steps, n - 1);
      StepKeepsInv(run[n - 1], steps[n - 1]);
    }
  }

  /**
   In every run each delayer gets at most one terminate value and the one-slot channel always has room for it, so
   Discharge and Cancel never block while they hold the lock; and each delayer calls at most one function.
   */
  lemma OneVerdictOneCall(run: seq<State>, steps: seq<Step>, n: nat, i: nat)
    requires IsRun(run, steps) && n < |run| && i < |run[n].delayers|
    ensures var v := run[n].delayers[i]; v.terminate.sends <= 1 && v.terminate.faults == 0 && |v.ran| <= 1
  {
    RunKeepsInv(run, steps, n);
    assert DelayerOk(run[n], i);
  }

  predicate Ends(step: Step, j: nat) {
    step.Discharge? || step.Cancel? || step == Cleanup(j)
  }

  /**
   A delayer in charge stays in charge exactly until the next Discharge, Cancel or cleanup of its own, and never comes
   back: whatever the cleanups of older delayers do, however late, they do not touch it.
   */
  lemma {:induction false} InChargeUntil(run: seq<State>, steps: seq<Step>, a: nat, n: nat, j: nat)
    requires IsRun(run, steps) && a <= n < |run| && run[a].d == Some(j)
    ensures j < |run[n].delayers|
    ensures run[n].d == Some(j) <==> forall k :: a <= k < n ==> !Ends(steps[k], j)
    decreases n
  {
    RunKeepsInv(run, steps, a);
    if a < n {
      InChargeUntil(run, steps, a, n - 1, j);
      assert StepAt(run, steps, n - 1);
    }
  }

  // ---------------------------------------------------------------- what a verdict means

  /** The function of the last Submit among the first n steps. */
  function LastSubmitted(steps: seq<Step>, n: nat): Func
    requires n <= |steps|
  {
    if n == 0 then None else if steps[n - 1].Submit? then steps[n - 1].f else LastSubmitted(steps, n - 1)
  }

  lemma {:induction false} CurrentIsLast(run: seq<State>, steps: seq<Step>, n: nat)
    requires IsRun(run, steps) && n < |run| && run[n].d.Some?
    ensures run[n].d.value < |run[n].delayers|
    ensures run[n].delayers[run[n].d.value].current == LastSubmitted(steps, n)
  {
    RunKeepsInv(run, steps, n - 1);
    RunKeepsInv(run, steps, n);
    var s, step := run[n - 1], steps[n - 1];
    assert StepAt(run, steps, n - 1);
    if !step.Submit? {
      assert run[n].d == s.d;
      CurrentIsLast(run, steps, n - 1);
    }
  }

  /** After a Submit there is a delayer in charge, and it holds the function submitted. */
  lemma SubmitTakesEffect(run: seq<State>, steps: seq<Step>, n: nat)
    requires IsRun(run, steps) && n < |steps| && steps[n].Submit?
    ensures run[n + 1].d.Some? && run[n + 1].d.value < |run[n + 1].delayers|
    ensures run[n + 1].delayers[run[n + 1].d.value].current == steps[n].f
  {
    RunKeepsInv(run, steps, n);
    assert StepAt(run, steps, n);
  }

  /** What a delayer calls is what it holds when it executes: the last function submitted, if it is still in charge. */
  lemma CallsTheLast(run: seq<State>, steps: seq<Step>, n: nat, i: nat)
    requires IsRun(run, steps) && n < |steps| && steps[n] == Execute(i) && i < |run[n].delayers|
    ensures i < |run[n + 1].delayers|
    ensures var f := run[n].delayers[i].current;
            && run[n + 1].delayers[i].ran == (if f.Some? then [f] else [])
            && (run[n].d == Some(i) ==> f == LastSubmitted(steps, n))
  {
    RunKeepsInv(run, steps, n);
    assert DelayerOk(run[n], i) && StepAt(run, steps, n);
    if run[n].d == Some(i) {
      CurrentIsLast(run, steps, n);
    }
  }

  /** Once a verdict was sent to a delayer that had not decided, it stays, with its charge, and decides by it. */
  predicate Sentenced(v: Delayer, verdict: bool, charge: Func) {
    v.verdict == Some(verdict) && v.charge == charge && !v.defaulted
  }

  lemma {:induction false} SentenceStays(run: seq<State>, steps: seq<Step>, a: nat, n: nat, i: nat,
                                         verdict: bool, charge: Func)
    requires IsRun(run, steps) && a <= n < |run| && i < |run[a].delayers|
    requires Sentenced(run[a].delayers[i], verdict, charge)
    ensures i < |run[n].delayers| && Sentenced(run[n].delayers[i], verdict, charge)
    decreases n
  {
    if a < n {
      SentenceStays(run, steps, a, n - 1, i, verdict, charge);
      RunKeepsInv(run, steps, n - 1);
      assert StepAt(run, steps, n - 1);
      assert DelayerOk(run[n - 1], i);
    }
  }

  /** A Cancel that comes before the delayer has decided means that it never calls anything. */
  lemma CancelInTime(run: seq<State>, steps: seq<Step>, a: nat, n: nat, i: nat)
    requires IsRun(run, steps) && a < n < |run| && steps[a] == Cancel && run[a].d == Some(i)
    requires i < |run[a].delayers| && Undecided(run[a].delayers[i])
    ensures i < |run[n].delayers| && run[n].delayers[i].ran == []
  {
    RunKeepsInv(run, steps, a);
    assert DelayerOk(run[a], i);
    assert StepAt(run, steps, a);
    SentenceStays(run, steps, a + 1, n, i, false, run[a].delayers[i].current);
    RunKeepsInv(run, steps, n);
    assert DelayerOk(run[n], i);
  }

  /**
   A Discharge that comes before the delayer has decided means that it calls exactly the last function submitted
   before that Discharge: nothing until it executes, and that one call from then on.
   */
  lemma DischargeInTime(run: seq<State>, steps: seq<Step>, a: nat, n: nat, i: nat)
    requires IsRun(run, steps) && a < n < |run| && steps[a] == Discharge && run[a].d == Some(i)
    requires i < |run[a].delayers| && Undecided(run[a].delayers[i])
    ensures i < |run[n].delayers|
    ensures var v, f := run[n].delayers[i], LastSubmitted(steps, a);
            v.ran == if v.pc.Cleaning? || v.pc.Gone? then (if f.Some? then [f] else []) else []
  {
    RunKeepsInv(run, steps, a);
    CurrentIsLast(run, steps, a);
    assert DelayerOk(run[a], i);
    assert StepAt(run, steps, a);
    SentenceStays(run, steps, a + 1, n, i, true, LastSubmitted(steps, a));
    RunKeepsInv(run, steps, n);
    assert DelayerOk(run[n], i);
  }

  // ---------------------------------------------------------------- the Submit that is lost

  predicate Loaded(v: Delayer) {
    v.pc.Cleaning? || v.pc.Gone?
  }

  ghost predicate Leads(s: State, steps: seq<Step>, t: State)
    decreases |steps|
  {
    if steps == [] then s == t
    else Enabled(s, steps[0]) && Leads(Apply(s, steps[0]), steps[1..], t)
  }

  ghost predicate CanReach(s: State, t: State) {
    exists steps :: Leads(s, steps, t)
  }

  /** Once a delayer has loaded its function, nothing it is given later will ever run. */
  lemma {:induction false} LoadedIsFinal(s: State, steps: seq<Step>, t: State, i: nat)
    requires Leads(s, steps, t) && i < |s.delayers| && Loaded(s.delayers[i])
    ensures i < |t.delayers| && Loaded(t.delayers[i]) && t.delayers[i].ran == s.delayers[i].ran
    decreases |steps|
  {
    if steps != [] {
      LoadedIsFinal(Apply(s, steps[0]), steps[1..], t, i);
    }
  }

  /** A delayer in charge that has not loaded yet can still run the function it was last given. */
  lemma {:induction false} CanStillRun(s: State, i: nat) returns (steps: seq<Step>, t: State)
    requires Inv(s) && s.d == Some(i) && !Loaded(s.delayers[i]) && s.delayers[i].current.Some?
    ensures Leads(s, steps, t) && i < |t.delayers| && t.delayers[i].ran == [s.delayers[i].current]
    decreases if !Undecided(s.delayers[i]) then 1
              else if s.delayers[i].pc.TimerTaken? then 2 else if s.delayers[i].fired then 3 else 4
  {
    assert DelayerOk(s, i);
    var v := s.delayers[i];
    var step := if v.pc.Waiting? then (if v.fired then TakeTimer(i) else Fire(i))
                else if v.pc.TimerTaken? then TakeDefault(i) else Execute(i);
    var next := Apply(s, step);
    StepKeepsInv(s, step);
    if v.pc.Executing? {
      steps, t := [step], next;
      assert steps[1..] == [];
    } else {
      var rest;
      rest, t := CanStillRun(next, i);
      steps := [step] + rest;
      assert steps[1..] == rest;
    }
  }

  /**
   A Submit is lost exactly when it reaches a delayer that has loaded already but not yet cleaned up: the function
   can be called by the delayer in charge if and only if that delayer has not loaded.
   */
  lemma SubmitIsHeard(s: State, i: nat, n: nat)
    requires Inv(s) && s.d == Some(i)
    ensures (exists t :: CanReach(Submitted(s, Some(n)), t) && Calls(s, t, i, n)) <==> !Loaded(s.delayers[i])
  {
    var u := Submitted(s, Some(n));
    StepKeepsInv(s, Submit(Some(n)));
    assert DelayerOk(s, i);
    if Loaded(s.delayers[i]) {
      forall t | CanReach(u, t) ensures !Calls(s, t, i, n) {
        var steps :| Leads(u, steps, t);
        LoadedIsFinal(u, steps, t, i);
      }
    } else {
      var steps, t := CanStillRun(u, i);
      assert CanReach(u, t) && Calls(s, t, i, n);
    }
  }

  /** Between s and t, delayer i called function n and nothing else. */
  predicate Calls(s: State, t: State, i: nat, n: nat) {
    i < |s.delayers| && i < |t.delayers| && t.delayers[i].ran == s.delayers[i].ran + [Some(n)]
  }

  /** Such a state is reached: the timer fires, the first function runs, and the second comes before the cleanup. */
  lemma SubmitCanBeLost() returns (run: seq<State>, steps: seq<Step>)
    ensures IsRun(run, steps)
    ensures var s := run[|steps|];
            s.d == Some(0) && |s.delayers| == 1 && Loaded(s.delayers[0]) && s.delayers[0].ran == [Some(0)]
  {
    var s1 := Apply(Initial, Submit(Some(0)));
    var s2 := Apply(s1, Fire(0));
    var s3 := Apply(s2, TakeTimer(0));
    var s4 := Apply(s3, TakeDefault(0));
    var s5 := Apply(s4, Execute(0));
    run, steps := [Initial, s1, s2, s3, s4, s5], [Submit(Some(0)), Fire(0), TakeTimer(0), TakeDefault(0), Execute(0)];
  }
}
