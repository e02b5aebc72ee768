/**
 The drainer's control state.  Start, Cancel and the section at the end of a job run under the control lock, so a
 run is a sequence of these sections and of the closes of the done channels that follow them.
 */
module DrainControl {
  import opened Options
  import opened Channels

  const MODULUS := 0x1_0000_0000

  /** A job's id is a uint32. */
  function Next(id: nat): nat {
    (id + 1) % MODULUS
  }

  datatype Phase = Running | SectionDone | Exited

  /** One job: its id, its cancel and done channels, which carry nothing and are only ever closed, and how far it is. */
  datatype JobState = JobState(id: nat, cancel: Chan<()>, done: Chan<()>, phase: Phase)

  /** `jobs` are all the jobs ever started; `current` is the one the drainer last stored. */
  datatype State = State(active: bool, gauge: bool, currentID: nat, current: Option<nat>, jobs: seq<JobState>)

  const Initial := State(false, false, 0, None, [])

  datatype Step =
    | DoStart
    | DoCancel
    | DoFinish(j: nat)
    | DoCloseDone(j: nat)

  function Started(s: State): State {
    if s.active then s
    else
      var id := Next(s.currentID);
      State(true, true, id, Some(|s.jobs|), s.jobs + [JobState(id, Make(0), Make(0), Running)])
  }

  function Cancelled(s: State): State {
    if !s.active then s
    else s.(active := false, gauge := false,
            jobs := if s.current.Some? && s.current.value < |s.jobs|
                    then var c := s.current.value; s.jobs[c := s.jobs[c].(cancel := Shut(s.jobs[c].cancel))]
                    else s.jobs)
  }

  function Finished(s: State, j: nat): State
    requires j < |s.jobs|
  {
    var hit := s.jobs[j].id == s.currentID && s.active;
    s.(active := s.active && !hit, gauge := s.gauge && !hit, jobs := s.jobs[j := s.jobs[j].(phase := SectionDone)])
  }

  function DoneClosed(s: State, j: nat): State
    requires j < |s.jobs|
  {
    s.(jobs := s.jobs[j := s.jobs[j].(done := Shut(s.jobs[j].done), phase := Exited)])
  }

  predicate Enabled(s: State, step: Step) {
    match step
    case DoStart => true
    case DoCancel => true
    case DoFinish(j) => j < |s.jobs| && s.jobs[j].phase.Running?
    case DoCloseDone(j) => j < |s.jobs| && s.jobs[j].phase.SectionDone?
  }

  function Apply(s: State, step: Step): State
    requires Enabled(s, step)
  {
    match step
    case DoStart => Started(s)
    case DoCancel => Cancelled(s)
    case DoFinish(j) => Finished(s, j)
    case DoCloseDone(j) => DoneClosed(s, j)
  }

  /** Step number i of a run: it could be taken, and it led to the next state. */
  ghost predicate StepAt(run: seq<State>, steps: seq<Step>, i: nat) {
    i < |steps| && i + 1 < |run| && Enabled(run[i], steps[i]) && run[i + 1] == Apply(run[i], steps[i])
  }

  ghost predicate IsRun(run: seq<State>, steps: seq<Step>) {
    && |run| == |steps| + 1
    && run[0] == Initial
    && (forall i: nat :: i < |steps| ==> StepAt(run, steps, i))
  }

  lemma LongerRun(run: seq<State>, steps: seq<Step>, step: Step)
    requires IsRun(run, steps) && Enabled(run[|steps|], step)
    ensures IsRun(run + [Apply(run[|steps|], step)], steps + [step])
  {
    var run', steps' := run + [Apply(run[|steps|], step)], steps + [step];
    forall i: nat | i < |steps'| ensures StepAt(run', steps', i) {
      if i < |steps| {
        assert StepAt(run, steps, i);
        assert run'[i] == run[i] && steps'[i] == steps[i] && run'[i + 1] == run[i + 1];
      } else {
        assert run'[i] == run[i] && steps'[i] == step && run'[i + 1] == Apply(run[i], step);
      }
    }
  }

  // ---------------------------------------------------------------- for any number of jobs

  predicate Live(job: JobState) {
    !job.cancel.closed && job.phase.Running?
  }

  predicate JobOk(s: State, j: nat)
    requires j < |s.jobs|
  {
    var job := s.jobs[j];
    && job.id == (j + 1) % MODULUS
    && job.cancel.faults == 0 && job.done.faults == 0
    && (job.done.closed <==> job.phase.Exited?)
  }

  /** True however many jobs there have been: ids count modulo 2^32, channels are used properly. */
  ghost predicate Basic(s: State) {
    && (forall j :: 0 <= j < |s.jobs| ==> JobOk(s, j))
    && s.currentID == |s.jobs| % MODULUS
    && s.current == (if |s.jobs| == 0 then None else Some(|s.jobs| - 1))
    && s.gauge == s.active
    && (s.active ==> s.jobs != [] && !s.jobs[|s.jobs| - 1].cancel.closed)
  }

  lemma NextCounts(n: nat)
    ensures Next(n % MODULUS) == (n + 1) % MODULUS
  {
  }

  lemma StepKeepsBasic(s: State, step: Step)
    requires Basic(s) && Enabled(s, step)
    ensures Basic(Apply(s, step))
  {
    var t := Apply(s, step);
    NextCounts(|s.jobs|);
    if step.DoCancel? && s.active {
      assert JobOk(s, |s.jobs| - 1);
    }
    forall j | 0 <= j < |t.jobs| ensures JobOk(t, j) {
      assert j < |s.jobs| ==> JobOk(s, j);
    }
  }

  /**
   A finishing job clears the active flag exactly when the drainer is active and the number of jobs started since
   is a multiple of 2^32.
   */
  lemma FinishClears(s: State, j: nat)
    requires Basic(s) && Enabled(s, DoFinish(j))
    ensures Finished(s, j).active != s.active <==> s.active && (|s.jobs| - 1 - j) % MODULUS == 0
  {
    assert JobOk(s, j);
    SameResidue(j + 1, |s.jobs|);
  }

  lemma SameResidue(a: nat, b: nat)
    requires a <= b
    ensures a % MODULUS == b % MODULUS <==> (b - a) % MODULUS == 0
  {
  }

  // ---------------------------------------------------------------- for at most 2^32 jobs

  /** Active says that the newest job is neither cancelled nor past its finish section; no older job is like that. */
  ghost predicate Exact(s: State) {
    && (s.active <==> s.jobs != [] && Live(s.jobs[|s.jobs| - 1]))
    && (forall j :: 0 <= j < |s.jobs| - 1 ==> !Live(s.jobs[j]))
  }

  lemma StepKeepsExact(s: State, step: Step)
    requires Basic(s) && Exact(s) && Enabled(s, step) && |Apply(s, step).jobs| <= MODULUS
    ensures Exact(Apply(s, step))
  {
    if step.DoFinish? {
      FinishClears(s, step.j);
    }
  }

  lemma {:induction false} RunKeepsInv(run: seq<State>, steps: seq<Step>, i: nat)
    requires IsRun(run, steps) && i < |run|
    ensures Basic(run[i]) && (|run[i].jobs| <= MODULUS ==> Exact(run[i]))
  {
    if i > 0 {
      RunKeepsInv(run, steps, i - 1);
      assert StepAt(run, steps, i - 1);
      StepKeepsBasic(run[i - 1], steps[i - 1]);
      if |run[i].jobs| <= MODULUS {
        StepKeepsExact(run[i - 1], steps[i - 1]);
      }
    }
  }

  /**
   Over every run of at most 2^32 jobs: the drainer is active exactly while its newest job is neither cancelled nor
   past its finish section, the gauge says the same, at most one job runs uncancelled, and it is the newest.
   */
  lemma DrainSafety(run: seq<State>, steps: seq<Step>, i: nat)
    requires IsRun(run, steps) && i < |run| && |run[i].jobs| <= MODULUS
    ensures var s := run[i];
            && (s.active <==> s.jobs != [] && Live(s.jobs[|s.jobs| - 1]))
            && s.gauge == s.active
            && (forall j, k :: 0 <= j < |s.jobs| && 0 <= k < |s.jobs| && Live(s.jobs[j]) && Live(s.jobs[k]) ==>
                  j == k == |s.jobs| - 1)
  {
    RunKeepsInv(run, steps, i);
  }

  /** Over every run of any length: no cancel or done channel is closed twice, and Cancel always finds a job. */
  lemma ChannelsClosedOnce(run: seq<State>, steps: seq<Step>, i: nat)
    requires IsRun(run, steps) && i < |run|
    ensures forall j :: 0 <= j < |run[i].jobs| ==> run[i].jobs[j].cancel.faults == 0 && run[i].jobs[j].done.faults == 0
    ensures run[i].active ==> run[i].current.Some? && run[i].current.value < |run[i].jobs|
  {
    RunKeepsInv(run, steps, i);
    forall j | 0 <= j < |run[i].jobs| ensures run[i].jobs[j].cancel.faults == 0 && run[i].jobs[j].done.faults == 0 {
      assert JobOk(run[i], j);
    }
  }

  /** A job that finishes after a newer one was started leaves the newer one active. */
  lemma StaleFinish(run: seq<State>, steps: seq<Step>, i: nat, j: nat)
    requires IsRun(run, steps) && i < |steps| && steps[i] == DoFinish(j)
    requires j < |run[i].jobs| - 1 && |run[i].jobs| <= MODULUS
    ensures run[i + 1].active == run[i].active && run[i + 1].gauge == run[i].gauge
  {
    RunKeepsInv(run, steps, i);
    assert StepAt(run, steps, i);
    FinishClears(run[i], j);
  }

  // ---------------------------------------------------------------- beyond 2^32 jobs

  lemma Then(run: seq<State>, steps: seq<Step>, step: Step) returns (run': seq<State>, steps': seq<Step>)
    requires IsRun(run, steps) && Enabled(run[|steps|], step)
    ensures IsRun(run', steps') && run' == run + [Apply(run[|steps|], step)] && steps' == steps + [step]
  {
    LongerRun(run, steps, step);
    run', steps' := run + [Apply(run[|steps|], step)], steps + [step];
  }

  /** n jobs are started and cancelled while the first of them does not get to its finish section. */
  lemma {:induction false} StartedAndCancelled(n: nat) returns (run: seq<State>, steps: seq<Step>)
    requires n > 0
    ensures IsRun(run, steps)
    ensures var s := run[|steps|]; !s.active && |s.jobs| == n && s.jobs[0].phase.Running?
  {
    if n == 1 {
      run, steps := [Initial], [];
    } else {
      run, steps := StartedAndCancelled(n - 1);
    }
    RunKeepsInv(run, steps, |steps|);
    run, steps := Then(run, steps, DoStart);
    run, steps := Then(run, steps, DoCancel);
  }

  /** Job ids do wrap: a job whose id is used again, 2^32 jobs later, ends that newer job's activity. */
  lemma OldJobEndsNewer() returns (run: seq<State>, steps: seq<Step>)
    ensures IsRun(run, steps) && |steps| > 0 && steps[|steps| - 1] == DoFinish(0)
    ensures var s, t := run[|steps| - 1], run[|steps|];
            && s.active && !t.active && |s.jobs| == |t.jobs| == MODULUS + 1
            && Live(s.jobs[MODULUS]) && Live(t.jobs[MODULUS])
  {
    run, steps := StartedAndCancelled(MODULUS);
    run, steps := Then(run, steps, DoStart);
    RunKeepsInv(run, steps, |steps|);
    FinishClears(run[|steps|], 0);
    run, steps := Then(run, steps, DoFinish(0));
  }

  // ---------------------------------------------------------------- jobs

  const SECOND := 1_000_000_000

  datatype Job = Job(count: int, percent: int, rate: int, tick: int)

  /** `share` is what the floating-point percentage of the connected devices comes to. */
  function Normalized(j: Job, deviceCount: nat, share: int): Job {
    var count := if j.percent > 0 then share else if j.count <= 0 then deviceCount else j.count;
    if j.rate > 0 then Job(count, j.percent, j.rate, if j.tick <= 0 then SECOND else j.tick)
    else Job(count, j.percent, 0, 0)
  }

  /**
   What Start promises of the job it returns: it needs no more defaults; a percentage goes before a count, and without
   either every device counts; a rate is kept, and comes with the tick it was given or one second.
   */
  lemma NormalizedJob(j: Job, deviceCount: nat, share: nat)
    ensures var n := Normalized(j, deviceCount, share);
            && Normalized(n, deviceCount, share) == n
            && n.count >= 0 && n.rate >= 0 && (n.rate > 0 <==> n.tick > 0)
            && n.percent == j.percent
            && (j.percent > 0 ==> n.count == share)
            && (j.percent <= 0 && j.count <= 0 ==> n.count == deviceCount)
            && (j.percent <= 0 && j.count > 0 ==> n.count == j.count)
            && (j.rate > 0 ==> n.rate == j.rate) && (j.rate <= 0 ==> n.rate == 0 && n.tick == 0)
            && (j.rate > 0 && j.tick > 0 ==> n.tick == j.tick)
            && (j.rate > 0 && j.tick <= 0 ==> n.tick == 1_000_000_000)
  {
  }

  // ---------------------------------------------------------------- the object

  datatype DrainError = ErrActive | ErrNotActive

  /** The drainer's fields; `jobs` stands for the contexts its goroutines hold. */
  class Drainer {
    var active: bool
    var state: real
    var currentID: nat
    var current: Option<nat>
    var jobs: seq<JobState>
    var options: seq<Job>

    ghost function View(): State reads this {
      State(active, state == 1.0, currentID, current, jobs)
    }

    ghost predicate Valid() reads this {
      Basic(View()) && |options| == |jobs| && (state == 0.0 || state == 1.0)
    }

    constructor ()
      ensures Valid() && View() == Initial
    {
      active, state, currentID, current, jobs, options := false, 0.0, 0, None, [], [];
    }

    /** The job to run is returned as normalized; the error says that a job is already active. */
    method Start(j: Job, deviceCount: nat, share: int) returns (job: Option<Job>, err: Option<DrainError>)
      requires Valid()
      modifies this
      ensures Valid() && View() == Started(old(View()))
      ensures err == (if old(active) then Some(ErrActive) else None)
      ensures job == (if old(active) then None else Some(Normalized(j, deviceCount, share)))
      ensures options == (if old(active) then old(options) else old(options) + [Normalized(j, deviceCount, share)])
      ensures old(active) ==> View() == old(View())
      ensures !old(active) ==>
                && active && state == 1.0 && currentID == (old(currentID) + 1) % 0x1_0000_0000
                && current == Some(|old(jobs)|) && jobs == old(jobs) + [JobState(currentID, Make(0), Make(0), Running)]
    {
      StepKeepsBasic(View(), DoStart);
      if active {
        return None, Some(ErrActive);
      }
      active := true;
      currentID := (currentID + 1) % MODULUS;
      var n := Normalized(j, deviceCount, share);
      jobs := jobs + [JobState(currentID, Make(0), Make(0), Running)];
      options := options + [n];
      state := 1.0;
      current := Some(|jobs| - 1);
      return Some(n), None;
    }

    /** The index of the job whose done channel the caller may wait on. */
    method Cancel() returns (waitFor: Option<nat>, err: Option<DrainError>)
      requires Valid()
      modifies this
      ensures Valid() && View() == Cancelled(old(View())) && options == old(options)
      ensures err == (if old(active) then None else Some(ErrNotActive))
      ensures waitFor == (if old(active) then old(current) else None)
      ensures !old(active) ==> View() == old(View())
      ensures old(active) ==>
                && !active && state == 0.0 && current == old(current) && current.Some? && currentID == old(currentID)
                && |jobs| == |old(jobs)| && current.value < |jobs|
                && jobs[current.value].cancel.closed && jobs[current.value].cancel.faults == 0
                && (forall j :: 0 <= j < |jobs| && j != current.value ==> jobs[j] == old(jobs)[j])
    {
      StepKeepsBasic(View(), DoCancel);
      if !active {
        return None, Some(ErrNotActive);
      }
      assert JobOk(View(), current.value);
      active := false;
      state := 0.0;
      var jc := current.value;
      jobs := jobs[jc := jobs[jc].(cancel := Shut(jobs[jc].cancel))];
      return current, None;
    }

    /** The section a job runs when it is over; the close of its done channel is a separate step. */
    method JobFinished(j: nat)
      requires Valid() && j < |jobs| && jobs[j].phase.Running?
      modifies this
      ensures Valid() && View() == Finished(old(View()), j) && options == old(options)
      ensures active <==> old(active) && old(jobs)[j].id != old(currentID)
      ensures state == (if active then 1.0 else 0.0) && jobs == old(jobs)[j := old(jobs)[j].(phase := SectionDone)]
    {
      StepKeepsBasic(View(), DoFinish(j));
      if jobs[j].id == currentID && active {
        active := false;
        state := 0.0;
      }
      jobs := jobs[j := jobs[j].(phase := SectionDone)];
    }

    method CloseDone(j: nat)
      requires Valid() && j < |jobs| && jobs[j].phase.SectionDone?
      modifies this
      ensures Valid() && View() == DoneClosed(old(View()), j) && options == old(options)
      ensures active == old(active) && |jobs| == |old(jobs)| && jobs[j].done.closed && jobs[j].done.faults == 0
      ensures forall i :: 0 <= i < |jobs| && i != j ==> jobs[i] == old(jobs)[i]
    {
      StepKeepsBasic(View(), DoCloseDone(j));
      assert JobOk(View(), j);
      jobs := jobs[j := jobs[j].(done := Shut(jobs[j].done), phase := Exited)];
    }

    /** Whether a job is active, and the newest job as normalized if there ever was one. */
    method Status() returns (isActive: bool, job: Option<Job>)
      requires Valid()
      ensures isActive == active
      ensures job == (if jobs == [] then None else Some(options[|jobs| - 1]))
    {
      if current.Some? {
        return active, Some(options[current.value]);
      }
      return false, None;
    }
  }
}
