/** What holds of the registry in every interleaving. */
module RegistryTheorems {
  import opened Options
  import opened RegistrySections
  import opened RegistryProtocol

  /**
   In every state of every run, a registered device is open and stored under its own id, the registry is within a
   positive limit, its gauge is its size, and no device's shutdown channel has been closed twice.
   */
  lemma RegistrySafety(run: seq<State>, steps: seq<Step>, i: nat)
    requires IsRun(run, steps) && i < |run|
    ensures var s := run[i];
            && (forall id :: id in s.data ==>
                  s.data[id] < |s.devs| && s.devs[s.data[id]].id == id && s.devs[s.data[id]].open)
            && (s.limit > 0 ==> |s.data| <= s.limit)
            && s.gauge == |s.data|
            && (forall d :: 0 <= d < |s.devs| ==> s.devs[d].shutdowns == (if s.devs[d].open then 0 else 1))
  {
    RunKeepsInv(run, steps, i);
    forall d | 0 <= d < |run[i].devs| ensures run[i].devs[d].shutdowns == (if run[i].devs[d].open then 0 else 1) {
      assert DevOk(run[i], d);
    }
  }

  /** No call is running. */
  predicate Quiescent(s: State) {
    forall o :: 0 <= o < |s.ops| ==> s.ops[o].todo == []
  }

  /** Whenever no call is running, connect + limitReached - disconnect is the number of registered devices. */
  lemma MetricConservation(run: seq<State>, steps: seq<Step>, i: nat)
    requires IsRun(run, steps) && i < |run| && Quiescent(run[i])
    ensures run[i].connect + run[i].limitReached - run[i].disconnect == |run[i].data|
  {
    var s := run[i];
    RunKeepsInv(run, steps, i);
    forall o | 0 <= o < |s.ops| ensures OwedBy(s.ops[o]) == 0 {
      assert OpOk(s, s.ops[o]);
    }
    NothingOwed(s.ops);
  }

  lemma {:induction false} NothingOwed(ops: seq<Op>)
    requires forall o :: 0 <= o < |ops| ==> OwedBy(ops[o]) == 0
    ensures OwedByAll(ops) == 0
  {
    if ops != [] {
      NothingOwed(ops[1..]);
    }
  }

  /** While calls are running, the difference is exactly what those calls have still to count. */
  lemma MetricBalance(run: seq<State>, steps: seq<Step>, i: nat)
    requires IsRun(run, steps) && i < |run|
    ensures run[i].connect + run[i].limitReached - run[i].disconnect == |run[i].data| - OwedByAll(run[i].ops)
  {
    RunKeepsInv(run, steps, i);
  }

  // ---------------------------------------------------------------- devices dropped without being closed

  /** d was added, is not registered, and yet is open with nobody about to close it. */
  ghost predicate Dropped(s: State, d: Handle)
    requires d < |s.devs|
  {
    d !in s.unadded && !Registered(s, d) && s.devs[d].open && !Doomed(s, d)
  }

  /** The step is removeIf's second look for another device than e, and it finds e under that device's id. */
  predicate BargesInto(s: State, step: Step, e: Handle) {
    && step.Continue? && step.o < |s.ops| && s.ops[step.o].todo != [] && s.ops[step.o].todo[0].Barge?
    && var d := s.ops[step.o].todo[0].d;
    d != e && d < |s.devs| && Lookup(s.data, s.devs[d].id) == Some(e)
  }

  /** The step is removeIf's second look for e itself, and it finds some device under e's id. */
  predicate BargesFor(s: State, step: Step, e: Handle) {
    && step.Continue? && step.o < |s.ops| && s.ops[step.o].todo != [] && s.ops[step.o].todo[0] == Barge(e)
    && e < |s.devs| && s.devs[e].id in s.data
  }

  /** A close that is on a list stays on one until it is done. */
  lemma DoomedUntilClosed(s: State, step: Step, e: Handle)
    requires Enabled(s, step) && e < |s.devs| && Doomed(s, e)
    ensures e < |Apply(s, step).devs| && (Doomed(Apply(s, step), e) || !Apply(s, step).devs[e].open)
  {
    var t := Apply(s, step);
    if step.Continue? {
      if s.ops[step.o].todo[0] != RequestClose(e) {
        DoomedStays(s, t, step.o, e);
      }
    } else {
      var o :| 0 <= o < |s.ops| && RequestClose(e) in s.ops[o].todo;
      assert t.ops[o] == s.ops[o];
    }
  }

  /** Nothing on a list closes a registered device. */
  lemma RegisteredIsNotDoomed(s: State, e: Handle)
    requires Inv(s) && Registered(s, e)
    ensures !Doomed(s, e)
  {
    forall o | 0 <= o < |s.ops| ensures RequestClose(e) !in s.ops[o].todo {
      assert OpOk(s, s.ops[o]);
    }
  }

  lemma OrphanedByBarge(s: State, step: Step, e: Handle)
    requires Enabled(s, step) && e !in s.orphans && e in Apply(s, step).orphans
    ensures BargesInto(s, step, e)
  {
  }

  /** An orphan that is dropped after a step was dropped before it. */
  lemma OrphansStayDropped(s: State, step: Step, e: Handle)
    requires Inv(s) && Enabled(s, step) && e in s.orphans && e < |s.devs|
    requires e < |Apply(s, step).devs| && Dropped(Apply(s, step), e)
    ensures Dropped(s, e)
  {
    if Doomed(s, e) {
      DoomedUntilClosed(s, step, e);
    }
    OnlyCloses(s, step, e);
  }

  lemma OnlyCloses(s: State, step: Step, e: Handle)
    requires Enabled(s, step) && e < |s.devs|
    ensures e < |Apply(s, step).devs| && (Apply(s, step).devs[e].open ==> s.devs[e].open)
  {
  }

  lemma OnlyBargesDrop(s: State, step: Step, e: Handle)
    requires Inv(s) && Enabled(s, step) && e < |s.devs| && !Dropped(s, e)
    requires e < |Apply(s, step).devs| && Dropped(Apply(s, step), e)
    ensures BargesInto(s, step, e)
  {
    StepKeepsInv(s, step);
    assert Accounted(Apply(s, step), e);
    if e in s.orphans {
      OrphansStayDropped(s, step, e);
    } else {
      OrphanedByBarge(s, step, e);
    }
  }

  lemma BargesDrop(s: State, step: Step, e: Handle)
    requires Inv(s) && Enabled(s, step) && BargesInto(s, step, e)
    ensures e < |s.devs| && !Dropped(s, e) && e < |Apply(s, step).devs| && Dropped(Apply(s, step), e)
  {
    var t := Apply(s, step);
    RegisteredIsNotDoomed(s, e);
    forall p | 0 <= p < |t.ops| ensures RequestClose(e) !in t.ops[p].todo {
      assert RequestClose(e) !in s.ops[p].todo;
    }
  }

  /**
   removeIf's second look is by id.  A step drops an open device exactly when it is such a second look and the id of
   the matched device is by then held by another device, and then it is that other device.
   */
  lemma DropsExactly(s: State, step: Step, e: Handle)
    requires Inv(s) && Enabled(s, step) && e < |s.devs|
    ensures e < |Apply(s, step).devs|
    ensures !Dropped(s, e) && Dropped(Apply(s, step), e) <==> BargesInto(s, step, e)
  {
    if BargesInto(s, step, e) {
      BargesDrop(s, step, e);
    } else if !Dropped(s, e) && Dropped(Apply(s, step), e) {
      OnlyBargesDrop(s, step, e);
    }
  }

  /**
   A dropped device is taken care of again exactly when a removeIf that matched it before it was dropped gets to its
   own second look for it and finds yet another device under its id.
   */
  lemma RescuedExactly(s: State, step: Step, e: Handle)
    requires Inv(s) && Enabled(s, step) && e < |s.devs| && Dropped(s, e)
    ensures e < |Apply(s, step).devs|
    ensures !Dropped(Apply(s, step), e) <==> BargesFor(s, step, e)
  {
    var t := Apply(s, step);
    if BargesFor(s, step, e) {
      assert t.ops[step.o].todo[0] == RequestClose(e);
    } else {
      StillOpen(s, step, e);
      if step.Continue? {
        OldCloses(s, step.o, e);
      } else {
        NewCloses(s, step, e);
      }
    }
  }

  lemma StillOpen(s: State, step: Step, e: Handle)
    requires Enabled(s, step) && e < |s.devs| && Dropped(s, e)
    ensures var t := Apply(s, step); e < |t.devs| && t.devs[e].open && !Registered(t, e) && e !in t.unadded
  {
    match step
    case Continue(o) => StillOpenAfter(s, o, e);
    case Create(_) =>
    case _ => assert Apply(s, step).devs == s.devs;
  }

  lemma StillOpenAfter(s: State, o: nat, e: Handle)
    requires o < |s.ops| && s.ops[o].todo != [] && e < |s.devs| && Dropped(s, e)
    ensures var t := Continued(s, o); e < |t.devs| && t.devs[e].open && !Registered(t, e) && e !in t.unadded
  {
    assert s.ops[o].todo[0] in s.ops[o].todo;
  }

  lemma OldCloses(s: State, o: nat, e: Handle)
    requires o < |s.ops| && s.ops[o].todo != [] && !Doomed(s, e) && !BargesFor(s, Continue(o), e)
    ensures !Doomed(Continued(s, o), e)
  {
    var t := Continued(s, o);
    forall p | 0 <= p < |t.ops| ensures RequestClose(e) !in t.ops[p].todo {
      assert RequestClose(e) !in s.ops[p].todo;
    }
  }

  /** A call puts a close on its list only for a device that it takes out of the map or does not let in. */
  lemma NewCloses(s: State, step: Step, e: Handle)
    requires Enabled(s, step) && !step.Continue? && !Registered(s, e) && e !in s.unadded && DataOk(s)
    ensures Doomed(Apply(s, step), e) ==> Doomed(s, e)
  {
    var t := Apply(s, step);
    if !step.Create? {
      NewList(s, step, e);
      OneMoreList(s, t, t.ops[|s.ops|], e);
    } else {
      assert t.ops == s.ops;
    }
  }

  lemma OneMoreList(s: State, t: State, op: Op, e: Handle)
    requires t.ops == s.ops + [op] && RequestClose(e) !in op.todo
    ensures Doomed(t, e) ==> Doomed(s, e)
  {
  }

  lemma NewList(s: State, step: Step, e: Handle)
    requires Enabled(s, step) && !step.Continue? && !step.Create? && !Registered(s, e) && e !in s.unadded && DataOk(s)
    ensures var t := Apply(s, step); |t.ops| == |s.ops| + 1 && RequestClose(e) !in t.ops[|s.ops|].todo
  {
    match step
    case Add(d) => AddCloses(s, d, e);
    case Remove(id) => RemoveCloses(s, id, e);
    case RemoveIf(_) =>
    case RemoveAll(order) => RemoveAllCloses(s, order, e);
  }

  lemma RemoveCloses(s: State, id: Id, e: Handle)
    requires !Registered(s, e) && DataOk(s)
    ensures |RemoveSection(s, id).ops| == |s.ops| + 1 && RequestClose(e) !in RemoveSection(s, id).ops[|s.ops|].todo
  {
    assert id in s.data ==> Registered(s, s.data[id]);
  }

  lemma RemoveAllCloses(s: State, order: seq<Handle>, e: Handle)
    requires e !in order
    ensures var t := RemoveAllSection(s, order);
            |t.ops| == |s.ops| + 1 && RequestClose(e) !in t.ops[|s.ops|].todo
  {
  }

  lemma AddCloses(s: State, d: Handle, e: Handle)
    requires d in s.unadded && d < |s.devs| && !Registered(s, e) && e !in s.unadded && DataOk(s)
    ensures |AddSection(s, d).ops| == |s.ops| + 1 && RequestClose(e) !in AddSection(s, d).ops[|s.ops|].todo
  {
    var id := s.devs[d].id;
    if id in s.data {
      assert Registered(s, s.data[id]) && s.data[id] != e;
    }
  }

  lemma DroppedBefore(s: State, step: Step, e: Handle)
    requires Inv(s) && Enabled(s, step) && e < |Apply(s, step).devs| && Dropped(Apply(s, step), e)
    ensures BargesInto(s, step, e) || (e < |s.devs| && Dropped(s, e))
  {
    if e < |s.devs| {
      DropsExactly(s, step, e);
    }
  }

  /** So whenever a device is dropped, some earlier second look for another device found it. */
  lemma {:induction false} DroppedByBarge(run: seq<State>, steps: seq<Step>, n: nat, e: Handle) returns (i: nat)
    requires IsRun(run, steps) && n < |run| && e < |run[n].devs| && Dropped(run[n], e)
    ensures i < n && BargesInto(run[i], steps[i], e)
  {
    if n == 0 {
      assert false;
    }
    DroppedAt(run, steps, n, e);
    if BargesInto(run[n - 1], steps[n - 1], e) {
      i := n - 1;
    } else {
      i := DroppedByBarge(run, steps, n - 1, e);
    }
  }

  lemma DroppedAt(run: seq<State>, steps: seq<Step>, n: nat, e: Handle)
    requires IsRun(run, steps) && 0 < n < |run| && e < |run[n].devs| && Dropped(run[n], e)
    ensures BargesInto(run[n - 1], steps[n - 1], e) || (e < |run[n - 1].devs| && Dropped(run[n - 1], e))
  {
    RunKeepsInv(run, steps, n - 1);
    assert StepAt(run, steps, n - 1);
    DroppedBefore(run[n - 1], steps[n - 1], e);
  }

  /** Without removeIf, every device passed to add is registered, closed, or about to be closed. */
  lemma NothingDropped(run: seq<State>, steps: seq<Step>, i: nat, d: Handle)
    requires IsRun(run, steps) && i < |run| && d < |run[i].devs| && d !in run[i].unadded
    requires forall k :: 0 <= k < |steps| ==> !steps[k].RemoveIf?
    ensures Registered(run[i], d) || !run[i].devs[d].open || Doomed(run[i], d)
    ensures Quiescent(run[i]) ==> (Registered(run[i], d) <==> run[i].devs[d].open)
  {
    RunKeepsInv(run, steps, i);
    NoOrphans(run, steps, i);
    assert Accounted(run[i], d);
  }

  predicate NoBarges(op: Op) {
    forall i :: 0 <= i < |op.todo| ==> !op.todo[i].Barge?
  }

  /** No call of removeIf is running and none has left an orphan. */
  predicate Plain(s: State) {
    s.orphans == {} && forall o :: 0 <= o < |s.ops| ==> NoBarges(s.ops[o])
  }

  lemma ContinueStaysPlain(s: State, o: nat)
    requires Plain(s) && o < |s.ops| && s.ops[o].todo != []
    ensures Plain(Continued(s, o))
  {
  }

  lemma StartStaysPlain(s: State, step: Step)
    requires Plain(s) && Enabled(s, step) && !step.Continue? && !step.RemoveIf?
    ensures Plain(Apply(s, step))
  {
    var t := Apply(s, step);
    if !step.Create? {
      StartsPlain(s, step);
      assert t.ops == s.ops + [t.ops[|s.ops|]];
    }
  }

  lemma StartsPlain(s: State, step: Step)
    requires Enabled(s, step) && !step.Continue? && !step.RemoveIf? && !step.Create?
    ensures |Apply(s, step).ops| == |s.ops| + 1 && NoBarges(Apply(s, step).ops[|s.ops|])
  {
    match step
    case Add(d) => AddIsPlain(d, Lookup(s.data, s.devs[d].id), OverLimit(s.data, s.limit, s.devs[d].id));
    case Remove(_) =>
    case RemoveAll(_) =>
  }

  lemma AddIsPlain(d: Handle, existing: Option<Handle>, refused: bool)
    ensures NoBarges(Op(AddList(d, existing, refused), 0))
  {
  }

  lemma {:induction false} NoOrphans(run: seq<State>, steps: seq<Step>, i: nat)
    requires IsRun(run, steps) && i < |run|
    requires forall k :: 0 <= k < |steps| ==> !steps[k].RemoveIf?
    ensures Plain(run[i])
  {
    if i > 0 {
      NoOrphans(run, steps, i - 1);
      assert StepAt(run, steps, i - 1);
      if steps[i - 1].Continue? {
        ContinueStaysPlain(run[i - 1], steps[i - 1].o);
      } else {
        StartStaysPlain(run[i - 1], steps[i - 1]);
      }
    }
  }

  lemma Extend(run: seq<State>, steps: seq<Step>, step: Step) returns (run': seq<State>, steps': seq<Step>)
    requires IsRun(run, steps) && Enabled(run[|steps|], step)
    ensures IsRun(run', steps') && |steps'| == |steps| + 1 && run'[|steps'|] == Apply(run[|steps|], step)
  {
    LongerRun(run, steps, step);
    run', steps' := run + [Apply(run[|steps|], step)], steps + [step];
  }

  /** Device 0 is registered and matched by removeIf. */
  lemma Matched(id: Id) returns (run: seq<State>, steps: seq<Step>)
    ensures IsRun(run, steps)
    ensures var s := run[|steps|];
            && s.devs == [Dev(id, true, 0)] && s.unadded == {} && s.data == map[id := 0] && s.limit == 0
            && s.ops == [Op([], 0), Op([Barge(0), CountRemoved], 0)]
  {
    run, steps := [Init(0)], [];
    run, steps := Extend(run, steps, Create(id));
    run, steps := Extend(run, steps, Add(0));
    assert run[|steps|].ops == [Op([CountConnect], 0)] && run[|steps|].data == map[id := 0];
    run, steps := Extend(run, steps, Continue(0));
    assert [CountConnect][1..] == [];
    assert Registered(run[|steps|], 0) && run[|steps|].ops == [Op([], 0)];
    run, steps := Extend(run, steps, RemoveIf([0]));
    assert Barges([0]) + [CountRemoved] == [Barge(0), CountRemoved];
  }

  const Replace := [CountDisconnect(1), CountDuplicate, RequestClose(0), CountConnect]

  /** Device 1 replaces it under the same id before removeIf looks again ... */
  lemma Replaced(id: Id) returns (run: seq<State>, steps: seq<Step>)
    ensures IsRun(run, steps)
    ensures var s := run[|steps|];
            && |s.devs| == 2 && s.devs[0].id == id && s.devs[1].open && s.unadded == {} && s.data == map[id := 1]
            && s.ops == [Op([], 0), Op([Barge(0), CountRemoved], 0), Op(Replace, 0)]
  {
    run, steps := Matched(id);
    run, steps := Extend(run, steps, Create(id));
    run, steps := Extend(run, steps, Add(1));
    assert run[|steps|].ops == [Op([], 0), Op([Barge(0), CountRemoved], 0), Op(Replace, 0)];
  }

  /** ... and is unregistered in its place. */
  lemma ReplacedThenBarged(id: Id) returns (run: seq<State>, steps: seq<Step>)
    ensures IsRun(run, steps)
    ensures var s := run[|steps|];
            && |s.devs| == 2 && s.devs[1].open && s.unadded == {} && s.data == map[]
            && s.ops == [Op([], 0), Op([RequestClose(0), CountRemoved], 1), Op(Replace, 0)]
  {
    run, steps := Replaced(id);
    run, steps := Extend(run, steps, Continue(1));
    assert [Barge(0), CountRemoved][1..] == [CountRemoved];
    assert [RequestClose(0)] + [CountRemoved] == [RequestClose(0), CountRemoved];
  }

  /** removeIf then closes device 0 and returns. */
  lemma RemoveIfReturns(id: Id) returns (run: seq<State>, steps: seq<Step>)
    ensures IsRun(run, steps)
    ensures var s := run[|steps|];
            && |s.devs| == 2 && s.devs[1].open && s.unadded == {} && s.data == map[]
            && s.ops == [Op([], 0), Op([], 0), Op(Replace, 0)]
  {
    run, steps := ReplacedThenBarged(id);
    run, steps := Extend(run, steps, Continue(1));
    assert [RequestClose(0), CountRemoved][1..] == [CountRemoved];
    assert run[|steps|].ops == [Op([], 0), Op([CountRemoved], 1), Op(Replace, 0)];
    run, steps := Extend(run, steps, Continue(1));
    assert [CountRemoved][1..] == [];
  }

  /** The call that added device 1 counts the duplicate. */
  lemma AddCounts(id: Id) returns (run: seq<State>, steps: seq<Step>)
    ensures IsRun(run, steps)
    ensures var s := run[|steps|];
            && |s.devs| == 2 && s.devs[1].open && s.unadded == {} && s.data == map[]
            && s.ops == [Op([], 0), Op([], 0), Op([RequestClose(0), CountConnect], 0)]
  {
    run, steps := RemoveIfReturns(id);
    run, steps := Extend(run, steps, Continue(2));
    assert Replace[1..] == [CountDuplicate, RequestClose(0), CountConnect];
    run, steps := Extend(run, steps, Continue(2));
    assert Replace[1..][1..] == [RequestClose(0), CountConnect];
  }

  /** The drop does happen: with no call running, device 1 is open and not registered. */
  lemma RemoveIfCanDrop(id: Id) returns (run: seq<State>, steps: seq<Step>)
    ensures IsRun(run, steps) && Quiescent(run[|steps|])
    ensures |run[|steps|].devs| == 2 && Dropped(run[|steps|], 1)
  {
    run, steps := AddCounts(id);
    run, steps := Extend(run, steps, Continue(2));
    assert [RequestClose(0), CountConnect][1..] == [CountConnect];
    run, steps := Extend(run, steps, Continue(2));
    assert [CountConnect][1..] == [];
    assert run[|steps|].ops == [Op([], 0), Op([], 0), Op([], 0)];
  }

  // ---------------------------------------------------------------- the late remove of a pump

  /**
   The pumps of device d end with one remove by id.  It unregisters another device exactly when d is not registered and
   its id is; and every device that it unregisters is about to be closed.
   */
  lemma LateRemove(s: State, d: Handle)
    requires Inv(s) && d < |s.devs|
    ensures var t := Apply(s, Remove(s.devs[d].id));
            && ((exists e: nat :: e != d && Registered(s, e) && !Registered(t, e)) <==>
                s.devs[d].id in s.data && !Registered(s, d))
            && (forall e: nat :: Registered(s, e) && !Registered(t, e) ==> Doomed(t, e))
  {
    var id := s.devs[d].id;
    var t := Apply(s, Remove(id));
    RemovedData(s, id);
    if id in s.data {
      assert Registered(s, s.data[id]);
      assert t.ops[|s.ops|].todo[1] == RequestClose(s.data[id]);
    }
  }

  lemma OnlyAddRegisters(s: State, step: Step, e: Handle)
    requires Inv(s) && Enabled(s, step) && !Registered(s, e) && Registered(Apply(s, step), e)
    ensures step == Add(e)
  {
    if step.Continue? {
      ContinueRegistersNone(s, step.o, e);
    }
  }

  lemma ContinueRegistersNone(s: State, o: nat, e: Handle)
    requires o < |s.ops| && s.ops[o].todo != [] && !Registered(s, e)
    ensures !Registered(Continued(s, o), e)
  {
  }

  lemma {:induction false} IdsStay(run: seq<State>, steps: seq<Step>, i: nat, n: nat, e: Handle)
    requires IsRun(run, steps) && i <= n < |run| && e < |run[i].devs|
    ensures e < |run[n].devs| && run[n].devs[e].id == run[i].devs[e].id
    decreases n
  {
    if i < n {
      IdsStay(run, steps, i, n - 1, e);
      assert StepAt(run, steps, n - 1);
      StepKeepsId(run[n - 1], steps[n - 1], e);
    }
  }

  lemma StepKeepsId(s: State, step: Step, e: Handle)
    requires Enabled(s, step) && e < |s.devs|
    ensures e < |Apply(s, step).devs| && Apply(s, step).devs[e].id == s.devs[e].id
  {
  }

  lemma {:induction false} RegisteredByAdd(run: seq<State>, steps: seq<Step>, i: nat, n: nat, e: Handle)
    returns (j: nat)
    requires IsRun(run, steps) && i <= n < |run| && !Registered(run[i], e) && Registered(run[n], e)
    ensures i <= j < n && steps[j] == Add(e)
    decreases n
  {
    RunKeepsInv(run, steps, n - 1);
    assert StepAt(run, steps, n - 1);
    if Registered(run[n - 1], e) {
      j := RegisteredByAdd(run, steps, i, n - 1, e);
    } else {
      OnlyAddRegisters(run[n - 1], steps[n - 1], e);
      j := n - 1;
    }
  }

  /** The device that it unregisters instead came later: it was added after d was registered. */
  lemma NewerWasAdded(run: seq<State>, steps: seq<Step>, i: nat, n: nat, d: Handle, e: Handle) returns (j: nat)
    requires IsRun(run, steps) && i <= n < |run| && Registered(run[i], d) && Registered(run[n], e) && e != d
    requires run[n].devs[e].id == run[i].devs[d].id
    ensures i <= j < n && steps[j] == Add(e)
  {
    if Registered(run[i], e) {
      IdsStay(run, steps, i, n, e);
    }
    j := RegisteredByAdd(run, steps, i, n, e);
  }

  /** It does happen: device 1 replaces device 0, and the late remove of device 0 unregisters device 1. */
  lemma LateRemoveCanHit(id: Id) returns (run: seq<State>, steps: seq<Step>)
    ensures IsRun(run, steps)
    ensures var s := run[|steps|];
            && |s.devs| == 2 && s.devs[0].id == id && Registered(s, 1)
            && !Registered(Apply(s, Remove(s.devs[0].id)), 1)
  {
    run, steps := [Init(0)], [];
    run, steps := Extend(run, steps, Create(id));
    run, steps := Extend(run, steps, Add(0));
    run, steps := Extend(run, steps, Create(id));
    run, steps := Extend(run, steps, Add(1));
  }

  // ---------------------------------------------------------------- the limit

  /** A device is let in exactly when its id is there already, there is no limit, or there is room below it. */
  lemma AddAdmits(s: State, d: Handle)
    requires Inv(s) && Enabled(s, Add(d))
    ensures Registered(Apply(s, Add(d)), d) <==> s.devs[d].id in s.data || s.limit <= 0 || |s.data| < s.limit
    ensures Apply(s, Add(d)).data == if Registered(Apply(s, Add(d)), d) then s.data[s.devs[d].id := d] else s.data
  {
  }

  function LongId(n: nat): Id {
    seq(n, _ => 'a')
  }

  /** So far n devices have been made and added, each under an id of its own, and nothing else was done. */
  ghost predicate Filled(s: State, n: nat) {
    && |s.devs| == n == |s.data|
    && (forall id :: id in s.data ==> |id| < n)
  }

  /** A limit can be used up: for every positive limit there is a run with as many devices registered. */
  lemma {:induction false} LimitIsReached(limit: int, n: nat) returns (run: seq<State>, steps: seq<Step>)
    requires 0 < limit && n <= limit
    ensures IsRun(run, steps) && run[|steps|].limit == limit && Filled(run[|steps|], n)
  {
    if n == 0 {
      run, steps := [Init(limit)], [];
    } else {
      run, steps := LimitIsReached(limit, n - 1);
      var s := run[|steps|];
      run, steps := Extend(run, steps, Create(LongId(n - 1)));
      run, steps := Extend(run, steps, Add(n - 1));
      OneMoreFilled(s, n - 1);
    }
  }

  lemma OneMoreFilled(s: State, n: nat)
    requires Filled(s, n) && n < s.limit
    ensures var t := Apply(s, Create(LongId(n)));
            Enabled(t, Add(n)) && Filled(Apply(t, Add(n)), n + 1) && Apply(t, Add(n)).limit == s.limit
  {
    var t := Apply(s, Create(LongId(n)));
    assert t.devs[n].id == LongId(n) && LongId(n) !in s.data;
    assert Apply(t, Add(n)).data == s.data[LongId(n) := n];
    assert s.data[LongId(n) := n].Keys == s.data.Keys + {LongId(n)};
  }
}
