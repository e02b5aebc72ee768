/**
 The four operations of the registry as the code has them, on an object that other goroutines change between any two
 of their sections, counters and closes.  The object remembers the run: the code takes the steps of the protocol and
 no others, in the order the protocol has them.
 */
module RegistryCode {
  import opened Options
  import opened Counting
  import opened RegistrySections
  import opened RegistryProtocol

  /** The step can be taken; said so that it can be decided. */
  predicate Possible(s: State, step: Step) {
    match step
    case Create(_) => true
    case Add(d) => d in s.unadded && d < |s.devs|
    case Remove(_) => true
    case RemoveIf(matched) =>
      && (forall i, j :: 0 <= i < j < |matched| ==> matched[i] != matched[j])
      && (forall d :: d in matched ==> Registered(s, d))
    case RemoveAll(order) =>
      && (forall i, j :: 0 <= i < j < |order| ==> order[i] != order[j])
      && (forall d :: d in order ==> Registered(s, d))
      && (forall d :: 0 <= d < |s.devs| && Registered(s, d) ==> d in order)
    case Continue(o) => o < |s.ops| && s.ops[o].todo != []
  }

  /** What the others leave as it was for call o: where it is, and that closed devices are closed. */
  ghost predicate Kept(o: nat, s: State, t: State) {
    && |s.devs| <= |t.devs| && |s.ops| <= |t.ops| && (o < |s.ops| ==> t.ops[o] == s.ops[o])
    && (forall d :: 0 <= d < |s.devs| ==> t.devs[d].id == s.devs[d].id && (!s.devs[d].open ==> !t.devs[d].open))
  }

  lemma OthersKeep(o: nat, s: State, step: Step)
    requires Enabled(s, step) && step != Continue(o)
    ensures o < |s.ops| ==> Kept(o, s, Apply(s, step))
  {
    if step.Continue? && o < |s.ops| {
      ContinueKeeps(o, s, step.o);
    }
  }

  lemma ContinueKeeps(o: nat, s: State, p: nat)
    requires p < |s.ops| && s.ops[p].todo != [] && p != o && o < |s.ops|
    ensures Kept(o, s, Continued(s, p))
  {
    var t := Continued(s, p);
    assert |t.ops| == |s.ops| && t.ops[o] == s.ops[o] && |t.devs| == |s.devs|;
    match s.ops[p].todo[0]
    case RequestClose(d) => assert d < |s.devs| ==> t.devs == s.devs[d := AfterRequestClose(s.devs[d])];
    case _ => assert t.devs == s.devs;
  }

  lemma KeptTwice(o: nat, s: State, t: State, u: State)
    requires Kept(o, s, t) && Kept(o, t, u)
    ensures Kept(o, s, u)
  {
  }

  lemma LimitStays(s: State, step: Step)
    requires Enabled(s, step)
    ensures Apply(s, step).limit == s.limit
  {
  }

  lemma IdsAgree(run: seq<State>, trace: seq<Step>)
    requires IsRun(run, trace)
    ensures forall id :: id in run[|trace|].data ==> run[|trace|].data[id] < |run[|trace|].devs|
  {
    RunKeepsInv(run, trace, |trace|);
  }

  /** A registered device is what the map has under its id. */
  lemma DataAgrees(run: seq<State>, trace: seq<Step>)
    requires IsRun(run, trace)
    ensures var s := run[|trace|]; forall id :: id in s.data ==> s.data[id] < |s.devs| && s.devs[s.data[id]].id == id
  {
    RunKeepsInv(run, trace, |trace|);
  }

  /** An enumeration of the registered devices is as long as the map. */
  lemma OrderCounts(run: seq<State>, trace: seq<Step>, order: seq<Handle>)
    requires IsRun(run, trace) && Distinct(order) && forall d :: d in order <==> Registered(run[|trace|], d)
    ensures |order| == |run[|trace|].data|
  {
    RunKeepsInv(run, trace, |trace|);
    RegisteredCount(run[|trace|], order);
  }

  lemma Unregistered(s: State, o: nat, d: Handle)
    requires o < |s.ops| && s.ops[o].todo != [] && s.ops[o].todo[0] == Barge(d)
    requires d < |s.devs| && s.devs[d].id in s.data
    ensures var id := s.devs[d].id;
            Apply(s, Continue(o)) ==
            State(s.limit, s.devs, s.unadded, s.data - {id}, |s.data - {id}|, s.connect, s.limitReached, s.disconnect,
                  s.duplicates, s.ops[o := Op([RequestClose(d)] + s.ops[o].todo[1..], s.ops[o].removed + 1)],
                  if s.data[id] == d then s.orphans else s.orphans + {s.data[id]})
  {
  }

  /** Step i is a second look of call o that finds some device under the id of the match. */
  ghost predicate HitAt(run: seq<State>, trace: seq<Step>, o: nat, i: nat) {
    && i < |trace| && i < |run| && trace[i] == Continue(o) && o < |run[i].ops|
    && run[i].ops[o].todo != [] && run[i].ops[o].todo[0].Barge?
    && var d := run[i].ops[o].todo[0].d;
    d < |run[i].devs| && run[i].devs[d].id in run[i].data
  }

  ghost function Hits(run: seq<State>, trace: seq<Step>, o: nat, from: nat): set<nat> {
    set i: nat | from <= i < |trace| && HitAt(run, trace, o, i)
  }

  /** The match of step i. */
  function MatchAt(run: seq<State>, trace: seq<Step>, o: nat, i: nat): Handle
    requires HitAt(run, trace, o, i)
  {
    run[i].ops[o].todo[0].d
  }

  /** From step `from` on, call o had so many second looks that hit, and the match of each is closed. */
  ghost predicate Tally(run: seq<State>, trace: seq<Step>, devs: seq<Dev>, o: nat, from: nat, count: nat) {
    && |Hits(run, trace, o, from)| == count
    && (forall i: nat :: from <= i < |trace| ==> MatchClosed(run, trace, devs, o, i))
  }

  /** There are no fewer devices and the closed ones are closed. */
  ghost predicate ClosedStay(devs: seq<Dev>, devs': seq<Dev>) {
    |devs| <= |devs'| && forall d :: 0 <= d < |devs| && !devs[d].open ==> !devs'[d].open
  }

  /** What the steps already taken were does not change. */
  lemma HitStays(run: seq<State>, trace: seq<Step>, run': seq<State>, trace': seq<Step>, o: nat, i: nat)
    requires i < |trace| < |run| && run <= run' && trace <= trace'
    ensures HitAt(run', trace', o, i) <==> HitAt(run, trace, o, i)
    ensures HitAt(run, trace, o, i) ==> MatchAt(run', trace', o, i) == MatchAt(run, trace, o, i)
  {
    assert run'[i] == run[i] && trace'[i] == trace[i];
  }

  ghost predicate MatchClosed(run: seq<State>, trace: seq<Step>, devs: seq<Dev>, o: nat, i: nat) {
    HitAt(run, trace, o, i) ==> MatchAt(run, trace, o, i) < |devs| && !devs[MatchAt(run, trace, o, i)].open
  }

  lemma MatchStaysClosed(run: seq<State>, trace: seq<Step>, devs: seq<Dev>, run': seq<State>, trace': seq<Step>,
                         devs': seq<Dev>, o: nat, i: nat)
    requires i < |trace| < |run| && run <= run' && trace <= trace' && ClosedStay(devs, devs')
    requires MatchClosed(run, trace, devs, o, i)
    ensures MatchClosed(run', trace', devs', o, i)
  {
    HitStays(run, trace, run', trace', o, i);
  }

  lemma TallyQuiet(run: seq<State>, trace: seq<Step>, devs: seq<Dev>, run': seq<State>, trace': seq<Step>,
                   devs': seq<Dev>, o: nat, from: nat, count: nat)
    requires Tally(run, trace, devs, o, from, count) && from <= |trace| < |run|
    requires run <= run' && trace <= trace' && ClosedStay(devs, devs')
    requires forall i :: |trace| <= i < |trace'| ==> !HitAt(run', trace', o, i)
    ensures Tally(run', trace', devs', o, from, count)
  {
    forall i: nat ensures i in Hits(run', trace', o, from) <==> i in Hits(run, trace, o, from) {
      if i < |trace| {
        HitStays(run, trace, run', trace', o, i);
      }
    }
    assert Hits(run', trace', o, from) == Hits(run, trace, o, from);
    forall i: nat | from <= i < |trace'| ensures MatchClosed(run', trace', devs', o, i) {
      if i < |trace| {
        MatchStaysClosed(run, trace, devs, run', trace', devs', o, i);
      }
    }
  }

  lemma TallyHit(run: seq<State>, trace: seq<Step>, devs: seq<Dev>, run': seq<State>, trace': seq<Step>,
                 devs': seq<Dev>, o: nat, from: nat, count: nat, d: Handle)
    requires Tally(run, trace, devs, o, from, count) && from <= |trace| < |run|
    requires run <= run' && trace <= trace' && ClosedStay(devs, devs')
    requires HitAt(run', trace', o, |trace|) && MatchAt(run', trace', o, |trace|) == d < |devs'| && !devs'[d].open
    requires forall i :: |trace| < i < |trace'| ==> !HitAt(run', trace', o, i)
    ensures Tally(run', trace', devs', o, from, count + 1)
  {
    var hits, hits' := Hits(run, trace, o, from), Hits(run', trace', o, from);
    forall i: nat ensures i in hits' <==> i in hits || i == |trace| {
      if i < |trace| {
        HitStays(run, trace, run', trace', o, i);
      }
    }
    assert hits' == hits + {|trace|};
    forall i: nat | from <= i < |trace'| ensures MatchClosed(run', trace', devs', o, i) {
      if i < |trace| {
        MatchStaysClosed(run, trace, devs, run', trace', devs', o, i);
      }
    }
  }

  lemma TallyStarts(run: seq<State>, trace: seq<Step>, devs: seq<Dev>, o: nat, from: nat)
    requires |trace| == from + 1 && !trace[from].Continue?
    ensures Tally(run, trace, devs, o, from, 0)
  {
    assert Hits(run, trace, o, from) == {};
  }

  lemma BargesRest(matched: seq<Handle>, i: nat)
    requires i < |matched|
    ensures Barges(matched[i..]) + [CountRemoved] == [Barge(matched[i])] + (Barges(matched[i + 1..]) + [CountRemoved])
  {
  }

  lemma ClosesRest(order: seq<Handle>, i: nat, last: Act)
    requires i < |order|
    ensures Closes(order[i..]) + [last] == [RequestClose(order[i])] + (Closes(order[i + 1..]) + [last])
  {
  }

  class Registry {
    const limit: int
    var devs: seq<Dev>
    var unadded: set<Handle>
    var data: map<Id, Handle>
    var gauge: int
    var connect: int
    var limitReached: int
    var disconnect: int
    var duplicates: int
    var ops: seq<Op>
    var orphans: set<Handle>
    ghost var trace: seq<Step>
    ghost var run: seq<State>

    function View(): State reads this {
      State(limit, devs, unadded, data, gauge, connect, limitReached, disconnect, duplicates, ops, orphans)
    }

    /** The object is in the last state of a run of the protocol. */
    ghost predicate Valid() reads this {
      IsRun(run, trace) && run[|trace|] == View()
    }

    /** The run got longer by this step.  With Valid before and after, the step was enabled and led to this state. */
    twostate predicate Did(step: Step) reads this {
      trace == old(trace) + [step] && run == old(run) + [View()]
    }

    constructor (limit: int)
      ensures Valid() && View() == Init(limit) && trace == []
    {
      this.limit := limit;
      devs, unadded, data, gauge, connect, limitReached, disconnect := [], {}, map[], 0, 0, 0, 0;
      duplicates, ops, orphans, trace, run := 0, [], {}, [], [Init(limit)];
    }

    /** Whatever the other goroutines do meanwhile. */
    method Interfere(o: nat)
      requires Valid() && o < |ops|
      modifies this
      ensures Valid() && old(trace) <= trace && old(run) <= run && Kept(o, old(View()), View())
      ensures forall i :: |old(trace)| <= i < |trace| ==> trace[i] != Continue(o)
    {
      var n: nat := *;
      while n > 0
        invariant Valid() && old(trace) <= trace && old(run) <= run && Kept(o, old(View()), View())
        invariant forall i :: |old(trace)| <= i < |trace| ==> trace[i] != Continue(o)
      {
        ghost var s := View();
        InterfereOnce(o);
        KeptTwice(o, old(View()), s, View());
        n := n - 1;
      }
    }

    method InterfereOnce(o: nat)
      requires Valid() && o < |ops|
      modifies this
      ensures Valid() && old(trace) <= trace && old(run) <= run && Kept(o, old(View()), View())
      ensures forall i :: |old(trace)| <= i < |trace| ==> trace[i] != Continue(o)
    {
      var step: Step := *;
      if Possible(View(), step) && step != Continue(o) {
        OthersKeep(o, View(), step);
        Perform(step);
      }
    }

    method Perform(step: Step)
      requires Valid() && Enabled(View(), step)
      modifies this
      ensures Valid() && Did(step) && View() == Apply(old(View()), step)
    {
      LongerRun(run, trace, step);
      LimitStays(View(), step);
      var t := Apply(View(), step);
      Become(t);
      run, trace := run + [t], trace + [step];
    }

    method Become(t: State)
      requires t.limit == limit
      modifies this
      ensures View() == t && run == old(run) && trace == old(trace)
    {
      devs, unadded, data, gauge := t.devs, t.unadded, t.data, t.gauge;
      connect, limitReached, disconnect, duplicates := t.connect, t.limitReached, t.disconnect, t.duplicates;
      ops, orphans := t.ops, t.orphans;
    }

    // -------------------------------------------------------------- counters and closes

    predicate Next(o: nat, act: Act) reads this {
      o < |ops| && ops[o].todo != [] && ops[o].todo[0] == act
    }

    /** The call goes on to what comes after its next act; the count is the one that act calls for. */
    method Count(o: nat, act: Act)
      requires Valid() && Next(o, act)
      requires act.CountLimit? || act.CountConnect? || act.CountDuplicate? || act.CountDisconnect?
      modifies this
      ensures Valid() && Did(Continue(o)) && o < |ops| && ops[o] == old(ops[o]).(todo := old(ops[o]).todo[1..])
      ensures devs == old(devs)
    {
      ghost var t := Apply(View(), Continue(o));
      LongerRun(run, trace, Continue(o));
      match act {
        case CountLimit => limitReached := limitReached + 1;
        case CountConnect => connect := connect + 1;
        case CountDuplicate => duplicates := duplicates + 1;
        case CountDisconnect(n) => disconnect := disconnect + n;
        case _ => assert false;
      }
      ops := ops[o := ops[o].(todo := ops[o].todo[1..])];
      assert View() == t;
      run, trace := run + [t], trace + [Continue(o)];
    }

    method Close(o: nat, d: Handle)
      requires Valid() && Next(o, RequestClose(d)) && d < |devs|
      modifies this
      ensures Valid() && Did(Continue(o)) && o < |ops| && ops[o] == old(ops[o]).(todo := old(ops[o]).todo[1..])
      ensures |devs| == |old(devs)| && !devs[d].open
      ensures forall e :: 0 <= e < |devs| && e != d ==> devs[e] == old(devs)[e]
    {
      ghost var t := Apply(View(), Continue(o));
      LongerRun(run, trace, Continue(o));
      if devs[d].open {
        devs := devs[d := devs[d].(open := false, shutdowns := devs[d].shutdowns + 1)];
      } else {
        assert devs == devs[d := devs[d]];
      }
      ops := ops[o := ops[o].(todo := ops[o].todo[1..])];
      assert View() == t;
      run, trace := run + [t], trace + [Continue(o)];
    }

    // -------------------------------------------------------------- add and remove

    /** The write-locked part of add; what is left to do is the list of the call. */
    method AddLocked(d: Handle) returns (o: nat, existing: Option<Handle>, refused: bool)
      requires Valid() && d in unadded && d < |devs|
      modifies this
      ensures Valid() && Did(Step.Add(d)) && o == |old(ops)| && o < |ops| && devs == old(devs)
      ensures existing == Lookup(old(data), devs[d].id) && (refused <==> OverLimit(old(data), limit, devs[d].id))
      ensures existing.Some? ==> existing.value < |devs|
      ensures ops[o].todo == AddList(d, existing, refused)
    {
      IdsAgree(run, trace);
      LongerRun(run, trace, Step.Add(d));
      o, existing, refused := PutIn(d);
      run, trace := run + [View()], trace + [Step.Add(d)];
    }

    method PutIn(d: Handle) returns (o: nat, existing: Option<Handle>, refused: bool)
      requires d in unadded && d < |devs|
      modifies this`unadded, this`data, this`gauge, this`ops
      ensures View() == Apply(old(View()), Step.Add(d)) && o == |old(ops)| && o < |ops|
      ensures existing == Lookup(old(data), devs[d].id) && (refused <==> OverLimit(old(data), limit, devs[d].id))
      ensures ops[o].todo == AddList(d, existing, refused)
    {
      var id := devs[d].id;
      o, existing, unadded := |ops|, Lookup(data, id), unadded - {d};
      refused := existing.None? && limit > 0 && |data| + 1 > limit;
      if !refused {
        data := data[id := d];
        gauge := |data|;
      }
      ops := ops + [Op(AddList(d, existing, refused), 0)];
    }

    /** add, with interference: a refused device, or the one that was replaced, is closed when it returns. */
    method Add(d: Handle) returns (o: nat, existing: Option<Handle>, refused: bool)
      requires Valid() && d in unadded && d < |devs|
      modifies this
      ensures Valid() && old(trace) + [Step.Add(d)] <= trace
      ensures o == |old(ops)| && o < |ops| && ops[o].todo == [] && |old(devs)| <= |devs|
      ensures !refused <==> old(devs[d]).id in old(data) || limit <= 0 || |old(data)| < limit
      ensures existing == if old(devs[d]).id in old(data) then Some(old(data)[old(devs[d]).id]) else None
      ensures refused ==> !devs[d].open
      ensures existing.Some? ==> existing.value < |devs| && !devs[existing.value].open
    {
      o, existing, refused := AddLocked(d);
      if refused {
        Refuse(o, d);
      } else {
        if existing.Some? {
          Replace(o, existing.value);
        }
        Interfere(o);
        Count(o, CountConnect);
      }
    }

    method Refuse(o: nat, d: Handle)
      requires Valid() && o < |ops| && ops[o].todo == [CountLimit, CountDisconnect(1), RequestClose(d)] && d < |devs|
      modifies this
      ensures Valid() && old(trace) <= trace && o < |ops| && ops[o].todo == [] && |old(devs)| <= |devs| && !devs[d].open
    {
      Interfere(o);
      Count(o, CountLimit);
      Interfere(o);
      Count(o, CountDisconnect(1));
      Interfere(o);
      Close(o, d);
    }

    method Replace(o: nat, existing: Handle)
      requires Valid() && o < |ops| && existing < |devs|
      requires ops[o].todo == [CountDisconnect(1), CountDuplicate, RequestClose(existing), CountConnect]
      modifies this
      ensures Valid() && old(trace) <= trace && o < |ops| && ops[o].todo == [CountConnect]
      ensures |old(devs)| <= |devs| && !devs[existing].open
    {
      Interfere(o);
      Count(o, CountDisconnect(1));
      Interfere(o);
      Count(o, CountDuplicate);
      Interfere(o);
      Close(o, existing);
    }

    method RemoveLocked(id: Id) returns (o: nat, existing: Option<Handle>)
      requires Valid()
      modifies this
      ensures Valid() && Did(Step.Remove(id)) && o == |old(ops)| && o < |ops| && devs == old(devs)
      ensures existing == Lookup(old(data), id) && (existing.Some? ==> existing.value < |devs|)
      ensures ops[o].todo == if existing.Some? then [CountDisconnect(1), RequestClose(existing.value)] else []
    {
      IdsAgree(run, trace);
      LongerRun(run, trace, Step.Remove(id));
      o, existing := TakeOff(id);
      run, trace := run + [View()], trace + [Step.Remove(id)];
    }

    method TakeOff(id: Id) returns (o: nat, existing: Option<Handle>)
      modifies this`data, this`gauge, this`ops
      ensures View() == Apply(old(View()), Step.Remove(id)) && o == |old(ops)| && o < |ops|
      ensures existing == Lookup(old(data), id)
      ensures ops[o].todo == if existing.Some? then [CountDisconnect(1), RequestClose(existing.value)] else []
    {
      o, existing := |ops|, Lookup(data, id);
      if existing.Some? {
        data := data - {id};
      } else {
        assert data - {id} == data;
      }
      gauge := |data|;
      ops := ops + [Op(if existing.Some? then [CountDisconnect(1), RequestClose(existing.value)] else [], 0)];
    }

    method Remove(id: Id) returns (o: nat, existing: Option<Handle>)
      requires Valid()
      modifies this
      ensures Valid() && old(trace) + [Step.Remove(id)] <= trace
      ensures o == |old(ops)| && o < |ops| && ops[o].todo == []
      ensures existing == Lookup(old(data), id)
      ensures existing.Some? ==> existing.value < |devs| && !devs[existing.value].open
    {
      o, existing := RemoveLocked(id);
      if existing.Some? {
        Interfere(o);
        Count(o, CountDisconnect(1));
        Interfere(o);
        Close(o, existing.value);
      }
    }

    // -------------------------------------------------------------- removeIf

    /** The read-locked scan: the registered devices that match, each once, in some order. */
    method Scan(f: Dev -> bool) returns (matched: seq<Handle>)
      requires Valid()
      ensures Distinct(matched) && forall d: nat :: d in matched <==> Registered(View(), d) && f(devs[d])
    {
      DataAgrees(run, trace);
      matched := [];
      var rest := data.Keys;
      while rest != {}
        invariant rest <= data.Keys && Distinct(matched)
        invariant forall d: nat :: d in matched <==> Registered(View(), d) && f(devs[d]) && devs[d].id !in rest
        decreases |rest|
      {
        var id :| id in rest;
        var d := data[id];
        if f(devs[d]) {
          matched := matched + [d];
        }
        rest := rest - {id};
      }
    }

    method RemoveIfLocked(f: Dev -> bool) returns (o: nat, matched: seq<Handle>)
      requires Valid()
      modifies this
      ensures Valid() && Did(Step.RemoveIf(matched)) && o == |old(ops)| && o < |ops| && devs == old(devs)
      ensures forall d: nat :: d in matched <==> Registered(old(View()), d) && f(devs[d])
      ensures ops[o] == Op(if matched == [] then [] else Barges(matched) + [CountRemoved], 0)
    {
      matched := Scan(f);
      ghost var t := Apply(View(), Step.RemoveIf(matched));
      LongerRun(run, trace, Step.RemoveIf(matched));
      o := |ops|;
      ops := ops + [Op(if matched == [] then [] else Barges(matched) + [CountRemoved], 0)];
      assert View() == t;
      run, trace := run + [t], trace + [Step.RemoveIf(matched)];
    }

    /** The write-locked part for one matched device, which looks for it by its id. */
    method BargeOne(o: nat, d: Handle) returns (ok: bool)
      requires Valid() && Next(o, Barge(d)) && d < |devs|
      modifies this
      ensures Valid() && Did(Continue(o)) && o < |ops| && devs == old(devs) && ok == (devs[d].id in old(data))
      ensures var rest := old(ops[o]).todo[1..];
              ops[o] == if ok then Op([RequestClose(d)] + rest, old(ops[o]).removed + 1) else old(ops[o]).(todo := rest)
    {
      ok := devs[d].id in data;
      if ok {
        Unregister(o, d);
      } else {
        Pass(o, d);
      }
    }

    method Pass(o: nat, d: Handle)
      requires Valid() && Next(o, Barge(d)) && d < |devs| && devs[d].id !in data
      modifies this
      ensures Valid() && Did(Continue(o)) && o < |ops| && devs == old(devs)
      ensures ops[o] == old(ops[o]).(todo := old(ops[o]).todo[1..])
    {
      ghost var t := Apply(View(), Continue(o));
      LongerRun(run, trace, Continue(o));
      ops := ops[o := ops[o].(todo := ops[o].todo[1..])];
      assert View() == t;
      run, trace := run + [t], trace + [Continue(o)];
    }

    method Unregister(o: nat, d: Handle)
      requires Valid() && Next(o, Barge(d)) && d < |devs| && devs[d].id in data
      modifies this
      ensures Valid() && Did(Continue(o)) && o < |ops| && devs == old(devs)
      ensures ops[o] == Op([RequestClose(d)] + old(ops[o]).todo[1..], old(ops[o]).removed + 1)
    {
      LongerRun(run, trace, Continue(o));
      TakeOut(o, d);
      run, trace := run + [View()], trace + [Continue(o)];
    }

    method TakeOut(o: nat, d: Handle)
      requires Next(o, Barge(d)) && d < |devs| && devs[d].id in data
      modifies this`data, this`gauge, this`orphans, this`ops
      ensures View() == Apply(old(View()), Continue(o))
      ensures ops == old(ops)[o := Op([RequestClose(d)] + old(ops)[o].todo[1..], old(ops)[o].removed + 1)]
    {
      ghost var t := Apply(View(), Continue(o));
      Unregistered(View(), o, d);
      var id := devs[d].id;
      orphans := if data[id] == d then orphans else orphans + {data[id]};
      data := data - {id};
      gauge := |data|;
      ops := ops[o := Op([RequestClose(d)] + ops[o].todo[1..], ops[o].removed + 1)];
      assert View() == t;
    }

    /** One turn of the loop over the matched devices. */
    method RemoveOne(o: nat, d: Handle, ghost rest: seq<Act>, ghost from: nat, ghost count: nat) returns (ok: bool)
      requires Valid() && o < |ops| && ops[o].todo == [Barge(d)] + rest && d < |devs|
      requires from <= |trace| && Tally(run, trace, devs, o, from, count)
      modifies this
      ensures Valid() && old(trace) <= trace && |old(devs)| <= |devs|
      ensures o < |ops| && ops[o] == Op(rest, old(ops[o]).removed + if ok then 1 else 0)
      ensures Tally(run, trace, devs, o, from, if ok then count + 1 else count)
    {
      Interfere(o);
      TallyQuiet(old(run), old(trace), old(devs), run, trace, devs, o, from, count);
      ghost var run0, trace0, devs0 := run, trace, devs;
      ok := BargeOne(o, d);
      if ok {
        CloseHit(o, d, rest);
        TallyHit(run0, trace0, devs0, run, trace, devs, o, from, count, d);
      } else {
        TallyQuiet(run0, trace0, devs0, run, trace, devs, o, from, count);
      }
    }

    /** The close of a match whose second look found something. */
    method CloseHit(o: nat, d: Handle, ghost rest: seq<Act>)
      requires Valid() && o < |ops| && ops[o].todo == [RequestClose(d)] + rest && d < |devs|
      modifies this
      ensures Valid() && old(trace) <= trace && old(run) <= run && ClosedStay(old(devs), devs) && !devs[d].open
      ensures o < |ops| && ops[o] == Op(rest, old(ops[o]).removed)
      ensures forall i :: |old(trace)| <= i < |trace| ==> !HitAt(run, trace, o, i)
    {
      Interfere(o);
      Close(o, d);
    }

    /** The counter moves by the number of devices removed, if there are any. */
    method CountAll(o: nat, count: nat)
      requires Valid() && Next(o, CountRemoved) && ops[o].removed == count
      modifies this
      ensures Valid() && Did(Continue(o)) && o < |ops| && ops[o] == Op(old(ops[o]).todo[1..], 0) && devs == old(devs)
    {
      ghost var t := Apply(View(), Continue(o));
      LongerRun(run, trace, Continue(o));
      if count > 0 {
        disconnect := disconnect + count;
      }
      ops := ops[o := Op(ops[o].todo[1..], 0)];
      assert View() == t;
      run, trace := run + [t], trace + [Continue(o)];
    }

    /** removeIf, with interference; `matched` is what its scan found. */
    method RemoveIf(f: Dev -> bool) returns (o: nat, count: nat, matched: seq<Handle>)
      requires Valid()
      modifies this
      ensures Valid() && old(trace) + [Step.RemoveIf(matched)] <= trace
      ensures o == |old(ops)| && o < |ops| && ops[o].todo == [] && count <= |matched|
      ensures forall d: nat :: d in matched <==> Registered(old(View()), d) && f(old(devs)[d])
      ensures Tally(run, trace, devs, o, |old(trace)|, count)
    {
      o, matched := RemoveIfLocked(f);
      ghost var from := |old(trace)|;
      TallyStarts(run, trace, devs, o, from);
      count := 0;
      if |matched| == 0 {
        return;
      }
      count := RemoveEach(o, matched, from);
      CountLater(o, count, from);
    }

    /** removeIf's last step, after whatever the others do. */
    method CountLater(o: nat, count: nat, ghost from: nat)
      requires Valid() && o < |ops| && ops[o] == Op([CountRemoved], count)
      requires from <= |trace| && Tally(run, trace, devs, o, from, count)
      modifies this
      ensures Valid() && old(trace) <= trace && o < |ops| && ops[o].todo == []
      ensures Tally(run, trace, devs, o, from, count)
    {
      Interfere(o);
      CountAll(o, count);
      TallyQuiet(old(run), old(trace), old(devs), run, trace, devs, o, from, count);
    }

    method RemoveEach(o: nat, matched: seq<Handle>, ghost from: nat) returns (count: nat)
      requires Valid() && o < |ops| && ops[o] == Op(Barges(matched) + [CountRemoved], 0)
      requires forall d :: d in matched ==> d < |devs|
      requires from <= |trace| && Tally(run, trace, devs, o, from, 0)
      modifies this
      ensures Valid() && old(trace) <= trace && count <= |matched| && Tally(run, trace, devs, o, from, count)
      ensures o < |ops| && ops[o] == Op([CountRemoved], count)
    {
      count := 0;
      var i := 0;
      assert matched[0..] == matched;
      while i < |matched|
        invariant 0 <= i <= |matched| && count <= i && Valid() && |old(devs)| <= |devs| && old(trace) <= trace
        invariant o < |ops| && ops[o] == Op(Barges(matched[i..]) + [CountRemoved], count)
        invariant Tally(run, trace, devs, o, from, count)
      {
        BargesRest(matched, i);
        assert matched[i] in matched;
        var ok := RemoveOne(o, matched[i], Barges(matched[i + 1..]) + [CountRemoved], from, count);
        if ok {
          count := count + 1;
        }
        i := i + 1;
      }
      assert Barges(matched[i..]) + [CountRemoved] == [CountRemoved];
    }

    // -------------------------------------------------------------- removeAll

    method RemoveAllLocked() returns (o: nat, order: seq<Handle>)
      requires Valid()
      modifies this
      ensures Valid() && Did(Step.RemoveAll(order)) && o == |old(ops)| && o < |ops| && devs == old(devs)
      ensures |order| == |old(data)| && forall d: nat :: d in order <==> Registered(old(View()), d)
      ensures ops[o] == Op(Closes(order) + [CountDisconnect(|order|)], 0)
    {
      order := Scan(_ => true);
      OrderCounts(run, trace, order);
      ghost var t := Apply(View(), Step.RemoveAll(order));
      LongerRun(run, trace, Step.RemoveAll(order));
      o := |ops|;
      data, gauge := map[], 0;
      ops := ops + [Op(Closes(order) + [CountDisconnect(|order|)], 0)];
      assert View() == t;
      run, trace := run + [t], trace + [Step.RemoveAll(order)];
    }

    /** removeAll, with interference: every device that was registered is closed when it returns. */
    method RemoveAll() returns (o: nat, count: nat)
      requires Valid()
      modifies this
      ensures Valid() && old(trace) <= trace && |old(trace)| < |trace| && trace[|old(trace)|].RemoveAll?
      ensures o == |old(ops)| && o < |ops| && ops[o].todo == [] && count == |old(data)|
      ensures forall d: nat :: Registered(old(View()), d) ==> d < |devs| && !devs[d].open
    {
      var order;
      o, order := RemoveAllLocked();
      count := |order|;
      CloseEach(o, order);
      Interfere(o);
      Count(o, CountDisconnect(|order|));
    }

    method CloseEach(o: nat, order: seq<Handle>)
      requires Valid() && o < |ops| && ops[o] == Op(Closes(order) + [CountDisconnect(|order|)], 0)
      requires forall d :: d in order ==> d < |devs|
      modifies this
      ensures Valid() && old(trace) <= trace
      ensures o < |ops| && ops[o] == Op([CountDisconnect(|order|)], 0)
      ensures forall d :: d in order ==> d < |devs| && !devs[d].open
    {
      var i := 0;
      assert order[0..] == order;
      while i < |order|
        invariant 0 <= i <= |order| && Valid() && old(trace) <= trace && |old(devs)| <= |devs|
        invariant o < |ops| && ops[o] == Op(Closes(order[i..]) + [CountDisconnect(|order|)], 0)
        invariant forall j :: 0 <= j < i ==> order[j] < |devs| && !devs[order[j]].open
      {
        assert order[i] in order;
        CloseNext(o, order, i);
        i := i + 1;
      }
      assert Closes(order[i..]) + [CountDisconnect(|order|)] == [CountDisconnect(|order|)];
    }

    method CloseNext(o: nat, order: seq<Handle>, i: nat)
      requires Valid() && i < |order| && order[i] < |devs|
      requires o < |ops| && ops[o] == Op(Closes(order[i..]) + [CountDisconnect(|order|)], 0)
      modifies this
      ensures Valid() && old(trace) <= trace && |old(devs)| <= |devs|
      ensures o < |ops| && ops[o] == Op(Closes(order[i + 1..]) + [CountDisconnect(|order|)], 0)
      ensures !devs[order[i]].open && forall d :: 0 <= d < |old(devs)| && !old(devs)[d].open ==> !devs[d].open
    {
      ClosesRest(order, i, CountDisconnect(|order|));
      Interfere(o);
      Close(o, order[i]);
    }
  }
}
