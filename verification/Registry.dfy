/** The lock-protected sections of the device registry, as functions on its map. */
module RegistrySections {
  import opened Options

  type Id = string

  function Lookup<V>(data: map<Id, V>, id: Id): Option<V> {
    if id in data then Some(data[id]) else None
  }

  /** A new id would take the registry over its limit; a limit that is not positive does not bound it. */
  predicate OverLimit<V>(data: map<Id, V>, limit: int, id: Id) {
    id !in data && limit > 0 && |data| + 1 > limit
  }

  function Added<V>(data: map<Id, V>, limit: int, id: Id, v: V): map<Id, V> {
    if OverLimit(data, limit, id) then data else data[id := v]
  }

  function Removed<V>(data: map<Id, V>, id: Id): map<Id, V> {
    data - {id}
  }

  lemma AddedSize<V>(data: map<Id, V>, limit: int, id: Id, v: V)
    ensures !OverLimit(data, limit, id) ==> |Added(data, limit, id, v)| == |data| + (if id in data then 0 else 1)
    ensures limit > 0 && |data| <= limit ==> |Added(data, limit, id, v)| <= limit
  {
  }

  lemma RemovedSize<V>(data: map<Id, V>, id: Id)
    ensures |Removed(data, id)| == |data| - (if id in data then 1 else 0)
  {
  }
}

/**
 The registry under concurrent use.  Each running call of add, remove, removeIf or removeAll is an Op: the list
 of what it has still to do after its last lock-protected section.  A step starts a call, which runs its first
 section, or does the next thing on the list of a running call.
 */
module RegistryProtocol {
  import opened Options
  import opened Counting
  import opened RegistrySections

  type Handle = nat

  /** `shutdowns` counts how often the device's shutdown channel was closed. */
  datatype Dev = Dev(id: Id, open: bool, shutdowns: nat)

  datatype Act =
    | CountLimit
    | CountConnect
    | CountDuplicate
    | CountDisconnect(n: nat)
    | RequestClose(d: Handle)
    | Barge(d: Handle)      // removeIf's write-locked section for one matched device
    | CountRemoved          // removeIf's disconnect.Add(count), when count is positive

  datatype Op = Op(todo: seq<Act>, removed: nat)

  /** `unadded` are the devices made but not passed to add yet; `orphans` is history. */
  datatype State = State(
    limit: int,
    devs: seq<Dev>,
    unadded: set<Handle>,
    data: map<Id, Handle>,
    gauge: int,
    connect: int,
    limitReached: int,
    disconnect: int,
    duplicates: int,
    ops: seq<Op>,
    orphans: set<Handle>)

  function Init(limit: int): State {
    State(limit, [], {}, map[], 0, 0, 0, 0, 0, [], {})
  }

  datatype Step =
    | Create(id: Id)
    | Add(d: Handle)
    | Remove(id: Id)
    | RemoveIf(matched: seq<Handle>)
    | RemoveAll(order: seq<Handle>)
    | Continue(o: nat)

  predicate Registered(s: State, d: Handle) {
    d < |s.devs| && Lookup(s.data, s.devs[d].id) == Some(d)
  }

  /** removeIf may match any registered devices and removeAll must visit all, both in any order. */
  ghost predicate Enabled(s: State, step: Step) {
    match step
    case Create(_) => true
    case Add(d) => d in s.unadded && d < |s.devs|
    case Remove(_) => true
    case RemoveIf(matched) => Distinct(matched) && forall d :: d in matched ==> Registered(s, d)
    case RemoveAll(order) => Distinct(order) && forall d :: d in order <==> Registered(s, d)
    case Continue(o) => o < |s.ops| && s.ops[o].todo != []
  }

  function Start(s: State, todo: seq<Act>): State {
    s.(ops := s.ops + [Op(todo, 0)])
  }

  /** What add has still to do after its section. */
  function AddList(d: Handle, existing: Option<Handle>, refused: bool): seq<Act> {
    if refused then [CountLimit, CountDisconnect(1), RequestClose(d)]
    else if existing.None? then [CountConnect]
    else [CountDisconnect(1), CountDuplicate, RequestClose(existing.value), CountConnect]
  }

  function AddSection(s: State, d: Handle): State
    requires d < |s.devs|
  {
    var id := s.devs[d].id;
    var refused := OverLimit(s.data, s.limit, id);
    var data := Added(s.data, s.limit, id, d);
    Start(s.(unadded := s.unadded - {d}, data := data, gauge := if refused then s.gauge else |data|),
          AddList(d, Lookup(s.data, id), refused))
  }

  function RemoveSection(s: State, id: Id): State {
    var existing := Lookup(s.data, id);
    var data := Removed(s.data, id);
    var t := s.(data := data, gauge := |data|);
    Start(t, if existing.Some? then [CountDisconnect(1), RequestClose(existing.value)] else [])
  }

  function Barges(matched: seq<Handle>): seq<Act> {
    seq(|matched|, i requires 0 <= i < |matched| => Barge(matched[i]))
  }

  function Closes(order: seq<Handle>): seq<Act> {
    seq(|order|, i requires 0 <= i < |order| => RequestClose(order[i]))
  }

  function RemoveIfSection(s: State, matched: seq<Handle>): State {
    Start(s, if matched == [] then [] else Barges(matched) + [CountRemoved])
  }

  function RemoveAllSection(s: State, order: seq<Handle>): State {
    Start(s.(data := map[], gauge := 0), Closes(order) + [CountDisconnect(|order|)])
  }

  /** requestClose: the compare-and-swap lets only the first caller through to close the channel. */
  function AfterRequestClose(v: Dev): Dev {
    if v.open then v.(open := false, shutdowns := v.shutdowns + 1) else v
  }

  function BargeSection(s: State, o: nat, d: Handle, rest: seq<Act>): State
    requires o < |s.ops|
  {
    if d < |s.devs| && s.devs[d].id in s.data then
      var id := s.devs[d].id;
      var data := Removed(s.data, id);
      s.(data := data, gauge := |data|,
         orphans := if s.data[id] == d then s.orphans else s.orphans + {s.data[id]},
         ops := s.ops[o := Op([RequestClose(d)] + rest, s.ops[o].removed + 1)])
    else s.(ops := s.ops[o := s.ops[o].(todo := rest)])
  }

  function Continued(s: State, o: nat): State
    requires o < |s.ops| && s.ops[o].todo != []
  {
    var rest := s.ops[o].todo[1..];
    var t := s.(ops := s.ops[o := s.ops[o].(todo := rest)]);
    match s.ops[o].todo[0]
    case CountLimit => t.(limitReached := s.limitReached + 1)
    case CountConnect => t.(connect := s.connect + 1)
    case CountDuplicate => t.(duplicates := s.duplicates + 1)
    case CountDisconnect(n) => t.(disconnect := s.disconnect + n)
    case RequestClose(d) => if d < |s.devs| then t.(devs := s.devs[d := AfterRequestClose(s.devs[d])]) else t
    case Barge(d) => BargeSection(s, o, d, rest)
    case CountRemoved => t.(disconnect := s.disconnect + s.ops[o].removed, ops := s.ops[o := Op(rest, 0)])
  }

  function Apply(s: State, step: Step): State
    requires Enabled(s, step)
  {
    match step
    case Create(id) => s.(devs := s.devs + [Dev(id, true, 0)], unadded := s.unadded + {|s.devs|})
    case Add(d) => AddSection(s, d)
    case Remove(id) => RemoveSection(s, id)
    case RemoveIf(matched) => RemoveIfSection(s, matched)
    case RemoveAll(order) => RemoveAllSection(s, order)
    case Continue(o) => Continued(s, o)
  }

  /** Step number i of a run: it could be taken, and it led to the next state. */
  ghost predicate StepAt(run: seq<State>, steps: seq<Step>, i: nat) {
    i < |steps| && i + 1 < |run| && Enabled(run[i], steps[i]) && run[i + 1] == Apply(run[i], steps[i])
  }

  ghost predicate IsRun(run: seq<State>, steps: seq<Step>) {
    && |run| == |steps| + 1
    && run[0] == Init(run[0].limit)
    && (forall i: nat :: i < |steps| ==> StepAt(run, steps, i))
  }

  lemma LongerRun(run: seq<State>, steps: seq<Step>, step: Step)
    requires IsRun(run, steps) && Enabled(run[|steps|], step)
    ensures IsRun(run + [Apply(run[|steps|], step)], steps + [step])
  {
    var run', steps' := run + [Apply(run[|steps|], step)], steps + [step];
    forall i: nat | i < |steps'| ensures StepAt(run', steps', i) {
      if i < |steps| {
        assert StepAt(run, steps, i);
        StepStays(run, steps, run', steps', i);
      } else {
        StepTaken(run', steps', i);
      }
    }
  }

  lemma StepTaken(run: seq<State>, steps: seq<Step>, i: nat)
    requires i < |steps| && i + 1 < |run| && Enabled(run[i], steps[i])
    requires run[i + 1] == Apply(run[i], steps[i])
    ensures StepAt(run, steps, i)
  {
  }

  lemma StepStays(run: seq<State>, steps: seq<Step>, run': seq<State>, steps': seq<Step>, i: nat)
    requires StepAt(run, steps, i) && i < |steps'| && i + 1 < |run'|
    requires run'[i] == run[i] && steps'[i] == steps[i] && run'[i + 1] == run[i + 1]
    ensures StepAt(run', steps', i)
  {
  }

  // ---------------------------------------------------------------- the invariant: devices

  /** Someone's list says to close d. */
  ghost predicate Doomed(s: State, d: Handle) {
    exists o :: 0 <= o < |s.ops| && RequestClose(d) in s.ops[o].todo
  }

  ghost predicate DataOk(s: State) {
    && (forall id :: id in s.data ==>
          s.data[id] < |s.devs| && s.devs[s.data[id]].id == id && s.devs[s.data[id]].open
          && s.data[id] !in s.unadded && s.data[id] !in s.orphans)
    && (s.limit > 0 ==> |s.data| <= s.limit)
    && s.gauge == |s.data|
  }

  predicate DevOk(s: State, d: Handle)
    requires d < |s.devs|
  {
    && s.devs[d].shutdowns == (if s.devs[d].open then 0 else 1)
    && (d in s.unadded ==> s.devs[d].open)
  }

  /** Nothing on a list closes a device that is registered or still to be added. */
  predicate ActOk(s: State, a: Act) {
    match a
    case RequestClose(d) => d < |s.devs| && !Registered(s, d) && d !in s.unadded
    case Barge(d) => d < |s.devs| && d !in s.unadded
    case _ => true
  }

  ghost predicate OpOk(s: State, op: Op) {
    && (forall a :: a in op.todo ==> ActOk(s, a))
    && (op.removed > 0 || (exists a :: a in op.todo && a.Barge?) ==>
          |op.todo| > 0 && op.todo[|op.todo| - 1] == CountRemoved)
  }

  /** Where a device can be: not added yet, registered, closed, about to be closed, or orphaned. */
  ghost predicate Accounted(s: State, d: Handle)
    requires d < |s.devs|
  {
    d in s.unadded || Registered(s, d) || !s.devs[d].open || Doomed(s, d) || d in s.orphans
  }

  ghost predicate Inv(s: State) {
    && DataOk(s)
    && (forall d :: d in s.unadded ==> d < |s.devs| && d !in s.orphans)
    && (forall d :: d in s.orphans ==> d < |s.devs|)
    && (forall d :: 0 <= d < |s.devs| ==> DevOk(s, d) && Accounted(s, d))
    && (forall o :: 0 <= o < |s.ops| ==> OpOk(s, s.ops[o]))
    && Balanced(s)
  }

  // ---------------------------------------------------------------- the invariant: counters

  function Weight(a: Act): int {
    match a
    case CountLimit => 1
    case CountConnect => 1
    case CountDisconnect(n) => 0 - n
    case _ => 0
  }

  /** What the rest of a call will add to connect + limitReached - disconnect. */
  function Owed(todo: seq<Act>): int {
    if todo == [] then 0 else Weight(todo[0]) + Owed(todo[1..])
  }

  function OwedBy(op: Op): int {
    Owed(op.todo) - op.removed
  }

  function OwedByAll(ops: seq<Op>): int {
    if ops == [] then 0 else OwedBy(ops[0]) + OwedByAll(ops[1..])
  }

  predicate Balanced(s: State) {
    s.connect + s.limitReached - s.disconnect + OwedByAll(s.ops) == |s.data|
  }

  lemma {:induction false} OwedAppend(a: seq<Act>, b: seq<Act>)
    ensures Owed(a + b) == Owed(a) + Owed(b)
  {
    if a == [] {
      assert a + b == b;
    } else {
      OwedAppend(a[1..], b);
      assert (a + b)[1..] == a[1..] + b;
    }
  }

  lemma {:induction false} OwedNothing(todo: seq<Act>)
    requires forall a :: a in todo ==> Weight(a) == 0
    ensures Owed(todo) == 0
  {
    if todo != [] {
      OwedNothing(todo[1..]);
    }
  }

  lemma {:induction false} OwedByMore(ops: seq<Op>, op: Op)
    ensures OwedByAll(ops + [op]) == OwedByAll(ops) + OwedBy(op)
  {
    if ops == [] {
      assert ops + [op] == [op];
    } else {
      OwedByMore(ops[1..], op);
      assert (ops + [op])[1..] == ops[1..] + [op];
    }
  }

  lemma {:induction false} OwedByUpdate(ops: seq<Op>, o: nat, op: Op)
    requires o < |ops|
    ensures OwedByAll(ops[o := op]) == OwedByAll(ops) - OwedBy(ops[o]) + OwedBy(op)
  {
    if o > 0 {
      OwedByUpdate(ops[1..], o - 1, op);
      assert ops[o := op][1..] == ops[1..][o - 1 := op];
    } else {
      assert ops[o := op][1..] == ops[1..];
    }
  }

  // ---------------------------------------------------------------- starting a call

  /** A call was started: its list is the new one, and the map may have changed in its first section. */
  lemma StartKeepsInv(s: State, t: State, todo: seq<Act>)
    requires Inv(s) && t.ops == s.ops + [Op(todo, 0)] && DataOk(t) && t.devs == s.devs
    requires t.unadded <= s.unadded && t.orphans == s.orphans
    requires forall d :: Registered(t, d) ==> Registered(s, d) || d in s.unadded - t.unadded
    requires forall d :: 0 <= d < |s.devs| && (Registered(s, d) || d in s.unadded) ==>
               d in t.unadded || Registered(t, d) || RequestClose(d) in todo
    requires OpOk(t, Op(todo, 0))
    requires t.connect == s.connect && t.limitReached == s.limitReached && t.disconnect == s.disconnect
    requires |t.data| == |s.data| + Owed(todo)
    ensures Inv(t)
  {
    OwedByMore(s.ops, Op(todo, 0));
    assert t.ops[|s.ops|].todo == todo;
    forall o | 0 <= o < |t.ops| ensures OpOk(t, t.ops[o]) {
      if o < |s.ops| {
        assert OpOk(s, s.ops[o]) && t.ops[o] == s.ops[o];
        forall a | a in t.ops[o].todo ensures ActOk(t, a) {
          assert ActOk(s, a);
        }
      }
    }
    forall d | 0 <= d < |t.devs| ensures DevOk(t, d) && Accounted(t, d) {
      assert DevOk(s, d) && Accounted(s, d);
      if Doomed(s, d) {
        var o :| 0 <= o < |s.ops| && RequestClose(d) in s.ops[o].todo;
        assert t.ops[o] == s.ops[o];
      }
    }
  }

  /** Refusing and replacing owe nothing on balance; removing owes one disconnect. */
  lemma OwedLists(d: Handle)
    ensures Owed([CountLimit, CountDisconnect(1), RequestClose(d)]) == 0
    ensures Owed([CountDisconnect(1), CountDuplicate, RequestClose(d), CountConnect]) == 0
    ensures Owed([CountDisconnect(1), RequestClose(d)]) == -1
    ensures Owed([CountConnect]) == 1
  {
    OwedAppend([CountDisconnect(1)], [RequestClose(d)]);
    assert [CountDisconnect(1)] + [RequestClose(d)] == [CountDisconnect(1), RequestClose(d)];
    OwedAppend([CountLimit], [CountDisconnect(1), RequestClose(d)]);
    assert [CountLimit] + [CountDisconnect(1), RequestClose(d)] == [CountLimit, CountDisconnect(1), RequestClose(d)];
    OwedNothing([CountDuplicate, RequestClose(d)]);
    OwedAppend([CountDisconnect(1)], [CountDuplicate, RequestClose(d)]);
    OwedAppend([CountDisconnect(1)] + [CountDuplicate, RequestClose(d)], [CountConnect]);
    assert [CountDisconnect(1)] + [CountDuplicate, RequestClose(d)] + [CountConnect]
        == [CountDisconnect(1), CountDuplicate, RequestClose(d), CountConnect];
  }

  /** The list of a call that matched nothing: it holds no second look. */
  lemma PlainListOk(s: State, todo: seq<Act>)
    requires forall i :: 0 <= i < |todo| ==> ActOk(s, todo[i]) && !todo[i].Barge?
    ensures OpOk(s, Op(todo, 0))
  {
  }

  lemma RefusedAddKeepsInv(s: State, d: Handle)
    requires Inv(s) && Enabled(s, Add(d)) && OverLimit(s.data, s.limit, s.devs[d].id)
    ensures Inv(AddSection(s, d))
  {
    var todo := [CountLimit, CountDisconnect(1), RequestClose(d)];
    OwedLists(d);
    assert todo[2] == RequestClose(d);
    assert DevOk(s, d);
    StartKeepsInv(s, AddSection(s, d), todo);
  }

  /** The map after a successful add holds the new device and everything but the one it replaced. */
  lemma AddedData(s: State, d: Handle)
    requires DataOk(s) && Enabled(s, Add(d)) && !OverLimit(s.data, s.limit, s.devs[d].id)
    requires s.devs[d].open && d !in s.orphans
    ensures var t := AddSection(s, d);
            && DataOk(t) && Registered(t, d)
            && (forall e: nat :: Registered(t, e) ==> Registered(s, e) || e == d)
            && (forall e: nat :: Registered(s, e) ==> Registered(t, e) || Lookup(s.data, s.devs[d].id) == Some(e))
            && |t.data| == |s.data| + (if s.devs[d].id in s.data then 0 else 1)
  {
    AddedSize(s.data, s.limit, s.devs[d].id, d);
  }

  lemma AddKeepsInv(s: State, d: Handle)
    requires Inv(s) && Enabled(s, Add(d))
    ensures Inv(AddSection(s, d))
  {
    if OverLimit(s.data, s.limit, s.devs[d].id) {
      RefusedAddKeepsInv(s, d);
    } else {
      if s.devs[d].id in s.data {
        ReplacingAddKeepsInv(s, d);
      } else {
        InsertingAddKeepsInv(s, d);
      }
    }
  }

  lemma ReplacingAddKeepsInv(s: State, d: Handle)
    requires Inv(s) && Enabled(s, Add(d)) && s.devs[d].id in s.data
    ensures Inv(AddSection(s, d))
  {
    var existing := s.data[s.devs[d].id];
    var todo := [CountDisconnect(1), CountDuplicate, RequestClose(existing), CountConnect];
    assert DevOk(s, d);
    AddedData(s, d);
    var t := AddSection(s, d);
    PlainListOk(t, todo);
    OwedLists(existing);
    assert todo[2] == RequestClose(existing);
    StartKeepsInv(s, t, todo);
  }

  lemma InsertingAddKeepsInv(s: State, d: Handle)
    requires Inv(s) && Enabled(s, Add(d)) && s.devs[d].id !in s.data
    requires !OverLimit(s.data, s.limit, s.devs[d].id)
    ensures Inv(AddSection(s, d))
  {
    assert DevOk(s, d);
    AddedData(s, d);
    StartKeepsInv(s, AddSection(s, d), [CountConnect]);
  }

  lemma RemoveKeepsInv(s: State, id: Id)
    requires Inv(s)
    ensures Inv(RemoveSection(s, id))
  {
    var t := RemoveSection(s, id);
    RemovedData(s, id);
    if id in s.data {
      var todo := [CountDisconnect(1), RequestClose(s.data[id])];
      OwedLists(s.data[id]);
      assert todo[1] == RequestClose(s.data[id]);
      StartKeepsInv(s, t, todo);
    } else {
      StartKeepsInv(s, t, []);
    }
  }

  /** The map after remove holds everything but the device under this id. */
  lemma RemovedData(s: State, id: Id)
    requires DataOk(s)
    ensures var t := RemoveSection(s, id);
            && DataOk(t) && |t.data| == |s.data| - (if id in s.data then 1 else 0)
            && (forall e: nat :: Registered(t, e) ==> Registered(s, e))
            && (forall e: nat :: Registered(s, e) ==> Registered(t, e) || Lookup(s.data, id) == Some(e))
            && (id in s.data ==> !Registered(t, s.data[id]))
  {
    RemovedSize(s.data, id);
  }

  lemma RemoveIfKeepsInv(s: State, matched: seq<Handle>)
    requires Inv(s) && Enabled(s, RemoveIf(matched))
    ensures Inv(RemoveIfSection(s, matched))
  {
    var t := RemoveIfSection(s, matched);
    var todo := t.ops[|s.ops|].todo;
    OwedNothing(todo);
    forall a | a in todo ensures ActOk(t, a) {
      if a.Barge? {
        assert a.d in matched;
      }
    }
    StartKeepsInv(s, t, todo);
  }

  lemma RemoveAllKeepsInv(s: State, order: seq<Handle>)
    requires Inv(s) && Enabled(s, RemoveAll(order))
    ensures Inv(RemoveAllSection(s, order))
  {
    var t := RemoveAllSection(s, order);
    var todo := Closes(order) + [CountDisconnect(|order|)];
    OwedByCloses(order);
    RegisteredCount(s, order);
    ClosesAll(s, order);
    AllAreClosed(s, t, order, todo);
    StartKeepsInv(s, t, todo);
  }

  lemma OwedByCloses(order: seq<Handle>)
    ensures Owed(Closes(order) + [CountDisconnect(|order|)]) == 0 - |order|
  {
    OwedNothing(Closes(order));
    OwedAppend(Closes(order), [CountDisconnect(|order|)]);
  }

  lemma ClosesAll(s: State, order: seq<Handle>)
    requires DataOk(s) && forall d :: d in order <==> Registered(s, d)
    ensures var todo := Closes(order) + [CountDisconnect(|order|)];
            && OpOk(RemoveAllSection(s, order), Op(todo, 0))
            && (forall d :: 0 <= d < |s.devs| && Registered(s, d) ==> RequestClose(d) in todo)
  {
    var t, todo := RemoveAllSection(s, order), Closes(order) + [CountDisconnect(|order|)];
    forall i | 0 <= i < |todo| ensures ActOk(t, todo[i]) && !todo[i].Barge? {
      if i < |order| {
        assert order[i] in order;
      }
    }
    PlainListOk(t, todo);
    forall d | 0 <= d < |s.devs| && Registered(s, d) ensures RequestClose(d) in todo {
      var i :| 0 <= i < |order| && order[i] == d;
      assert todo[i] == RequestClose(d);
    }
  }

  lemma AllAreClosed(s: State, t: State, order: seq<Handle>, todo: seq<Act>)
    requires t == RemoveAllSection(s, order)
    requires forall d :: 0 <= d < |s.devs| && Registered(s, d) ==> RequestClose(d) in todo
    ensures forall d :: 0 <= d < |s.devs| && (Registered(s, d) || d in s.unadded) ==>
              d in t.unadded || Registered(t, d) || RequestClose(d) in todo
  {
  }

  /** An enumeration of the registered devices is as long as the map. */
  lemma RegisteredCount(s: State, order: seq<Handle>)
    requires DataOk(s) && Distinct(order) && forall d :: d in order <==> Registered(s, d)
    ensures |order| == |s.data|
  {
    var ids := seq(|order|, i requires 0 <= i < |order| => assert order[i] in order; s.devs[order[i]].id);
    forall i, j | 0 <= i < j < |ids| ensures ids[i] != ids[j] {
      assert order[i] in order && order[j] in order;
    }
    DistinctCount(ids);
    forall id ensures id in Elements(ids) <==> id in s.data {
      if id in s.data {
        assert Registered(s, s.data[id]) && s.data[id] in order;
        var i :| 0 <= i < |order| && order[i] == s.data[id];
        assert ids[i] == id;
      }
      if id in Elements(ids) {
        var i :| 0 <= i < |ids| && ids[i] == id;
        assert order[i] in order;
      }
    }
    assert Elements(ids) == s.data.Keys;
  }

  lemma CreateKeepsInv(s: State, id: Id)
    requires Inv(s)
    ensures Inv(Apply(s, Create(id)))
  {
    var t := Apply(s, Create(id));
    forall o | 0 <= o < |t.ops| ensures OpOk(t, t.ops[o]) {
      assert OpOk(s, s.ops[o]);
      forall a | a in t.ops[o].todo ensures ActOk(t, a) {
        assert ActOk(s, a);
      }
    }
    forall d | 0 <= d < |t.devs| ensures DevOk(t, d) && Accounted(t, d) {
      if d < |s.devs| {
        assert DevOk(s, d) && Accounted(s, d);
        assert Doomed(s, d) ==> Doomed(t, d);
      }
    }
  }

  // ---------------------------------------------------------------- going on with a call

  lemma RestOk(s: State, op: Op)
    requires OpOk(s, op) && op.todo != [] && op.todo[0] != CountRemoved
    ensures OpOk(s, op.(todo := op.todo[1..]))
  {
  }

  /** The lists of the other calls, and closes not yet reached, are as they were. */
  lemma DoomedStays(s: State, t: State, o: nat, d: Handle)
    requires o < |s.ops| == |t.ops| && s.ops[o].todo != []
    requires forall p :: 0 <= p < |s.ops| && p != o ==> t.ops[p] == s.ops[p]
    requires forall a :: a in s.ops[o].todo[1..] ==> a in t.ops[o].todo
    requires Doomed(s, d) && s.ops[o].todo[0] != RequestClose(d)
    ensures Doomed(t, d)
  {
  }

  lemma ContinueKeepsBalance(s: State, o: nat)
    requires Balanced(s) && o < |s.ops| && s.ops[o].todo != []
    ensures Balanced(Continued(s, o))
  {
    var t := Continued(s, o);
    var rest := s.ops[o].todo[1..];
    OwedByUpdate(s.ops, o, t.ops[o]);
    match s.ops[o].todo[0]
    case Barge(d) =>
      if d < |s.devs| && s.devs[d].id in s.data {
        RemovedSize(s.data, s.devs[d].id);
        assert ([RequestClose(d)] + rest)[1..] == rest;
        assert Owed([RequestClose(d)] + rest) == Owed(rest);
      }
    case _ =>
  }

  lemma CountKeepsInv(s: State, o: nat)
    requires Inv(s) && o < |s.ops| && s.ops[o].todo != []
    requires !s.ops[o].todo[0].Barge? && !s.ops[o].todo[0].RequestClose?
    ensures Inv(Continued(s, o))
  {
    var op := s.ops[o];
    assert OpOk(s, op);
    ContinueKeepsBalance(s, o);
    if op.todo[0] == CountRemoved {
      LastIsCountRemoved(s, op);
    } else {
      RestOk(s, op);
    }
    CountChanges(s, o);
    ListsOnly(s, Continued(s, o), o);
  }

  /** Counting changes a counter and takes its entry off the list, and no more. */
  lemma CountChanges(s: State, o: nat)
    requires o < |s.ops| && s.ops[o].todo != []
    requires !s.ops[o].todo[0].Barge? && !s.ops[o].todo[0].RequestClose?
    ensures var t, op := Continued(s, o), s.ops[o];
            && t.limit == s.limit && t.devs == s.devs && t.data == s.data && t.gauge == s.gauge
            && t.unadded == s.unadded && t.orphans == s.orphans
            && t.ops == s.ops[o := Op(op.todo[1..], if op.todo[0].CountRemoved? then 0 else op.removed)]
  {
  }

  /** A step that changes counters and takes one entry off a list keeps the rest of the invariant. */
  lemma ListsOnly(s: State, t: State, o: nat)
    requires Inv(s) && o < |s.ops| == |t.ops| && s.ops[o].todo != [] && !s.ops[o].todo[0].RequestClose?
    requires t.limit == s.limit && t.devs == s.devs && t.data == s.data && t.gauge == s.gauge
    requires t.unadded == s.unadded && t.orphans == s.orphans
    requires forall p :: 0 <= p < |s.ops| && p != o ==> t.ops[p] == s.ops[p]
    requires t.ops[o].todo == s.ops[o].todo[1..]
    requires OpOk(s, t.ops[o]) && Balanced(t)
    ensures Inv(t)
  {
    forall p | 0 <= p < |t.ops| ensures OpOk(t, t.ops[p]) {
      assert OpOk(s, s.ops[p]);
      OpFrame(s, t, t.ops[p]);
    }
    forall d | 0 <= d < |t.devs| ensures DevOk(t, d) && Accounted(t, d) {
      assert DevOk(s, d) && Accounted(s, d);
      if Doomed(s, d) {
        DoomedStays(s, t, o, d);
      }
    }
  }

  lemma LastIsCountRemoved(s: State, op: Op)
    requires OpOk(s, op) && op.todo != [] && op.todo[0] == CountRemoved
    ensures OpOk(s, Op(op.todo[1..], 0))
  {
  }

  lemma OpFrame(s: State, t: State, op: Op)
    requires OpOk(s, op) && t.unadded <= s.unadded && |s.devs| <= |t.devs|
    requires forall d :: Registered(t, d) ==> Registered(s, d)
    ensures OpOk(t, op)
  {
  }

  lemma CloseKeepsInv(s: State, o: nat)
    requires Inv(s) && o < |s.ops| && s.ops[o].todo != [] && s.ops[o].todo[0].RequestClose?
    ensures Inv(Continued(s, o))
  {
    var t := Continued(s, o);
    var op := s.ops[o];
    var d := op.todo[0].d;
    assert OpOk(s, op) && op.todo[0] in op.todo && ActOk(s, op.todo[0]);
    OwedByUpdate(s.ops, o, t.ops[o]);
    RestOk(s, op);
    forall e ensures Registered(t, e) <==> Registered(s, e) { }
    forall p | 0 <= p < |t.ops| ensures OpOk(t, t.ops[p]) {
      assert OpOk(s, s.ops[p]);
      OpFrame(s, t, t.ops[p]);
    }
    forall e | 0 <= e < |t.devs| ensures DevOk(t, e) && Accounted(t, e) {
      assert DevOk(s, e) && Accounted(s, e);
      if e != d && Doomed(s, e) {
        DoomedStays(s, t, o, e);
      }
    }
  }

  lemma BargeKeepsInv(s: State, o: nat)
    requires Inv(s) && o < |s.ops| && s.ops[o].todo != [] && s.ops[o].todo[0].Barge?
    ensures Inv(Continued(s, o))
  {
    var op := s.ops[o];
    var d := op.todo[0].d;
    assert OpOk(s, op) && op.todo[0] in op.todo && ActOk(s, op.todo[0]);
    ContinueKeepsBalance(s, o);
    RestOk(s, op);
    if s.devs[d].id in s.data {
      BargeHitKeepsInv(s, o, d);
    } else {
      ListsOnly(s, Continued(s, o), o);
    }
  }

  lemma BargeHitKeepsInv(s: State, o: nat, d: Handle)
    requires Inv(s) && o < |s.ops| && s.ops[o].todo != [] && s.ops[o].todo[0] == Barge(d)
    requires d < |s.devs| && s.devs[d].id in s.data && d !in s.unadded
    requires OpOk(s, s.ops[o].(todo := s.ops[o].todo[1..])) && Balanced(Continued(s, o))
    ensures Inv(Continued(s, o))
  {
    var t := Continued(s, o);
    BargeHitChanges(s, o, d);
    BargeHitData(s, o, d);
    BargeHitOp(s, t, s.ops[o], d);
    forall e: nat | e < |t.devs| ensures Accounted(t, e) {
      BargeHitAccounts(s, o, d, e);
    }
    OthersStayOk(s, t, o);
  }

  /** A step that takes devices off the map and changes only the list of call o keeps the rest. */
  lemma OthersStayOk(s: State, t: State, o: nat)
    requires Inv(s) && DataOk(t) && Balanced(t) && t.devs == s.devs && t.unadded == s.unadded
    requires forall e: nat :: Registered(t, e) ==> Registered(s, e)
    requires o < |s.ops| == |t.ops| && OpOk(t, t.ops[o])
    requires forall p: nat :: p < |s.ops| && p != o ==> t.ops[p] == s.ops[p]
    requires forall e :: e in t.orphans ==> e < |s.devs| && e !in s.unadded
    requires forall e: nat :: e < |t.devs| ==> Accounted(t, e)
    ensures Inv(t)
  {
    forall p | 0 <= p < |t.ops| && p != o ensures OpOk(t, t.ops[p]) {
      assert OpOk(s, s.ops[p]);
      OpFrame(s, t, t.ops[p]);
    }
    forall e | 0 <= e < |t.devs| ensures DevOk(t, e) {
      assert DevOk(s, e);
    }
  }

  lemma BargeHitChanges(s: State, o: nat, d: Handle)
    requires o < |s.ops| && s.ops[o].todo != [] && s.ops[o].todo[0] == Barge(d)
    requires d < |s.devs| && s.devs[d].id in s.data
    ensures var t, op := Continued(s, o), s.ops[o];
            && t.limit == s.limit && t.devs == s.devs && t.unadded == s.unadded
            && t.data == Removed(s.data, s.devs[d].id) && t.gauge == |t.data|
            && t.ops == s.ops[o := Op([RequestClose(d)] + op.todo[1..], op.removed + 1)]
  {
  }

  lemma BargeHitAccounts(s: State, o: nat, d: Handle, e: Handle)
    requires DataOk(s) && o < |s.ops| && s.ops[o].todo != [] && s.ops[o].todo[0] == Barge(d)
    requires d < |s.devs| && s.devs[d].id in s.data && e < |s.devs| && Accounted(s, e)
    ensures e < |Continued(s, o).devs| && Accounted(Continued(s, o), e)
  {
    var t := Continued(s, o);
    assert t.ops[o].todo[0] == RequestClose(d);
    if Doomed(s, e) {
      DoomedStays(s, t, o, e);
    } else {
      BargeHitData(s, o, d);
    }
  }

  lemma BargeHitOp(s: State, t: State, op: Op, d: Handle)
    requires op.todo != [] && op.todo[0] == Barge(d) && OpOk(s, op) && OpOk(s, op.(todo := op.todo[1..]))
    requires t.devs == s.devs && t.unadded == s.unadded && (forall e: nat :: Registered(t, e) ==> Registered(s, e))
    requires d < |s.devs| && d !in s.unadded && !Registered(t, d)
    ensures OpOk(t, Op([RequestClose(d)] + op.todo[1..], op.removed + 1))
  {
  }

  /** What the section takes out of the map is the matched device, or a newer one that is orphaned. */
  lemma BargeHitData(s: State, o: nat, d: Handle)
    requires DataOk(s) && o < |s.ops| && s.ops[o].todo != [] && s.ops[o].todo[0] == Barge(d)
    requires d < |s.devs| && s.devs[d].id in s.data
    ensures var t := Continued(s, o);
            && DataOk(t) && !Registered(t, d) && t.devs == s.devs && t.unadded == s.unadded
            && (forall e: nat :: Registered(t, e) ==> Registered(s, e))
            && (forall e: nat :: Registered(s, e) ==> Registered(t, e) || e == d || e in t.orphans)
            && s.orphans <= t.orphans && (forall e :: e in t.orphans ==> e in s.orphans || e == s.data[s.devs[d].id])
  {
  }

  // ---------------------------------------------------------------- every run

  lemma StepKeepsInv(s: State, step: Step)
    requires Inv(s) && Enabled(s, step)
    ensures Inv(Apply(s, step))
  {
    match step
    case Create(id) => CreateKeepsInv(s, id);
    case Add(d) => AddKeepsInv(s, d);
    case Remove(id) => RemoveKeepsInv(s, id);
    case RemoveIf(matched) => RemoveIfKeepsInv(s, matched);
    case RemoveAll(order) => RemoveAllKeepsInv(s, order);
    case Continue(o) =>
      if s.ops[o].todo[0].Barge? {
        BargeKeepsInv(s, o);
      } else if s.ops[o].todo[0].RequestClose? {
        CloseKeepsInv(s, o);
      } else {
        CountKeepsInv(s, o);
      }
  }

  lemma {:induction false} RunKeepsInv(run: seq<State>, steps: seq<Step>, i: nat)
    requires IsRun(run, steps) && i < |run|
    ensures Inv(run[i])
  {
    if i == 0 {
      InitOk(run[0]);
    } else {
      RunKeepsInv(run, steps, i - 1);
      assert StepAt(run, steps, i - 1);
      NextOk(run[i - 1], steps[i - 1], run[i]);
    }
  }

  lemma InitOk(s: State)
    requires s == Init(s.limit)
    ensures Inv(s)
  {
  }

  lemma NextOk(s: State, step: Step, t: State)
    requires Inv(s) && Enabled(s, step) && t == Apply(s, step)
    ensures Inv(t)
  {
    StepKeepsInv(s, step);
  }
}
