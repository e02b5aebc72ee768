/** Each counter of the registry counts just what it is named for. */
module RegistryCounters {
  import opened Options
  import opened RegistrySections
  import opened RegistryProtocol
  import opened RegistryTheorems

  datatype Counter = Connects | Refusals | Duplicates

  function Reading(s: State, c: Counter): int {
    match c
    case Connects => s.connect
    case Refusals => s.limitReached
    case Duplicates => s.duplicates
  }

  /** What the counter is for: a device let in, a device refused, a device let in where there was one with its id. */
  predicate Countable(s: State, step: Step, c: Counter) {
    && step.Add? && step.d < |s.devs|
    && var room := s.devs[step.d].id in s.data || s.limit <= 0 || |s.data| < s.limit;
    match c
    case Connects => room
    case Refusals => !room
    case Duplicates => s.devs[step.d].id in s.data
  }

  /** How often that has happened in the first n steps. */
  ghost function Happened(run: seq<State>, steps: seq<Step>, n: nat, c: Counter): nat
    requires n <= |steps| < |run|
  {
    if n == 0 then 0
    else Happened(run, steps, n - 1, c) + (if Countable(run[n - 1], steps[n - 1], c) then 1 else 0)
  }

  function Worth(a: Act, c: Counter): nat {
    match c
    case Connects => if a.CountConnect? then 1 else 0
    case Refusals => if a.CountLimit? then 1 else 0
    case Duplicates => if a.CountDuplicate? then 1 else 0
  }

  /** How often the rest of a call will still count it. */
  function Due(todo: seq<Act>, c: Counter): nat {
    if todo == [] then 0 else Worth(todo[0], c) + Due(todo[1..], c)
  }

  function DueByAll(ops: seq<Op>, c: Counter): nat {
    if ops == [] then 0 else Due(ops[0].todo, c) + DueByAll(ops[1..], c)
  }

  lemma {:induction false} DueNothing(todo: seq<Act>, c: Counter)
    requires forall i :: 0 <= i < |todo| ==> Worth(todo[i], c) == 0
    ensures Due(todo, c) == 0
  {
    if todo != [] {
      DueNothing(todo[1..], c);
    }
  }

  lemma {:induction false} DueByMore(ops: seq<Op>, op: Op, c: Counter)
    ensures DueByAll(ops + [op], c) == DueByAll(ops, c) + Due(op.todo, c)
  {
    if ops == [] {
      assert ops + [op] == [op];
    } else {
      DueByMore(ops[1..], op, c);
      assert (ops + [op])[1..] == ops[1..] + [op];
    }
  }

  lemma {:induction false} DueByUpdate(ops: seq<Op>, o: nat, op: Op, c: Counter)
    requires o < |ops|
    ensures DueByAll(ops[o := op], c) == DueByAll(ops, c) - Due(ops[o].todo, c) + Due(op.todo, c)
  {
    if o > 0 {
      DueByUpdate(ops[1..], o - 1, op, c);
      assert ops[o := op][1..] == ops[1..][o - 1 := op];
    } else {
      assert ops[o := op][1..] == ops[1..];
    }
  }

  lemma DueByAdd(d: Handle, existing: Option<Handle>, refused: bool, c: Counter)
    requires refused ==> existing.None?
    ensures Due(AddList(d, existing, refused), c) ==
            match c
            case Connects => if refused then 0 else 1
            case Refusals => if refused then 1 else 0
            case Duplicates => if existing.Some? then 1 else 0
  {
    var todo := AddList(d, existing, refused);
    if refused {
      DueNothing(todo[1..], c);
    } else if existing.Some? {
      DueOfFour(todo, c);
    }
  }

  lemma DueOfFour(todo: seq<Act>, c: Counter)
    requires |todo| == 4
    ensures Due(todo, c) == Worth(todo[0], c) + Worth(todo[1], c) + Worth(todo[2], c) + Worth(todo[3], c)
  {
    assert todo[1..][1..] == todo[2..] && todo[2..][1..] == todo[3..] && todo[3..][1..] == [];
    assert Due(todo[3..], c) == Worth(todo[3], c);
    assert Due(todo[2..], c) == Worth(todo[2], c) + Due(todo[3..], c);
    assert Due(todo[1..], c) == Worth(todo[1], c) + Due(todo[2..], c);
  }

  lemma AddCounts(s: State, d: Handle, c: Counter)
    requires d < |s.devs|
    ensures var t := AddSection(s, d);
            && Reading(t, c) == Reading(s, c)
            && DueByAll(t.ops, c) == DueByAll(s.ops, c) + (if Countable(s, Add(d), c) then 1 else 0)
  {
    var id := s.devs[d].id;
    var existing, refused := Lookup(s.data, id), OverLimit(s.data, s.limit, id);
    DueByMore(s.ops, Op(AddList(d, existing, refused), 0), c);
    DueByAdd(d, existing, refused, c);
  }

  lemma ListCounts(ops: seq<Op>, o: nat, op: Op, c: Counter)
    requires o < |ops| && ops[o].todo != []
    requires op.todo == ops[o].todo[1..] || (exists d :: op.todo == [RequestClose(d)] + ops[o].todo[1..])
    ensures DueByAll(ops[o := op], c) == DueByAll(ops, c) - Worth(ops[o].todo[0], c)
  {
    DueByUpdate(ops, o, op, c);
    if op.todo != ops[o].todo[1..] {
      assert op.todo[1..] == ops[o].todo[1..];
    }
  }

  /** Taking an entry off a list counts what it is worth. */
  lemma ContinueCounts(s: State, o: nat, c: Counter)
    requires o < |s.ops| && s.ops[o].todo != []
    ensures var t := Continued(s, o);
            Reading(t, c) + DueByAll(t.ops, c) == Reading(s, c) + DueByAll(s.ops, c)
  {
    var t := Continued(s, o);
    ContinueChanges(s, o, c);
    ListCounts(s.ops, o, t.ops[o], c);
  }

  lemma ContinueChanges(s: State, o: nat, c: Counter)
    requires o < |s.ops| && s.ops[o].todo != []
    ensures var t, todo := Continued(s, o), s.ops[o].todo;
            && |t.ops| == |s.ops| && t.ops == s.ops[o := t.ops[o]]
            && (t.ops[o].todo == todo[1..] || (exists d :: t.ops[o].todo == [RequestClose(d)] + todo[1..]))
            && Reading(t, c) == Reading(s, c) + Worth(todo[0], c)
  {
    var todo := s.ops[o].todo;
    match todo[0]
    case Barge(d) => BargeChanges(s, o, d);
    case CountRemoved => assert Continued(s, o).ops == s.ops[o := Op(todo[1..], 0)];
    case _ => assert Continued(s, o).ops == s.ops[o := s.ops[o].(todo := todo[1..])];
  }

  lemma BargeChanges(s: State, o: nat, d: Handle)
    requires o < |s.ops| && s.ops[o].todo != [] && s.ops[o].todo[0] == Barge(d)
    ensures var t, rest := Continued(s, o), s.ops[o].todo[1..];
            && t.connect == s.connect && t.limitReached == s.limitReached && t.duplicates == s.duplicates
            && (t.ops == s.ops[o := s.ops[o].(todo := rest)]
                || t.ops == s.ops[o := Op([RequestClose(d)] + rest, s.ops[o].removed + 1)])
  {
  }

  /** The other calls start with a list that counts neither devices let in nor refusals. */
  lemma OthersCount(s: State, step: Step, c: Counter)
    requires Enabled(s, step) && !step.Add? && !step.Continue?
    ensures var t := Apply(s, step);
            Reading(t, c) == Reading(s, c) && DueByAll(t.ops, c) == DueByAll(s.ops, c)
  {
    match step
    case Create(_) =>
    case Remove(id) =>
      var todo := RemoveSection(s, id).ops[|s.ops|].todo;
      StartCounts(s, todo, c);
    case RemoveIf(matched) =>
      StartCounts(s, if matched == [] then [] else Barges(matched) + [CountRemoved], c);
    case RemoveAll(order) =>
      StartCounts(s, Closes(order) + [CountDisconnect(|order|)], c);
  }

  lemma StartCounts(s: State, todo: seq<Act>, c: Counter)
    requires forall i :: 0 <= i < |todo| ==> Worth(todo[i], c) == 0
    ensures DueByAll(s.ops + [Op(todo, 0)], c) == DueByAll(s.ops, c)
  {
    DueByMore(s.ops, Op(todo, 0), c);
    DueNothing(todo, c);
  }

  lemma StepCounts(s: State, step: Step, c: Counter)
    requires Enabled(s, step)
    ensures var t := Apply(s, step);
            Reading(t, c) + DueByAll(t.ops, c) ==
            Reading(s, c) + DueByAll(s.ops, c) + (if Countable(s, step, c) then 1 else 0)
  {
    match step
    case Add(d) => AddCounts(s, d, c);
    case Continue(o) => ContinueCounts(s, o, c);
    case _ => OthersCount(s, step, c);
  }

  /** In every state of every interleaving a counter reads what has happened, but for what running calls owe it. */
  lemma {:induction false} CountersAgree(run: seq<State>, steps: seq<Step>, n: nat, c: Counter)
    requires IsRun(run, steps) && n < |run|
    ensures Reading(run[n], c) + DueByAll(run[n].ops, c) == Happened(run, steps, n, c)
  {
    if n > 0 {
      CountersAgree(run, steps, n - 1, c);
      assert StepAt(run, steps, n - 1);
      StepCounts(run[n - 1], steps[n - 1], c);
    }
  }

  lemma {:induction false} NothingDue(ops: seq<Op>, c: Counter)
    requires forall o :: 0 <= o < |ops| ==> ops[o].todo == []
    ensures DueByAll(ops, c) == 0
  {
    if ops != [] {
      NothingDue(ops[1..], c);
    }
  }

  /** So whenever no call is running, each counter is exact. */
  lemma CountersAreExact(run: seq<State>, steps: seq<Step>, n: nat, c: Counter)
    requires IsRun(run, steps) && n < |run| && Quiescent(run[n])
    ensures Reading(run[n], c) == Happened(run, steps, n, c)
  {
    CountersAgree(run, steps, n, c);
    NothingDue(run[n].ops, c);
  }
}
