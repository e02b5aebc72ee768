/** The cache for a delegate that has only one key, under concurrent use: one pair, swapped under the lock. */
module KeyCacheSingle {
  import opened Options
  import K = KeyCache

  /** Where a call is; a call that asks holds the lock. */
  datatype Call =
    | Waiting(key: K.KeyId)               // missed without the lock
    | Rechecking(key: K.KeyId)            // has the lock
    | Asking(key: K.KeyId)                // missed again
    | Storing(pair: K.Pair)
    | Leaving(result: K.Answer)           // still has the lock
    | Returned(result: K.Answer)
    | UpdateWaiting
    | UpdateAsking                      // has the lock
    | UpdateStoring(pair: K.Pair)
    | UpdateLeaving(failed: bool)       // still has the lock
    | Updated(failed: bool)

  /** `answers` are the pairs the delegate returned, in order, and `asked` the keys it was asked for: history. */
  datatype State = State(
    value: Option<K.Pair>,
    lock: Option<nat>,
    calls: seq<Call>,
    answers: seq<K.Pair>,
    asked: seq<K.KeyId>)

  const Initial := State(None, None, [], [], [])

  datatype Step =
    | Resolve(key: K.KeyId)
    | Update
    | Acquire(o: nat)
    | Reload(o: nat)
    | Ask(o: nat, answer: K.Answer)
    | Store(o: nat)
    | Release(o: nat)

  predicate Locked(c: Call) {
    !(c.Waiting? || c.Returned? || c.UpdateWaiting? || c.Updated?)
  }

  predicate Enabled(s: State, step: Step) {
    if step.Resolve? || step.Update? then true
    else
      && step.o < |s.calls|
      && var c := s.calls[step.o];
      match step
      case Acquire(_) => s.lock.None? && (c.Waiting? || c.UpdateWaiting?)
      case Reload(_) => c.Rechecking?
      case Ask(_, _) => c.Asking? || c.UpdateAsking?
      case Store(_) => c.Storing? || c.UpdateStoring?
      case Release(_) => c.Leaving? || c.UpdateLeaving?
  }

  function Goto(s: State, o: nat, c: Call): State
    requires o < |s.calls|
  {
    s.(calls := s.calls[o := c])
  }

  function Apply(s: State, step: Step): State
    requires Enabled(s, step)
  {
    match step
    case Resolve(key) => s.(calls := s.calls + [if s.value.Some? then Returned(s.value) else Waiting(key)])
    case Update => s.(calls := s.calls + [UpdateWaiting])
    case Acquire(o) =>
      var c := s.calls[o];
      Goto(s, o, if c.Waiting? then Rechecking(c.key) else UpdateAsking).(lock := Some(o))
    case Reload(o) => Goto(s, o, if s.value.Some? then Leaving(s.value) else Asking(s.calls[o].key))
    case Ask(o, answer) =>
      var c := s.calls[o];
      var t := s.(asked := s.asked + [if c.Asking? then c.key else ""]);
      if answer.None? then Goto(t, o, if c.Asking? then Leaving(None) else UpdateLeaving(true))
      else Goto(t, o, if c.Asking? then Storing(answer.value) else UpdateStoring(answer.value))
             .(answers := s.answers + [answer.value])
    case Store(o) =>
      var c := s.calls[o];
      Goto(s, o, if c.Storing? then Leaving(Some(c.pair)) else UpdateLeaving(false)).(value := Some(c.pair))
    case Release(o) =>
      var c := s.calls[o];
      Goto(s, o, if c.Leaving? then Returned(c.result) else Updated(c.failed)).(lock := None)
  }

  /** Step number i of a run: it could be taken, and it led to the next state. */
  ghost predicate StepAt(run: seq<State>, steps: seq<Step>, i: nat) {
    i < |steps| && i + 1 < |run| && Enabled(run[i], steps[i]) && run[i + 1] == Apply(run[i], steps[i])
  }

  ghost predicate IsRun(run: seq<State>, steps: seq<Step>) {
    && |run| == |steps| + 1
    && run[0] == Initial
    && (forall i: nat :: i < |steps| ==> StepAt(run, steps, i))
  }

  /** The lock holder has an answer that it is still to store. */
  predicate Pending(c: Call) {
    c.Storing? || c.UpdateStoring?
  }

  function Last(answers: seq<K.Pair>): Option<K.Pair> {
    if answers == [] then None else Some(answers[|answers| - 1])
  }

  ghost predicate CallOk(s: State, o: nat)
    requires o < |s.calls|
  {
    var c := s.calls[o];
    && (Locked(c) <==> s.lock == Some(o))
    && (c.Asking? ==> s.value.None?)
    && (Pending(c) ==> s.answers != [] && c.pair == s.answers[|s.answers| - 1]
                       && s.value == Last(s.answers[..|s.answers| - 1]))
    && (c.Leaving? || c.Returned? ==> c.result.Some? ==> c.result.value in s.answers)
  }

  ghost predicate Inv(s: State) {
    && (forall o :: 0 <= o < |s.calls| ==> CallOk(s, o))
    && (s.lock.Some? ==> s.lock.value < |s.calls|)
    && ((s.lock.Some? && Pending(s.calls[s.lock.value])) || s.value == Last(s.answers))
  }

  lemma CachedIsKnown(s: State)
    requires Inv(s) && s.value.Some?
    ensures s.value.value in s.answers
  {
    if s.lock.Some? {
      assert CallOk(s, s.lock.value);
    }
  }

  lemma StepKeepsInv(s: State, step: Step)
    requires Inv(s) && Enabled(s, step)
    ensures Inv(Apply(s, step))
  {
    var t := Apply(s, step);
    forall o | 0 <= o < |t.calls| ensures CallOk(t, o) {
      if step.Resolve? || step.Update? {
        NewCallOk(s, step, o);
      } else if o == step.o {
        MoverOk(s, step);
      } else {
        BystanderOk(s, step, o);
      }
    }
    ValueOk(s, step);
  }

  lemma NewCallOk(s: State, step: Step, o: nat)
    requires Inv(s) && (step.Resolve? || step.Update?) && o <= |s.calls|
    ensures CallOk(Apply(s, step), o)
  {
    if o < |s.calls| {
      assert CallOk(s, o);
    } else if s.value.Some? {
      CachedIsKnown(s);
    }
  }

  lemma MoverOk(s: State, step: Step)
    requires Inv(s) && Enabled(s, step) && !step.Resolve? && !step.Update?
    ensures CallOk(Apply(s, step), step.o)
  {
    assert CallOk(s, step.o);
    if step.Ask? {
      AskerOk(s, step.o, step.answer);
    } else if step.Store? {
      StorerOk(s, step.o);
    } else if step.Reload? && s.value.Some? {
      CachedIsKnown(s);
    }
  }

  lemma AskerOk(s: State, o: nat, answer: K.Answer)
    requires Inv(s) && Enabled(s, Ask(o, answer))
    ensures CallOk(Apply(s, Ask(o, answer)), o)
  {
    assert CallOk(s, o);
    if answer.Some? {
      assert s.value == Last(s.answers);
      AnswerOk(s, Apply(s, Ask(o, answer)), o, answer.value);
    }
  }

  lemma AnswerOk(s: State, t: State, o: nat, pair: K.Pair)
    requires o < |t.calls| && Pending(t.calls[o]) && t.calls[o].pair == pair && t.lock == Some(o)
    requires t.answers == s.answers + [pair] && t.value == s.value == Last(s.answers)
    ensures CallOk(t, o)
  {
    assert t.answers[..|s.answers|] == s.answers;
  }

  lemma StorerOk(s: State, o: nat)
    requires Enabled(s, Store(o)) && CallOk(s, o)
    ensures CallOk(Apply(s, Store(o)), o)
  {
  }

  /** While a call has the lock no other moves, so one that stays put does not have it, and is not affected. */
  lemma BystanderOk(s: State, step: Step, o: nat)
    requires Inv(s) && Enabled(s, step) && !step.Resolve? && !step.Update? && o < |s.calls| && o != step.o
    ensures CallOk(Apply(s, step), o)
  {
    assert CallOk(s, o) && CallOk(s, step.o);
    assert !Locked(s.calls[o]);
    WaiterOk(s, step, o);
  }

  lemma WaiterOk(s: State, step: Step, o: nat)
    requires Enabled(s, step) && !step.Resolve? && !step.Update? && o < |s.calls| && o != step.o
    requires CallOk(s, o) && !Locked(s.calls[o])
    ensures CallOk(Apply(s, step), o)
  {
    var t := Apply(s, step);
    assert t.answers == s.answers || t.answers == s.answers + [step.answer.value];
    assert t.lock != Some(o) && t.calls[o] == s.calls[o];
  }

  lemma ValueOk(s: State, step: Step)
    requires Inv(s) && Enabled(s, step)
    ensures var t := Apply(s, step);
            && (t.lock.Some? ==> t.lock.value < |t.calls|)
            && ((t.lock.Some? && Pending(t.calls[t.lock.value])) || t.value == Last(t.answers))
  {
    if !step.Resolve? && !step.Update? {
      assert CallOk(s, step.o);
    }
  }

  lemma {:induction false} InvHolds(run: seq<State>, steps: seq<Step>, n: nat)
    requires IsRun(run, steps) && n < |run|
    ensures Inv(run[n])
  {
    if n > 0 {
      InvHolds(run, steps, n - 1);
      assert StepAt(run, steps, n - 1);
      StepKeepsInv(run[n - 1], steps[n - 1]);
    }
  }

  /** In every interleaving, whenever the lock is free the cached pair is the last one the delegate returned. */
  lemma CachedIsLast(run: seq<State>, steps: seq<Step>, n: nat)
    requires IsRun(run, steps) && n < |run| && run[n].lock.None?
    ensures run[n].value == Last(run[n].answers)
  {
    InvHolds(run, steps, n);
  }

  /** A ResolveKey asks the delegate only while nothing is cached, and with its own key; an update asks with none. */
  lemma AskedWhenEmpty(run: seq<State>, steps: seq<Step>, n: nat)
    requires IsRun(run, steps) && n < |steps| && steps[n].Ask?
    ensures steps[n].o < |run[n].calls|
    ensures var c := run[n].calls[steps[n].o];
            && (c.Asking? ==> run[n].value.None? && run[n + 1].asked == run[n].asked + [c.key])
            && (!c.Asking? ==> run[n + 1].asked == run[n].asked + [""])
  {
    InvHolds(run, steps, n);
    assert StepAt(run, steps, n);
    assert CallOk(run[n], steps[n].o);
  }

  /** Once there is a pair there always is one, and a ResolveKey that begins then returns at once, without asking. */
  lemma {:induction false} StaysCached(run: seq<State>, steps: seq<Step>, i: nat, n: nat)
    requires IsRun(run, steps) && i <= n < |run| && run[i].value.Some?
    ensures run[n].value.Some?
    ensures n < |steps| && steps[n].Resolve? ==>
              |run[n + 1].calls| == |run[n].calls| + 1 && run[n + 1].calls[|run[n].calls|] == Returned(run[n].value)
    decreases n
  {
    if i < n {
      StaysCached(run, steps, i, n - 1);
      assert StepAt(run, steps, n - 1);
    }
    if n < |steps| {
      assert StepAt(run, steps, n);
    }
  }

  /** What a ResolveKey returns, the delegate has returned. */
  lemma ReturnedIsGenuine(run: seq<State>, steps: seq<Step>, n: nat, o: nat)
    requires IsRun(run, steps) && n < |run| && o < |run[n].calls|
    requires run[n].calls[o].Returned? && run[n].calls[o].result.Some?
    ensures run[n].calls[o].result.value in run[n].answers
  {
    InvHolds(run, steps, n);
    assert CallOk(run[n], o);
  }
}
