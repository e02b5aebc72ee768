/**
 The key cache with its maps in memory.  The cached value is a reference to a map that readers use without the lock,
 while a holder of the lock fills another map, one entry a step, and then swaps the reference.
 */
module KeyCacheHeap {
  import opened Options
  import K = KeyCache

  type Ptr = nat

  /** Where a call of ResolveKey or UpdateKeys is. */
  datatype Call =
    | Fetching(key: K.KeyId, from: Ptr)                  // has loaded the reference, without the lock
    | Waiting(key: K.KeyId)                              // missed
    | Rechecking(key: K.KeyId)                           // has the lock
    | Refetching(key: K.KeyId, from: Ptr)                // has loaded the reference again
    | Asking(key: K.KeyId)                               // missed again
    | Answered(key: K.KeyId, pair: K.Pair)
    | Copying(key: K.KeyId, pair: K.Pair, source: Option<Ptr>, to: Ptr, rest: set<K.KeyId>)
    | Storing(key: K.KeyId, pair: K.Pair, to: Ptr)
    | Leaving(key: K.KeyId, result: K.Answer)            // still has the lock
    | Resolved(key: K.KeyId, result: K.Answer)
    | UpdateWaiting(from: Ptr)                           // has loaded the reference, without the lock
    | Refreshing(from: Ptr, to: Ptr, rest: set<K.KeyId>, answers: map<K.KeyId, K.Answer>)
    | UpdateLeaving(count: nat)                          // still has the lock
    | Updated(count: nat)

  /** `heap` are all the maps ever made; `published` those that were ever stored in the cache, which is history. */
  datatype State = State(
    value: Option<Ptr>,
    heap: seq<K.Pairs>,
    lock: Option<nat>,
    calls: seq<Call>,
    published: set<Ptr>)

  const Initial := State(None, [], None, [], {})

  datatype Step =
    | Resolve(key: K.KeyId)
    | Update
    | Read(o: nat)
    | Acquire(o: nat)
    | Reload(o: nat)
    | Ask(o: nat, answer: K.Answer)
    | Copy(o: nat)
    | CopyOne(o: nat, k: K.KeyId)
    | AddPair(o: nat)
    | Refresh(o: nat, k: K.KeyId, answer: K.Answer)
    | Store(o: nat)
    | Skip(o: nat)
    | Release(o: nat)

  function Deref(s: State, p: Option<Ptr>): Option<K.Pairs> {
    if p.Some? && p.value < |s.heap| then Some(s.heap[p.value]) else None
  }

  predicate Locked(c: Call) {
    !(c.Fetching? || c.Waiting? || c.Resolved? || c.UpdateWaiting? || c.Updated?)
  }

  predicate Enabled(s: State, step: Step) {
    if step.Resolve? || step.Update? then true
    else
      && step.o < |s.calls|
      && var c := s.calls[step.o];
      match step
      case Read(_) => (c.Fetching? || c.Refetching?) && c.from < |s.heap|
      case Acquire(_) => s.lock.None? && (c.Waiting? || (c.UpdateWaiting? && c.from < |s.heap|))
      case Reload(_) => c.Rechecking?
      case Ask(_, _) => c.Asking?
      case Copy(_) => c.Answered?
      case CopyOne(_, k) =>
        c.Copying? && k in c.rest && c.to < |s.heap| && Deref(s, c.source).Some? && k in Deref(s, c.source).value
      case AddPair(_) => c.Copying? && c.rest == {} && c.to < |s.heap|
      case Refresh(_, k, _) =>
        c.Refreshing? && k in c.rest && c.to < |s.heap| && c.from < |s.heap| && k in s.heap[c.from]
      case Store(_) => c.Storing? || (c.Refreshing? && c.rest == {} && Good(c.answers) && c.from < |s.heap|)
      case Skip(_) => c.Refreshing? && c.rest == {} && !Good(c.answers) && c.from < |s.heap|
      case Release(_) => c.Leaving? || c.UpdateLeaving?
  }

  /** At least one key was resolved. */
  predicate Good(answers: map<K.KeyId, K.Answer>) {
    exists k :: k in answers && answers[k].Some?
  }

  function Goto(s: State, o: nat, c: Call): State
    requires o < |s.calls|
  {
    s.(calls := s.calls[o := c])
  }

  /** The maps are written in place: an entry of map p is set. */
  function Write(s: State, p: Ptr, k: K.KeyId, v: K.Pair): State
    requires p < |s.heap|
  {
    s.(heap := s.heap[p := s.heap[p][k := v]])
  }

  function Apply(s: State, step: Step): State
    requires Enabled(s, step)
  {
    match step
    case Resolve(key) =>
      s.(calls := s.calls + [if s.value.Some? then Fetching(key, s.value.value) else Waiting(key)])
    case Update => s.(calls := s.calls + [if s.value.Some? then UpdateWaiting(s.value.value) else Updated(0)])
    case Read(o) =>
      var c := s.calls[o];
      var hit := K.Fetch(Some(s.heap[c.from]), c.key);
      Goto(s, o, if c.Fetching? then (if hit.Some? then Resolved(c.key, hit) else Waiting(c.key))
                 else if hit.Some? then Leaving(c.key, hit) else Asking(c.key))
    case Acquire(o) =>
      var c := s.calls[o];
      if c.Waiting? then Goto(s, o, Rechecking(c.key)).(lock := Some(o))
      else
        Goto(s, o, Refreshing(c.from, |s.heap|, s.heap[c.from].Keys, map[])).(lock := Some(o), heap := s.heap + [map[]])
    case Reload(o) =>
      var c := s.calls[o];
      Goto(s, o, if s.value.Some? then Refetching(c.key, s.value.value) else Asking(c.key))
    case Ask(o, answer) =>
      var c := s.calls[o];
      Goto(s, o, if answer.Some? then Answered(c.key, answer.value) else Leaving(c.key, None))
    case Copy(o) =>
      var c := s.calls[o];
      Goto(s, o, Copying(c.key, c.pair, s.value, |s.heap|, K.Keys(Deref(s, s.value)))).(heap := s.heap + [map[]])
    case CopyOne(o, k) =>
      var c := s.calls[o];
      Goto(Write(s, c.to, k, Deref(s, c.source).value[k]), o, Copying(c.key, c.pair, c.source, c.to, c.rest - {k}))
    case AddPair(o) =>
      var c := s.calls[o];
      Goto(Write(s, c.to, c.key, c.pair), o, Storing(c.key, c.pair, c.to))
    case Refresh(o, k, answer) =>
      var c := s.calls[o];
      Goto(Write(s, c.to, k, if answer.Some? then answer.value else s.heap[c.from][k]), o,
           Refreshing(c.from, c.to, c.rest - {k}, c.answers[k := answer]))
    case Store(o) =>
      var c := s.calls[o];
      Goto(s, o, if c.Storing? then Leaving(c.key, Some(c.pair)) else UpdateLeaving(|s.heap[c.from]|))
        .(value := Some(c.to), published := s.published + {c.to})
    case Skip(o) => Goto(s, o, UpdateLeaving(|s.heap[s.calls[o].from]|))
    case Release(o) =>
      var c := s.calls[o];
      Goto(s, o, if c.Leaving? then Resolved(c.key, c.result) else Updated(c.count)).(lock := None)
  }

  /** Step number i of a run: it could be taken, and it led to the next state. */
  ghost predicate StepAt(run: seq<State>, steps: seq<Step>, i: nat) {
    i < |steps| && i + 1 < |run| && Enabled(run[i], steps[i]) && run[i + 1] == Apply(run[i], steps[i])
  }

  ghost predicate IsRun(run: seq<State>, steps: seq<Step>) {
    && |run| == |steps| + 1
    && run[0] == Initial
    && (forall i: nat :: i < |steps| ==> StepAt(run, steps, i))
  }

  lemma LongerRun(run: seq<State>, steps: seq<Step>, step: Step)
    requires IsRun(run, steps) && Enabled(run[|steps|], step)
    ensures IsRun(run + [Apply(run[|steps|], step)], steps + [step])
  {
    var run', steps' := run + [Apply(run[|steps|], step)], steps + [step];
    forall i: nat | i < |steps'| ensures StepAt(run', steps', i) {
      if i < |steps| {
        assert StepAt(run, steps, i);
        assert run'[i] == run[i] && steps'[i] == steps[i] && run'[i + 1] == run[i + 1];
      } else {
        assert run'[i] == run[i] && steps'[i] == step && run'[i + 1] == Apply(run[i], step);
      }
    }
  }

  // ---------------------------------------------------------------- the invariant

  /** Map p is being filled: it is not published, and it has what the finished keys of `from` call for. */
  ghost predicate Filling(s: State, p: Ptr, from: K.Pairs, rest: set<K.KeyId>, answers: map<K.KeyId, K.Answer>) {
    && p < |s.heap| && p !in s.published
    && rest <= from.Keys && s.heap[p].Keys == from.Keys - rest
    && (forall k :: k in s.heap[p] ==>
          s.heap[p][k] == if k in answers && answers[k].Some? then answers[k].value else from[k])
  }

  function Cached(s: State): K.Pairs {
    if Deref(s, s.value).Some? then Deref(s, s.value).value else map[]
  }

  ghost predicate CallOk(s: State, c: Call) {
    match c
    case Fetching(_, p) => p in s.published
    case UpdateWaiting(p) => p in s.published
    case Refetching(_, p) => s.value == Some(p)
    case Asking(key) => key !in Cached(s)
    case Answered(key, _) => key !in Cached(s)
    case Copying(key, _, from, to, rest) =>
      key !in Cached(s) && from == s.value && Filling(s, to, Cached(s), rest, map[])
    case Storing(key, pair, to) =>
      key !in Cached(s) && to < |s.heap| && to !in s.published && s.heap[to] == Cached(s)[key := pair]
    case Refreshing(p, to, rest, answers) =>
      && p in s.published && p < |s.heap| && answers.Keys == s.heap[p].Keys - rest
      && Filling(s, to, s.heap[p], rest, answers)
    case _ => true
  }

  ghost predicate Inv(s: State) {
    && (forall p :: p in s.published ==> p < |s.heap|)
    && (s.value.Some? ==> s.value.value in s.published)
    && (s.lock.Some? ==> s.lock.value < |s.calls|)
    && (forall o :: 0 <= o < |s.calls| ==> CallOk(s, s.calls[o]) && (Locked(s.calls[o]) <==> s.lock == Some(o)))
  }

  /** What every step does to the maps: none goes away and the published ones stay as they are. */
  ghost predicate Grows(s: State, t: State) {
    && |s.heap| <= |t.heap| && s.published <= t.published
    && (forall p :: p in s.published ==> p < |s.heap| && t.heap[p] == s.heap[p])
  }

  lemma StepGrows(s: State, step: Step)
    requires Inv(s) && Enabled(s, step)
    ensures Grows(s, Apply(s, step))
  {
    if !step.Resolve? && !step.Update? {
      assert CallOk(s, s.calls[step.o]);
    }
  }

  /** A call that does not move and does not have the lock is not affected by any step. */
  lemma OthersOk(s: State, t: State, c: Call)
    requires CallOk(s, c) && Grows(s, t) && !Locked(c)
    ensures CallOk(t, c)
  {
  }

  /** The lock holder is not affected by a step of another call. */
  lemma HolderOk(s: State, t: State, c: Call)
    requires CallOk(s, c) && t.heap == s.heap && t.value == s.value && t.published == s.published
    ensures CallOk(t, c)
  {
  }

  /** The call that moves is all right where it arrives. */
  lemma MoverOk(s: State, step: Step)
    requires Inv(s) && Enabled(s, step) && !step.Resolve? && !step.Update?
    ensures CallOk(Apply(s, step), Apply(s, step).calls[step.o])
  {
    assert CallOk(s, s.calls[step.o]);
    if step.CopyOne? || step.AddPair? || step.Refresh? {
      WriterOk(s, step);
    }
  }

  lemma WriterOk(s: State, step: Step)
    requires Inv(s) && Enabled(s, step) && (step.CopyOne? || step.AddPair? || step.Refresh?)
    ensures CallOk(Apply(s, step), Apply(s, step).calls[step.o])
  {
    assert CallOk(s, s.calls[step.o]);
  }

  /** A call that another step leaves alone stays all right, with the lock or without. */
  lemma BystanderOk(s: State, step: Step, o: nat)
    requires Inv(s) && Enabled(s, step) && o < |s.calls| && (step.Resolve? || step.Update? || o != step.o)
    ensures var t := Apply(s, step);
            o < |t.calls| && CallOk(t, t.calls[o]) && (Locked(t.calls[o]) <==> t.lock == Some(o))
  {
    StepGrows(s, step);
    assert CallOk(s, s.calls[o]) && (Locked(s.calls[o]) <==> s.lock == Some(o));
    if Locked(s.calls[o]) {
      if !step.Resolve? && !step.Update? {
        assert Locked(s.calls[step.o]) <==> s.lock == Some(step.o);
      }
      HolderOk(s, Apply(s, step), s.calls[o]);
    } else {
      OthersOk(s, Apply(s, step), s.calls[o]);
    }
  }

  lemma MoverLock(s: State, step: Step)
    requires Inv(s) && Enabled(s, step) && !step.Resolve? && !step.Update?
    ensures Locked(Apply(s, step).calls[step.o]) <==> Apply(s, step).lock == Some(step.o)
  {
    assert Locked(s.calls[step.o]) <==> s.lock == Some(step.o);
  }

  lemma StepKeepsInv(s: State, step: Step)
    requires Inv(s) && Enabled(s, step)
    ensures Inv(Apply(s, step))
  {
    var t := Apply(s, step);
    StepGrows(s, step);
    forall o | 0 <= o < |t.calls|
      ensures CallOk(t, t.calls[o]) && (Locked(t.calls[o]) <==> t.lock == Some(o))
    {
      if o < |s.calls| && (step.Resolve? || step.Update? || o != step.o) {
        BystanderOk(s, step, o);
      } else if o < |s.calls| {
        MoverOk(s, step);
        MoverLock(s, step);
      }
    }
    PublishedOk(s, step);
  }

  lemma PublishedOk(s: State, step: Step)
    requires Inv(s) && Enabled(s, step)
    ensures var t := Apply(s, step);
            && (forall p :: p in t.published ==> p < |t.heap|)
            && (t.value.Some? ==> t.value.value in t.published)
            && (t.lock.Some? ==> t.lock.value < |t.calls|)
  {
    if step.Store? {
      assert CallOk(s, s.calls[step.o]);
    }
  }

  lemma {:induction false} InvHolds(run: seq<State>, steps: seq<Step>, n: nat)
    requires IsRun(run, steps) && n < |run|
    ensures Inv(run[n])
  {
    if n > 0 {
      InvHolds(run, steps, n - 1);
      assert StepAt(run, steps, n - 1);
      StepKeepsInv(run[n - 1], steps[n - 1]);
    }
  }

  // ---------------------------------------------------------------- what readers rely on

  /** In every interleaving a map that has been published, once, is published for good and never written again. */
  lemma {:induction false} PublishedMapsStay(run: seq<State>, steps: seq<Step>, i: nat, n: nat, p: Ptr)
    requires IsRun(run, steps) && i <= n < |run| && p in run[i].published
    ensures p in run[n].published && p < |run[i].heap| <= |run[n].heap| && run[n].heap[p] == run[i].heap[p]
    decreases n
  {
    if i < n {
      PublishedMapsStay(run, steps, i, n - 1, p);
      RunGrows(run, steps, n - 1);
    } else {
      InvHolds(run, steps, i);
    }
  }

  lemma RunGrows(run: seq<State>, steps: seq<Step>, n: nat)
    requires IsRun(run, steps) && n < |steps|
    ensures Grows(run[n], run[n + 1])
  {
    InvHolds(run, steps, n);
    assert StepAt(run, steps, n);
    StepGrows(run[n], steps[n]);
  }

  /** The map that a call holds and may read without the lock, or with it. */
  function Reads(c: Call): Option<Ptr> {
    match c
    case Fetching(_, p) => Some(p)
    case UpdateWaiting(p) => Some(p)
    case Refetching(_, p) => Some(p)
    case Copying(_, _, source, _, _) => source
    case Refreshing(p, _, _, _) => Some(p)
    case _ => None
  }

  /** The map that a call is filling or is about to store. */
  function Fills(c: Call): Option<Ptr> {
    match c
    case Copying(_, _, _, p, _) => Some(p)
    case Storing(_, _, p) => Some(p)
    case Refreshing(_, p, _, _) => Some(p)
    case _ => None
  }

  /**
   In every interleaving no call ever holds for reading a map that any call is still filling, or will ever fill: from
   the step in which it got the reference on, the map is what it was then.
   */
  lemma ReadersSeeFinishedMaps(run: seq<State>, steps: seq<Step>, i: nat, n: nat, o: nat, w: nat)
    requires IsRun(run, steps) && i <= n < |run| && o < |run[i].calls| && Reads(run[i].calls[o]).Some?
    requires w < |run[n].calls|
    ensures var p := Reads(run[i].calls[o]).value;
            && Fills(run[n].calls[w]) != Some(p)
            && p < |run[i].heap| <= |run[n].heap| && run[n].heap[p] == run[i].heap[p]
  {
    InvHolds(run, steps, i);
    InvHolds(run, steps, n);
    assert CallOk(run[i], run[i].calls[o]) && CallOk(run[n], run[n].calls[w]);
    PublishedMapsStay(run, steps, i, n, Reads(run[i].calls[o]).value);
  }

  /** At most one call fills a map at a time, and it has the lock. */
  lemma OneWriter(run: seq<State>, steps: seq<Step>, n: nat, o: nat)
    requires IsRun(run, steps) && n < |run| && o < |run[n].calls| && Fills(run[n].calls[o]).Some?
    ensures run[n].lock == Some(o)
    ensures forall w :: 0 <= w < |run[n].calls| && w != o ==> Fills(run[n].calls[w]).None?
  {
    InvHolds(run, steps, n);
    forall w | 0 <= w < |run[n].calls| && w != o ensures Fills(run[n].calls[w]).None? {
      assert Locked(run[n].calls[w]) <==> run[n].lock == Some(w);
    }
  }

  // ---------------------------------------------------------------- where pairs come from

  /** What the delegate returns in this step, with the key it was asked for. */
  function Hears(s: State, step: Step): set<(K.KeyId, K.Pair)> {
    match step
    case Ask(o, answer) =>
      if o < |s.calls| && s.calls[o].Asking? && answer.Some? then {(s.calls[o].key, answer.value)} else {}
    case Refresh(_, k, answer) => if answer.Some? then {(k, answer.value)} else {}
    case _ => {}
  }

  /** What it has returned in the first n steps. */
  ghost function Heard(run: seq<State>, steps: seq<Step>, n: nat): set<(K.KeyId, K.Pair)>
    requires n <= |steps| < |run|
  {
    if n == 0 then {} else Heard(run, steps, n - 1) + Hears(run[n - 1], steps[n - 1])
  }

  ghost predicate Sound(pairs: K.Pairs, heard: set<(K.KeyId, K.Pair)>) {
    forall k :: k in pairs ==> (k, pairs[k]) in heard
  }

  ghost predicate CallKnown(c: Call, heard: set<(K.KeyId, K.Pair)>) {
    match c
    case Answered(key, pair) => (key, pair) in heard
    case Copying(key, pair, _, _, _) => (key, pair) in heard
    case Storing(key, pair, _) => (key, pair) in heard
    case Leaving(key, result) => result.Some? ==> (key, result.value) in heard
    case Resolved(key, result) => result.Some? ==> (key, result.value) in heard
    case _ => true
  }

  /** Every map, published or not, and every call has only pairs that the delegate returned for their keys. */
  ghost predicate Known(s: State, heard: set<(K.KeyId, K.Pair)>) {
    && (forall p :: 0 <= p < |s.heap| ==> Sound(s.heap[p], heard))
    && (forall o :: 0 <= o < |s.calls| ==> CallKnown(s.calls[o], heard))
  }

  lemma MapKnown(s: State, step: Step, heard: set<(K.KeyId, K.Pair)>, p: Ptr)
    requires Known(s, heard) && Enabled(s, step) && p < |Apply(s, step).heap|
    ensures Sound(Apply(s, step).heap[p], heard + Hears(s, step))
  {
    if p < |s.heap| {
      assert Sound(s.heap[p], heard);
      if !step.Resolve? && !step.Update? {
        assert CallKnown(s.calls[step.o], heard);
      }
    }
  }

  lemma StepKeepsKnown(s: State, step: Step, heard: set<(K.KeyId, K.Pair)>)
    requires Known(s, heard) && Enabled(s, step)
    ensures Known(Apply(s, step), heard + Hears(s, step))
  {
    var t, more := Apply(s, step), heard + Hears(s, step);
    forall p | 0 <= p < |t.heap| ensures Sound(t.heap[p], more) {
      MapKnown(s, step, heard, p);
    }
    forall o | 0 <= o < |t.calls| ensures CallKnown(t.calls[o], more) {
      if o < |s.calls| {
        CallStaysKnown(s, step, heard, o);
      }
    }
  }

  lemma CallStaysKnown(s: State, step: Step, heard: set<(K.KeyId, K.Pair)>, o: nat)
    requires Known(s, heard) && Enabled(s, step) && o < |s.calls|
    ensures CallKnown(Apply(s, step).calls[o], heard + Hears(s, step))
  {
    assert CallKnown(s.calls[o], heard);
    if step.Read? && step.o == o {
      assert Sound(s.heap[s.calls[o].from], heard);
    }
  }

  lemma {:induction false} AllIsKnown(run: seq<State>, steps: seq<Step>, n: nat)
    requires IsRun(run, steps) && n < |run|
    ensures Known(run[n], Heard(run, steps, n))
  {
    if n > 0 {
      AllIsKnown(run, steps, n - 1);
      assert StepAt(run, steps, n - 1);
      StepKeepsKnown(run[n - 1], steps[n - 1], Heard(run, steps, n - 1));
    }
  }

  lemma {:induction false} HeardWhen(run: seq<State>, steps: seq<Step>, n: nat, key: K.KeyId, pair: K.Pair)
    returns (i: nat)
    requires IsRun(run, steps) && n < |run| && (key, pair) in Heard(run, steps, n)
    ensures i < n && (key, pair) in Hears(run[i], steps[i])
  {
    if (key, pair) in Hears(run[n - 1], steps[n - 1]) {
      i := n - 1;
    } else {
      i := HeardWhen(run, steps, n - 1, key, pair);
    }
  }

  /** In every interleaving a pair in a published map was returned by the delegate for its key in an earlier step. */
  lemma PublishedPairsAreGenuine(run: seq<State>, steps: seq<Step>, n: nat, p: Ptr, key: K.KeyId) returns (i: nat)
    requires IsRun(run, steps) && n < |run| && p in run[n].published
    requires p < |run[n].heap| ==> key in run[n].heap[p]
    ensures i < n && p < |run[n].heap| && (key, run[n].heap[p][key]) in Hears(run[i], steps[i])
  {
    InvHolds(run, steps, n);
    AllIsKnown(run, steps, n);
    assert Sound(run[n].heap[p], Heard(run, steps, n));
    i := HeardWhen(run, steps, n, key, run[n].heap[p][key]);
  }

  /** ... and so was the pair that a ResolveKey returns, by the lock-free read or by the section. */
  lemma ResolvedPairsAreGenuine(run: seq<State>, steps: seq<Step>, n: nat, o: nat) returns (i: nat)
    requires IsRun(run, steps) && n < |run| && o < |run[n].calls|
    requires run[n].calls[o].Resolved? && run[n].calls[o].result.Some?
    ensures i < n && (run[n].calls[o].key, run[n].calls[o].result.value) in Hears(run[i], steps[i])
  {
    AllIsKnown(run, steps, n);
    assert CallKnown(run[n].calls[o], Heard(run, steps, n));
    i := HeardWhen(run, steps, n, run[n].calls[o].key, run[n].calls[o].result.value);
  }

  // ---------------------------------------------------------------- keys that disappear

  /** An UpdateKeys that gets no answer at all stores nothing. */
  lemma StoresOnlyAnswers(s: State, step: Step)
    requires Inv(s) && Enabled(s, step) && Apply(s, step).value != s.value
    ensures step.Store?
    ensures s.calls[step.o].Storing? || exists k :: k in s.calls[step.o].answers && s.calls[step.o].answers[k].Some?
  {
  }

  /**
   A step drops key k from the cache exactly when it is the store of an UpdateKeys and the map that this UpdateKeys
   read before it took the lock did not have k.
   */
  lemma KeyIsDropped(s: State, step: Step, k: K.KeyId)
    requires Inv(s) && Enabled(s, step) && k in Cached(s)
    ensures k !in Cached(Apply(s, step)) <==>
            step.Store? && s.calls[step.o].Refreshing? && k !in s.heap[s.calls[step.o].from]
  {
    StepGrows(s, step);
    if step.Store? {
      assert CallOk(s, s.calls[step.o]);
    }
  }

  /** The delegate answered for k in the UpdateKeys that the call is. */
  predicate Refreshed(c: Call, k: K.KeyId) {
    c.Refreshing? && k in c.answers && c.answers[k].Some?
  }

  /**
   A step replaces the cached pair of k only if it is the store of an UpdateKeys.  It does so without an answer for k,
   and so goes back to an older pair, exactly when the delegate failed for k and the map that this UpdateKeys read
   before it took the lock had another pair than the one cached by now.
   */
  lemma PairGoesBack(s: State, step: Step, k: K.KeyId)
    requires Inv(s) && Enabled(s, step) && k in Cached(s) && k in Cached(Apply(s, step))
    ensures Cached(Apply(s, step))[k] != Cached(s)[k] ==> step.Store? && s.calls[step.o].Refreshing?
    ensures Cached(Apply(s, step))[k] != Cached(s)[k] && !(step.Store? && Refreshed(s.calls[step.o], k)) <==>
            && step.Store? && s.calls[step.o].Refreshing? && !Refreshed(s.calls[step.o], k)
            && k in s.heap[s.calls[step.o].from] && s.heap[s.calls[step.o].from][k] != Cached(s)[k]
  {
    StepGrows(s, step);
    if step.Store? {
      assert CallOk(s, s.calls[step.o]);
    }
  }

  predicate Over(c: Call) {
    c.Resolved? || c.Updated?
  }

  /** No call begins before the ones begun earlier are over. */
  ghost predicate Serial(run: seq<State>, steps: seq<Step>)
    requires |run| == |steps| + 1
  {
    forall j, o :: 0 <= j < |steps| && (steps[j].Resolve? || steps[j].Update?) && 0 <= o < |run[j].calls| ==>
      Over(run[j].calls[o])
  }

  /** One call at most is under way, and what an UpdateKeys has read is what is cached. */
  ghost predicate Alone(s: State) {
    && (forall o, w :: 0 <= o < |s.calls| && 0 <= w < |s.calls| && !Over(s.calls[o]) && !Over(s.calls[w]) ==> o == w)
    && (forall o :: 0 <= o < |s.calls| && (s.calls[o].UpdateWaiting? || s.calls[o].Refreshing?) ==>
          s.value == Some(s.calls[o].from))
  }

  lemma StepKeepsAlone(s: State, step: Step)
    requires Alone(s) && Enabled(s, step)
    requires step.Resolve? || step.Update? ==> forall o :: 0 <= o < |s.calls| ==> Over(s.calls[o])
    ensures Alone(Apply(s, step))
  {
    if !step.Resolve? && !step.Update? {
      MoverStaysAlone(s, step);
    }
  }

  lemma MoverStaysAlone(s: State, step: Step)
    requires Alone(s) && Enabled(s, step) && !step.Resolve? && !step.Update?
    ensures Alone(Apply(s, step))
  {
    var t, o := Apply(s, step), step.o;
    assert !Over(s.calls[o]);
    forall w | 0 <= w < |s.calls| && w != o ensures Over(t.calls[w]) {
      assert t.calls[w] == s.calls[w];
    }
    assert t.calls[o].UpdateWaiting? || t.calls[o].Refreshing? ==> t.value == Some(t.calls[o].from);
  }

  lemma {:induction false} SerialIsAlone(run: seq<State>, steps: seq<Step>, n: nat)
    requires IsRun(run, steps) && n < |run| && Serial(run, steps)
    ensures Alone(run[n])
  {
    if n > 0 {
      SerialIsAlone(run, steps, n - 1);
      assert StepAt(run, steps, n - 1);
      StepKeepsAlone(run[n - 1], steps[n - 1]);
    }
  }

  lemma AloneKeepsKeys(s: State, step: Step)
    requires Inv(s) && Alone(s) && Enabled(s, step)
    ensures Cached(s).Keys <= Cached(Apply(s, step)).Keys
  {
    forall k | k in Cached(s) ensures k in Cached(Apply(s, step)) {
      KeyIsDropped(s, step, k);
    }
  }

  /** In serial runs no key ever disappears. */
  lemma {:induction false} SerialKeepsKeys(run: seq<State>, steps: seq<Step>, i: nat, n: nat)
    requires IsRun(run, steps) && i <= n < |run| && Serial(run, steps)
    ensures Cached(run[i]).Keys <= Cached(run[n]).Keys
    decreases n
  {
    if i < n {
      SerialKeepsKeys(run, steps, i, n - 1);
      SerialIsAlone(run, steps, n - 1);
      InvHolds(run, steps, n - 1);
      assert StepAt(run, steps, n - 1);
      AloneKeepsKeys(run[n - 1], steps[n - 1]);
    }
  }

  lemma AloneGoesNotBack(s: State, step: Step, k: K.KeyId)
    requires Inv(s) && Alone(s) && Enabled(s, step) && k in Cached(s) && k in Cached(Apply(s, step))
    ensures Cached(Apply(s, step))[k] != Cached(s)[k] ==> step.Store? && Refreshed(s.calls[step.o], k)
  {
    PairGoesBack(s, step, k);
  }

  /** ... and no pair is ever replaced but by the delegate's answer for its key. */
  lemma SerialGoesNotBack(run: seq<State>, steps: seq<Step>, n: nat, k: K.KeyId)
    requires IsRun(run, steps) && n < |steps| && Serial(run, steps) && k in Cached(run[n])
    ensures k in Cached(run[n + 1])
    ensures Cached(run[n + 1])[k] == Cached(run[n])[k]
            || (steps[n].Store? && steps[n].o < |run[n].calls| && Refreshed(run[n].calls[steps[n].o], k))
  {
    SerialIsAlone(run, steps, n);
    SerialKeepsKeys(run, steps, n, n + 1);
    InvHolds(run, steps, n);
    assert StepAt(run, steps, n);
    AloneGoesNotBack(run[n], steps[n], k);
  }

  ghost predicate Reachable(s: State) {
    exists run, steps :: IsRun(run, steps) && run[|steps|] == s
  }

  lemma InitialIsReachable()
    ensures Reachable(Initial)
  {
    assert IsRun([Initial], []) && [Initial][0] == Initial;
  }

  lemma Then(s: State, step: Step, t: State)
    requires Reachable(s) && Enabled(s, step) && t == Apply(s, step)
    ensures Reachable(t)
  {
    var run, steps :| IsRun(run, steps) && run[|steps|] == s;
    LongerRun(run, steps, step);
    var run', steps' := run + [t], steps + [step];
    assert IsRun(run', steps') && run'[|steps'|] == t;
  }

  lemma FirstAsked(a: K.KeyId, x: K.Pair)
    ensures Reachable(State(None, [], Some(0), [Answered(a, x)], {}))
  {
    InitialIsReachable();
    var s1 := State(None, [], None, [Waiting(a)], {});
    var s2 := State(None, [], Some(0), [Rechecking(a)], {});
    var s3 := State(None, [], Some(0), [Asking(a)], {});
    Then(Initial, Resolve(a), s1);
    Then(s1, Acquire(0), s2);
    Then(s2, Reload(0), s3);
    Then(s3, Ask(0, Some(x)), State(None, [], Some(0), [Answered(a, x)], {}));
  }

  lemma FirstAdded(a: K.KeyId, x: K.Pair)
    ensures Reachable(State(None, [map[a := x]], Some(0), [Storing(a, x, 0)], {}))
  {
    FirstAsked(a, x);
    var s1 := State(None, [map[]], Some(0), [Copying(a, x, None, 0, {})], {});
    Then(State(None, [], Some(0), [Answered(a, x)], {}), Copy(0), s1);
    Then(s1, AddPair(0), State(None, [map[a := x]], Some(0), [Storing(a, x, 0)], {}));
  }

  /** Key a is resolved and cached. */
  lemma FirstResolved(a: K.KeyId, x: K.Pair)
    ensures Reachable(State(Some(0), [map[a := x]], None, [Resolved(a, Some(x))], {0}))
  {
    FirstAdded(a, x);
    var s3 := State(Some(0), [map[a := x]], Some(0), [Leaving(a, Some(x))], {0});
    Then(State(None, [map[a := x]], Some(0), [Storing(a, x, 0)], {}), Store(0), s3);
    Then(s3, Release(0), State(Some(0), [map[a := x]], None, [Resolved(a, Some(x))], {0}));
  }

  /** UpdateKeys has read the map with a, and ResolveKey has missed b in it and asked for it. */
  lemma SecondAsked(a: K.KeyId, b: K.KeyId, x: K.Pair)
    requires a != b
    ensures Reachable(State(Some(0), [map[a := x]], Some(2),
                            [Resolved(a, Some(x)), UpdateWaiting(0), Answered(b, x)], {0}))
  {
    FirstResolved(a, x);
    var heap, first := [map[a := x]], Resolved(a, Some(x));
    var s1 := State(Some(0), heap, None, [first, UpdateWaiting(0)], {0});
    var s2 := State(Some(0), heap, None, [first, UpdateWaiting(0), Fetching(b, 0)], {0});
    var s3 := State(Some(0), heap, None, [first, UpdateWaiting(0), Waiting(b)], {0});
    var s4 := State(Some(0), heap, Some(2), [first, UpdateWaiting(0), Rechecking(b)], {0});
    var s5 := State(Some(0), heap, Some(2), [first, UpdateWaiting(0), Refetching(b, 0)], {0});
    var s6 := State(Some(0), heap, Some(2), [first, UpdateWaiting(0), Asking(b)], {0});
    Then(State(Some(0), heap, None, [first], {0}), Update, s1);
    Then(s1, Resolve(b), s2);
    Then(s2, Read(2), s3);
    Then(s3, Acquire(2), s4);
    Then(s4, Reload(2), s5);
    Then(s5, Read(2), s6);
    Then(s6, Ask(2, Some(x)), State(Some(0), heap, Some(2), [first, UpdateWaiting(0), Answered(b, x)], {0}));
  }

  lemma SecondCopied(a: K.KeyId, b: K.KeyId, x: K.Pair)
    requires a != b
    ensures Reachable(State(Some(0), [map[a := x], map[a := x]], Some(2),
                            [Resolved(a, Some(x)), UpdateWaiting(0), Copying(b, x, Some(0), 1, {})], {0}))
  {
    SecondAsked(a, b, x);
    var m, first, second := map[a := x], Resolved(a, Some(x)), UpdateWaiting(0);
    var s1 := State(Some(0), [m, map[]], Some(2), [first, second, Copying(b, x, Some(0), 1, {a})], {0});
    assert m.Keys == {a};
    Then(State(Some(0), [m], Some(2), [first, second, Answered(b, x)], {0}), Copy(2), s1);
    assert {a} - {a} == {};
    Then(s1, CopyOne(2, a), State(Some(0), [m, m], Some(2), [first, second, Copying(b, x, Some(0), 1, {})], {0}));
  }

  /** Then ResolveKey stores a copy of the map with b. */
  lemma SecondResolved(a: K.KeyId, b: K.KeyId, x: K.Pair)
    requires a != b
    ensures Reachable(State(Some(1), [map[a := x], map[a := x, b := x]], None,
                            [Resolved(a, Some(x)), UpdateWaiting(0), Resolved(b, Some(x))], {0, 1}))
  {
    SecondCopied(a, b, x);
    var m, n, first, second := map[a := x], map[a := x, b := x], Resolved(a, Some(x)), UpdateWaiting(0);
    assert m[b := x] == n;
    var s1 := State(Some(0), [m, n], Some(2), [first, second, Storing(b, x, 1)], {0});
    var s2 := State(Some(1), [m, n], Some(2), [first, second, Leaving(b, Some(x))], {0, 1});
    Then(State(Some(0), [m, m], Some(2), [first, second, Copying(b, x, Some(0), 1, {})], {0}), AddPair(2), s1);
    Then(s1, Store(2), s2);
    Then(s2, Release(2), State(Some(1), [m, n], None, [first, second, Resolved(b, Some(x))], {0, 1}));
  }

  /** Interleaved, a key can disappear: UpdateKeys refreshes the map it read before b came, and stores that. */
  lemma KeyCanDisappear(a: K.KeyId, b: K.KeyId, x: K.Pair) returns (s: State, step: Step)
    requires a != b
    ensures Reachable(s) && Enabled(s, step) && b in Cached(s) && b !in Cached(Apply(s, step))
  {
    SecondResolved(a, b, x);
    var m, n, first, third := map[a := x], map[a := x, b := x], Resolved(a, Some(x)), Resolved(b, Some(x));
    var answers := map[a := Some(x)];
    var s1 := State(Some(1), [m, n, map[]], Some(1), [first, Refreshing(0, 2, {a}, map[]), third], {0, 1});
    var s2 := State(Some(1), [m, n, m], Some(1), [first, Refreshing(0, 2, {}, answers), third], {0, 1});
    assert m.Keys == {a};
    Then(State(Some(1), [m, n], None, [first, UpdateWaiting(0), third], {0, 1}), Acquire(1), s1);
    assert {a} - {a} == {};
    Then(s1, Refresh(1, a, Some(x)), s2);
    assert a in answers && answers[a].Some?;
    s, step := s2, Store(1);
  }

  /** The calls of the next runs: both UpdateKeys have read map 1, which has x for both keys. */
  function Calls(a: K.KeyId, b: K.KeyId, x: K.Pair, first: Call, second: Call): seq<Call> {
    [Resolved(a, Some(x)), UpdateWaiting(0), Resolved(b, Some(x)), first, second]
  }

  lemma TwoUpdates(a: K.KeyId, b: K.KeyId, x: K.Pair)
    requires a != b
    ensures Reachable(State(Some(1), [map[a := x], map[a := x, b := x]], None,
                            Calls(a, b, x, UpdateWaiting(1), UpdateWaiting(1)), {0, 1}))
  {
    SecondResolved(a, b, x);
    var heap := [map[a := x], map[a := x, b := x]];
    var calls := [Resolved(a, Some(x)), UpdateWaiting(0), Resolved(b, Some(x))];
    var s1 := State(Some(1), heap, None, calls + [UpdateWaiting(1)], {0, 1});
    Then(State(Some(1), heap, None, calls, {0, 1}), Update, s1);
    assert calls + [UpdateWaiting(1)] + [UpdateWaiting(1)] == Calls(a, b, x, UpdateWaiting(1), UpdateWaiting(1));
    Then(s1, Update, State(Some(1), heap, None, Calls(a, b, x, UpdateWaiting(1), UpdateWaiting(1)), {0, 1}));
  }

  /** The first of them gets y for a and x for b ... */
  lemma FirstRefreshed(a: K.KeyId, b: K.KeyId, x: K.Pair, y: K.Pair)
    requires a != b
    ensures var old', new' := map[a := x, b := x], map[a := y, b := x];
            Reachable(State(Some(1), [map[a := x], old', new'], Some(3),
                            Calls(a, b, x, Refreshing(1, 2, {}, map[a := Some(y), b := Some(x)]), UpdateWaiting(1)),
                            {0, 1}))
  {
    TwoUpdates(a, b, x);
    var m, n, w := map[a := x], map[a := x, b := x], UpdateWaiting(1);
    var s0 := State(Some(1), [m, n], None, Calls(a, b, x, w, w), {0, 1});
    var s1 := State(Some(1), [m, n, map[]], Some(3), Calls(a, b, x, Refreshing(1, 2, {a, b}, map[]), w), {0, 1});
    var s2 := State(Some(1), [m, n, map[a := y]], Some(3),
                    Calls(a, b, x, Refreshing(1, 2, {b}, map[a := Some(y)]), w), {0, 1});
    assert n.Keys == {a, b};
    Then(s0, Acquire(3), s1);
    assert {a, b} - {a} == {b};
    Then(s1, Refresh(3, a, Some(y)), s2);
    assert {b} - {b} == {};
    Then(s2, Refresh(3, b, Some(x)),
         State(Some(1), [m, n, map[a := y, b := x]], Some(3),
               Calls(a, b, x, Refreshing(1, 2, {}, map[a := Some(y), b := Some(x)]), w), {0, 1}));
  }

  lemma TwoKeys(a: K.KeyId, b: K.KeyId, x: K.Pair)
    requires a != b
    ensures |map[a := x, b := x]| == 2
  {
    var n := map[a := x, b := x];
    assert n.Keys == {a, b} && |n| == |n.Keys|;
  }

  /** ... and stores them ... */
  lemma FirstStored(a: K.KeyId, b: K.KeyId, x: K.Pair, y: K.Pair)
    requires a != b
    ensures Reachable(State(Some(2), [map[a := x], map[a := x, b := x], map[a := y, b := x]], Some(3),
                            Calls(a, b, x, UpdateLeaving(2), UpdateWaiting(1)), {0, 1, 2}))
  {
    FirstRefreshed(a, b, x, y);
    var n, answers := map[a := x, b := x], map[a := Some(y), b := Some(x)];
    var heap, w := [map[a := x], n, map[a := y, b := x]], UpdateWaiting(1);
    assert a in answers && answers[a].Some?;
    TwoKeys(a, b, x);
    Then(State(Some(1), heap, Some(3), Calls(a, b, x, Refreshing(1, 2, {}, answers), w), {0, 1}), Store(3),
         State(Some(2), heap, Some(3), Calls(a, b, x, UpdateLeaving(2), w), {0, 1, 2}));
  }

  /** ... and is over. */
  lemma FirstUpdated(a: K.KeyId, b: K.KeyId, x: K.Pair, y: K.Pair)
    requires a != b
    ensures Reachable(State(Some(2), [map[a := x], map[a := x, b := x], map[a := y, b := x]], None,
                            Calls(a, b, x, Updated(2), UpdateWaiting(1)), {0, 1, 2}))
  {
    FirstStored(a, b, x, y);
    var heap, w := [map[a := x], map[a := x, b := x], map[a := y, b := x]], UpdateWaiting(1);
    Then(State(Some(2), heap, Some(3), Calls(a, b, x, UpdateLeaving(2), w), {0, 1, 2}), Release(3),
         State(Some(2), heap, None, Calls(a, b, x, Updated(2), w), {0, 1, 2}));
  }

  /** The second gets no answer for a ... */
  lemma SecondFails(a: K.KeyId, b: K.KeyId, x: K.Pair, y: K.Pair)
    requires a != b
    ensures Reachable(State(Some(2), [map[a := x], map[a := x, b := x], map[a := y, b := x], map[a := x]], Some(4),
                            Calls(a, b, x, Updated(2), Refreshing(1, 3, {b}, map[a := None])), {0, 1, 2}))
  {
    FirstUpdated(a, b, x, y);
    var m, n, l, u := map[a := x], map[a := x, b := x], map[a := y, b := x], Updated(2);
    var s0 := State(Some(2), [m, n, l], None, Calls(a, b, x, u, UpdateWaiting(1)), {0, 1, 2});
    var s1 := State(Some(2), [m, n, l, map[]], Some(4), Calls(a, b, x, u, Refreshing(1, 3, {a, b}, map[])), {0, 1, 2});
    assert n.Keys == {a, b};
    Then(s0, Acquire(4), s1);
    assert {a, b} - {a} == {b};
    Then(s1, Refresh(4, a, None),
         State(Some(2), [m, n, l, m], Some(4), Calls(a, b, x, u, Refreshing(1, 3, {b}, map[a := None])), {0, 1, 2}));
  }

  /** ... and stores the x that it read before, where y is cached: interleaved, a pair can go back. */
  lemma PairCanGoBack(a: K.KeyId, b: K.KeyId, x: K.Pair, y: K.Pair) returns (s: State, step: Step)
    requires a != b
    ensures Reachable(s) && Enabled(s, step) && a in Cached(s) && Cached(s)[a] == y
    ensures a in Cached(Apply(s, step)) && Cached(Apply(s, step))[a] == x
    ensures step.Store? && !Refreshed(s.calls[step.o], a)
  {
    SecondFails(a, b, x, y);
    var m, n, l, u := map[a := x], map[a := x, b := x], map[a := y, b := x], Updated(2);
    var answers := map[a := None, b := Some(x)];
    assert m[b := x] == n && {b} - {b} == {};
    s := State(Some(2), [m, n, l, n], Some(4), Calls(a, b, x, u, Refreshing(1, 3, {}, answers)), {0, 1, 2});
    Then(State(Some(2), [m, n, l, m], Some(4), Calls(a, b, x, u, Refreshing(1, 3, {b}, map[a := None])), {0, 1, 2}),
         Refresh(4, b, Some(x)), s);
    assert b in answers && answers[b].Some?;
    step := Store(4);
  }

  // ---------------------------------------------------------------- sections are atomic

  /** What a call is in the cache whose sections are single steps and whose maps are values. */
  function Abstract(s: State, c: Call): K.Op {
    match c
    case Fetching(key, p) =>
      var hit := K.Fetch(Deref(s, Some(p)), key);
      if hit.Some? then K.Resolve(key, hit) else K.Resolving(key)
    case Leaving(key, result) => K.Resolve(key, result)
    case Resolved(key, result) => K.Resolve(key, result)
    case UpdateWaiting(p) => K.Updating(if p < |s.heap| then s.heap[p] else map[])
    case Refreshing(p, _, _, _) => K.Updating(if p < |s.heap| then s.heap[p] else map[])
    case UpdateLeaving(count) => K.Update(count)
    case Updated(count) => K.Update(count)
    case _ => K.Resolving(c.key)
  }

  ghost predicate Matches(s: State, a: K.State) {
    && a.value == Deref(s, s.value)
    && |a.ops| == |s.calls| && (forall o :: 0 <= o < |s.calls| ==> a.ops[o] == Abstract(s, s.calls[o]))
  }

  /** The step in which a section takes effect, if this is one. */
  function Effect(s: State, step: Step): Option<K.Step>
    requires Enabled(s, step)
  {
    match step
    case Resolve(key) => Some(K.BeginResolve(key))
    case Update => Some(K.BeginUpdate)
    case Read(o) =>
      if s.calls[o].Refetching? && s.calls[o].key in s.heap[s.calls[o].from] then Some(K.ResolveSection(o, None))
      else None
    case Ask(o, answer) => if answer.None? then Some(K.ResolveSection(o, None)) else None
    case Store(o) =>
      if s.calls[o].Storing? then Some(K.ResolveSection(o, Some(s.calls[o].pair)))
      else Some(K.UpdateSection(o, s.calls[o].answers))
    case Skip(o) => Some(K.UpdateSection(o, s.calls[o].answers))
    case _ => None
  }

  lemma AbstractStays(s: State, t: State, c: Call)
    requires CallOk(s, c) && Grows(s, t)
    ensures Abstract(t, c) == Abstract(s, c)
  {
  }

  /** Matching, but for the call o. */
  ghost predicate MatchesBut(s: State, a: K.State, o: nat) {
    && |a.ops| == |s.calls|
    && (forall i :: 0 <= i < |s.calls| && i != o ==> a.ops[i] == Abstract(s, s.calls[i]))
  }

  lemma OthersMatch(s: State, step: Step, a: K.State)
    requires Inv(s) && Enabled(s, step) && Matches(s, a) && !step.Resolve? && !step.Update?
    ensures MatchesBut(Apply(s, step), a, step.o)
  {
    var t := Apply(s, step);
    StepGrows(s, step);
    forall i | 0 <= i < |t.calls| && i != step.o ensures a.ops[i] == Abstract(t, t.calls[i]) {
      assert CallOk(s, s.calls[i]);
      AbstractStays(s, t, s.calls[i]);
    }
  }

  /** What is stored is what the atomic section makes of the cached map. */
  lemma StoredMap(s: State, o: nat)
    requires Inv(s) && Enabled(s, Store(o))
    ensures var c := s.calls[o];
            && c.to < |s.heap|
            && (c.Storing? ==>
                  && K.Fetch(Deref(s, s.value), c.key).None?
                  && K.Resolved(Deref(s, s.value), c.key, Some(c.pair)) == Some(s.heap[c.to]))
            && (c.Refreshing? ==>
                  && c.answers.Keys == s.heap[c.from].Keys && K.AnySuccess(s.heap[c.from], c.answers)
                  && K.Refreshed(s.heap[c.from], c.answers) == s.heap[c.to])
  {
    var c := s.calls[o];
    assert CallOk(s, c);
    if c.Refreshing? {
      var k :| k in c.answers && c.answers[k].Some?;
      assert k in s.heap[c.from];
      assert K.Refreshed(s.heap[c.from], c.answers).Keys == s.heap[c.to].Keys;
    }
  }

  lemma Assemble(t: State, a: K.State, b: K.State, o: nat)
    requires MatchesBut(t, a, o) && o < |t.calls|
    requires b == K.State(Deref(t, t.value), a.ops[o := Abstract(t, t.calls[o])])
    ensures Matches(t, b)
  {
  }

  lemma ResolveStores(s: State, o: nat, a: K.State)
    requires Inv(s) && Enabled(s, Store(o)) && Matches(s, a) && s.calls[o].Storing?
    ensures var e := K.ResolveSection(o, Some(s.calls[o].pair));
            K.Enabled(a, e) && Matches(Apply(s, Store(o)), K.Apply(a, e))
  {
    var c, t := s.calls[o], Apply(s, Store(o));
    assert a.ops[o] == Abstract(s, c);
    StoredMap(s, o);
    OthersMatch(s, Store(o), a);
    var b := K.Apply(a, K.ResolveSection(o, Some(c.pair)));
    assert b.value == Deref(t, t.value);
    assert b.ops == a.ops[o := K.Resolve(c.key, Some(c.pair))];
    Assemble(t, a, b, o);
  }

  lemma UpdateStores(s: State, o: nat, a: K.State)
    requires Inv(s) && Enabled(s, Store(o)) && Matches(s, a) && s.calls[o].Refreshing?
    ensures var e := K.UpdateSection(o, s.calls[o].answers);
            K.Enabled(a, e) && Matches(Apply(s, Store(o)), K.Apply(a, e))
  {
    assert a.ops[o] == K.Updating(s.heap[s.calls[o].from]);
    StoredMap(s, o);
    OthersMatch(s, Store(o), a);
    UpdateStored(s, o, a);
  }

  lemma UpdateStored(s: State, o: nat, a: K.State)
    requires Enabled(s, Store(o)) && s.calls[o].Refreshing? && MatchesBut(Apply(s, Store(o)), a, o)
    requires var c := s.calls[o];
             && c.to < |s.heap| && a.ops[o] == K.Updating(s.heap[c.from]) && c.answers.Keys == s.heap[c.from].Keys
             && K.AnySuccess(s.heap[c.from], c.answers) && K.Refreshed(s.heap[c.from], c.answers) == s.heap[c.to]
    ensures var e := K.UpdateSection(o, s.calls[o].answers);
            K.Enabled(a, e) && Matches(Apply(s, Store(o)), K.Apply(a, e))
  {
    var c := s.calls[o];
    UpdateIs(a, o, s.heap[c.from], c.answers, s.heap[c.to]);
    Assemble(Apply(s, Store(o)), a, K.Apply(a, K.UpdateSection(o, c.answers)), o);
  }

  lemma UpdateIs(a: K.State, o: nat, from: K.Pairs, answers: map<K.KeyId, K.Answer>, to: K.Pairs)
    requires o < |a.ops| && a.ops[o] == K.Updating(from) && answers.Keys == from.Keys
    requires K.AnySuccess(from, answers) && K.Refreshed(from, answers) == to
    ensures K.Apply(a, K.UpdateSection(o, answers)) == K.State(Some(to), a.ops[o := K.Update(|from|)])
  {
  }

  /** A step without an effect does not show, neither in its own call nor in the cached map. */
  lemma QuietMover(s: State, step: Step)
    requires Inv(s) && Enabled(s, step) && Effect(s, step).None?
    ensures var t := Apply(s, step);
            && Abstract(t, t.calls[step.o]) == Abstract(s, s.calls[step.o])
            && Deref(t, t.value) == Deref(s, s.value)
  {
    assert CallOk(s, s.calls[step.o]);
    StepGrows(s, step);
    QuietCall(s, step, s.calls[step.o]);
  }

  lemma QuietCall(s: State, step: Step, c: Call)
    requires Enabled(s, step) && Effect(s, step).None? && c == s.calls[step.o]
    requires CallOk(s, c) && Grows(s, Apply(s, step))
    ensures Abstract(Apply(s, step), Apply(s, step).calls[step.o]) == Abstract(s, c)
  {
  }

  lemma QuietStep(s: State, step: Step, a: K.State)
    requires Inv(s) && Enabled(s, step) && Matches(s, a) && Effect(s, step).None?
    ensures Matches(Apply(s, step), a)
  {
    QuietMover(s, step);
    OthersMatch(s, step, a);
    assert a.ops[step.o] == Abstract(s, s.calls[step.o]);
  }

  /** The other steps with an effect: the load of a new call, and the end of a section that stores nothing. */
  lemma LoadSimulates(s: State, step: Step, a: K.State)
    requires Inv(s) && Matches(s, a) && (step.Resolve? || step.Update?)
    ensures K.Enabled(a, Effect(s, step).value) && Matches(Apply(s, step), K.Apply(a, Effect(s, step).value))
  {
    var t := Apply(s, step);
    StepGrows(s, step);
    forall i | 0 <= i < |s.calls| ensures a.ops[i] == Abstract(t, t.calls[i]) {
      assert CallOk(s, s.calls[i]);
      AbstractStays(s, t, s.calls[i]);
    }
  }

  lemma ResolveEnds(s: State, step: Step, a: K.State)
    requires Inv(s) && Enabled(s, step) && Matches(s, a) && Effect(s, step).Some? && (step.Read? || step.Ask?)
    ensures K.Enabled(a, Effect(s, step).value) && Matches(Apply(s, step), K.Apply(a, Effect(s, step).value))
  {
    var c := s.calls[step.o];
    assert CallOk(s, c) && a.ops[step.o] == Abstract(s, c);
    OthersMatch(s, step, a);
    assert a.ops[step.o] == K.Resolving(c.key);
    assert K.Fetch(a.value, c.key).Some? <==> step.Read?;
  }

  lemma NothingRefreshed(s: State, o: nat)
    requires Inv(s) && Enabled(s, Skip(o))
    ensures var c := s.calls[o];
            c.answers.Keys == s.heap[c.from].Keys && !K.AnySuccess(s.heap[c.from], c.answers)
  {
    assert CallOk(s, s.calls[o]);
  }

  lemma UpdateEnds(s: State, o: nat, a: K.State)
    requires Inv(s) && Enabled(s, Skip(o)) && Matches(s, a)
    ensures K.Enabled(a, Effect(s, Skip(o)).value)
    ensures Matches(Apply(s, Skip(o)), K.Apply(a, Effect(s, Skip(o)).value))
  {
    NothingRefreshed(s, o);
    OthersMatch(s, Skip(o), a);
    assert a.ops[o] == K.Updating(s.heap[s.calls[o].from]);
    Assemble(Apply(s, Skip(o)), a, K.Apply(a, Effect(s, Skip(o)).value), o);
  }

  lemma StepSimulates(s: State, step: Step, a: K.State)
    requires Inv(s) && Enabled(s, step) && Matches(s, a)
    ensures var e := Effect(s, step);
            if e.None? then Matches(Apply(s, step), a)
            else K.Enabled(a, e.value) && Matches(Apply(s, step), K.Apply(a, e.value))
  {
    if Effect(s, step).None? {
      QuietStep(s, step, a);
    } else if step.Resolve? || step.Update? {
      LoadSimulates(s, step, a);
    } else if step.Store? && s.calls[step.o].Storing? {
      ResolveStores(s, step.o, a);
    } else if step.Store? {
      UpdateStores(s, step.o, a);
    } else if step.Skip? {
      UpdateEnds(s, step.o, a);
    } else {
      ResolveEnds(s, step, a);
    }
  }

  /**
   Every interleaving of loads, reads, writes and stores is one of atomic sections on map values: the same calls, with
   the same results, and the same cached map.
   */
  lemma {:induction false} RunsAreAtomic(run: seq<State>, steps: seq<Step>, n: nat)
    returns (atomic: seq<K.State>, sections: seq<K.Step>)
    requires IsRun(run, steps) && n < |run|
    ensures K.IsRun(atomic, sections) && Matches(run[n], atomic[|sections|])
  {
    if n == 0 {
      atomic, sections := [K.Initial], [];
    } else {
      atomic, sections := RunsAreAtomic(run, steps, n - 1);
      InvHolds(run, steps, n - 1);
      assert StepAt(run, steps, n - 1);
      atomic, sections := AtomicStep(run[n - 1], steps[n - 1], atomic, sections);
    }
  }

  lemma AtomicStep(s: State, step: Step, run: seq<K.State>, steps: seq<K.Step>)
    returns (run': seq<K.State>, steps': seq<K.Step>)
    requires Inv(s) && Enabled(s, step) && K.IsRun(run, steps) && Matches(s, run[|steps|])
    ensures K.IsRun(run', steps') && Matches(Apply(s, step), run'[|steps'|])
  {
    StepSimulates(s, step, run[|steps|]);
    if Effect(s, step).Some? {
      var section := Effect(s, step).value;
      K.LongerRun(run, steps, section);
      run', steps' := run + [K.Apply(run[|steps|], section)], steps + [section];
    } else {
      run', steps' := run, steps;
    }
  }
}
