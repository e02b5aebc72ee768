/** The caches of resolved keys: values published by an atomic swap, updated under a lock. */
module KeyCache {
  import opened Options
  import opened Counting

  type KeyId = string
  datatype Pair = Pair(serial: nat)

  type Pairs = map<KeyId, Pair>

  // ---------------------------------------------------------------- the sections as functions

  /** What the delegate answers when asked for a key: a pair, or None for an error. */
  type Answer = Option<Pair>

  function Fetch(value: Option<Pairs>, key: KeyId): Option<Pair> {
    if value.Some? && key in value.value then Some(value.value[key]) else None
  }

  /** ResolveKey's locked section: look again, and only then ask; a copy with the new pair replaces the map. */
  function Resolved(value: Option<Pairs>, key: KeyId, answer: Answer): Option<Pairs> {
    if Fetch(value, key).Some? || answer.None? then value
    else Some((if value.Some? then value.value else map[])[key := answer.value])
  }

  /** The map UpdateKeys builds from the one it read: the new pairs, and the old ones where there was an error. */
  function Refreshed(existing: Pairs, answers: map<KeyId, Answer>): Pairs {
    map k | k in existing :: if k in answers && answers[k].Some? then answers[k].value else existing[k]
  }

  function AnySuccess(existing: Pairs, answers: map<KeyId, Answer>): bool {
    exists k :: k in existing && k in answers && answers[k].Some?
  }

  function UpdatedBy(value: Option<Pairs>, existing: Pairs, answers: map<KeyId, Answer>): Option<Pairs> {
    if AnySuccess(existing, answers) then Some(Refreshed(existing, answers)) else value
  }

  function Keys(value: Option<Pairs>): set<KeyId> {
    if value.Some? then value.value.Keys else {}
  }

  // ---------------------------------------------------------------- concurrent use, section by section

  datatype Op =
    | Resolving(key: KeyId)                     // missed without the lock; the section is still to come
    | Updating(existing: Pairs)                 // has read the map it will refresh
    | Resolve(key: KeyId, result: Option<Pair>) // has returned a pair, or an error
    | Update(count: nat)

  datatype State = State(value: Option<Pairs>, ops: seq<Op>)

  const Initial := State(None, [])

  datatype Step =
    | BeginResolve(key: KeyId)
    | ResolveSection(o: nat, answer: Answer)
    | BeginUpdate
    | UpdateSection(o: nat, answers: map<KeyId, Answer>)

  /** The delegate is asked once for every key that was read. */
  predicate Enabled(s: State, step: Step) {
    match step
    case BeginResolve(_) => true
    case ResolveSection(o, _) => o < |s.ops| && s.ops[o].Resolving?
    case BeginUpdate => true
    case UpdateSection(o, answers) => o < |s.ops| && s.ops[o].Updating? && answers.Keys == s.ops[o].existing.Keys
  }

  function Apply(s: State, step: Step): State
    requires Enabled(s, step)
  {
    match step
    case BeginResolve(key) =>
      var hit := Fetch(s.value, key);
      s.(ops := s.ops + [if hit.Some? then Resolve(key, hit) else Resolving(key)])
    case ResolveSection(o, answer) =>
      var key := s.ops[o].key;
      var hit := Fetch(s.value, key);
      State(Resolved(s.value, key, answer), s.ops[o := Resolve(key, if hit.Some? then hit else answer)])
    case BeginUpdate =>
      s.(ops := s.ops + [if s.value.Some? then Updating(s.value.value) else Update(0)])
    case UpdateSection(o, answers) =>
      var existing := s.ops[o].existing;
      State(UpdatedBy(s.value, existing, answers), s.ops[o := Update(|existing|)])
  }

  /** Step number i of a run: it could be taken, and it led to the next state. */
  ghost predicate StepAt(run: seq<State>, steps: seq<Step>, i: nat) {
    i < |steps| && i + 1 < |run| && Enabled(run[i], steps[i]) && run[i + 1] == Apply(run[i], steps[i])
  }

  ghost predicate IsRun(run: seq<State>, steps: seq<Step>) {
    && |run| == |steps| + 1
    && run[0] == Initial
    && (forall i: nat :: i < |steps| ==> StepAt(run, steps, i))
  }

  lemma LongerRun(run: seq<State>, steps: seq<Step>, step: Step)
    requires IsRun(run, steps) && Enabled(run[|steps|], step)
    ensures IsRun(run + [Apply(run[|steps|], step)], steps + [step])
  {
    var run', steps' := run + [Apply(run[|steps|], step)], steps + [step];
    forall i: nat | i < |steps'| ensures StepAt(run', steps', i) {
      if i < |steps| {
        assert StepAt(run, steps, i);
        assert run'[i] == run[i] && steps'[i] == steps[i] && run'[i + 1] == run[i + 1];
      } else {
        assert run'[i] == run[i] && steps'[i] == step && run'[i + 1] == Apply(run[i], step);
      }
    }
  }

  // ---------------------------------------------------------------- the objects

  /** The delegate, for the length of one call: any answer to any key.  `asked` lists the keys it was asked for. */
  type Delegate = KeyId -> Answer

  /** Its answers for the keys of a map. */
  function AnswersFor(existing: Pairs, delegate: Delegate): map<KeyId, Answer> {
    map k | k in existing :: delegate(k)
  }

  function Failures(existing: Pairs, delegate: Delegate): set<KeyId> {
    set k | k in existing && delegate(k).None?
  }

  /** The loop of UpdateKeys is under way: the keys of `rest` are still to be asked for. */
  ghost predicate Refreshing(existing: Pairs, delegate: Delegate, rest: set<KeyId>, newPairs: Pairs) {
    && rest <= existing.Keys && newPairs.Keys == existing.Keys - rest
    && (forall k :: k in newPairs ==> newPairs[k] == if delegate(k).Some? then delegate(k).value else existing[k])
  }

  lemma RefreshStep(existing: Pairs, delegate: Delegate, rest: set<KeyId>, newPairs: Pairs, key: KeyId)
    requires Refreshing(existing, delegate, rest, newPairs) && key in rest
    ensures Refreshing(existing, delegate, rest - {key},
                       newPairs[key := if delegate(key).Some? then delegate(key).value else existing[key]])
  {
  }

  /** The keys asked for so far: each of those that are not in `rest`, once. */
  ghost predicate AskedOnce(existing: Pairs, rest: set<KeyId>, asked: seq<KeyId>) {
    Distinct(asked) && Elements(asked) == existing.Keys - rest
  }

  lemma AskedStep(existing: Pairs, rest: set<KeyId>, asked: seq<KeyId>, key: KeyId)
    requires AskedOnce(existing, rest, asked) && key in rest && key in existing
    ensures AskedOnce(existing, rest - {key}, asked + [key])
  {
    ElementsStep(asked, key);
  }

  /** What the loop has counted by then. */
  ghost predicate Tally(existing: Pairs, delegate: Delegate, rest: set<KeyId>, good: nat, bad: nat) {
    && bad == |Failures(existing, delegate) - rest|
    && (good > 0 <==> exists k :: k in existing && k !in rest && delegate(k).Some?)
  }

  lemma TallyStep(existing: Pairs, delegate: Delegate, rest: set<KeyId>, good: nat, bad: nat, key: KeyId)
    requires Tally(existing, delegate, rest, good, bad) && key in rest && key in existing
    ensures delegate(key).Some? ==> Tally(existing, delegate, rest - {key}, good + 1, bad)
    ensures delegate(key).None? ==> Tally(existing, delegate, rest - {key}, good, bad + 1)
  {
    var failures, less := Failures(existing, delegate), rest - {key};
    if delegate(key).Some? {
      assert failures - less == failures - rest;
      assert key in existing && key !in less && delegate(key).Some?;
    } else {
      assert failures - less == (failures - rest) + {key};
      assert forall k :: k in existing && k !in less && delegate(k).Some? ==> k !in rest;
    }
  }

  function NewPair(existing: Pairs, delegate: Delegate, key: KeyId): Pair
    requires key in existing
  {
    if delegate(key).Some? then delegate(key).value else existing[key]
  }

  ghost predicate Underway(existing: Pairs, delegate: Delegate, rest: set<KeyId>, newPairs: Pairs,
                           good: nat, bad: nat, asked: seq<KeyId>) {
    && Refreshing(existing, delegate, rest, newPairs) && AskedOnce(existing, rest, asked)
    && Tally(existing, delegate, rest, good, bad)
  }

  lemma UnderwayStep(existing: Pairs, delegate: Delegate, rest: set<KeyId>, newPairs: Pairs,
                     good: nat, bad: nat, asked: seq<KeyId>, key: KeyId)
    requires Underway(existing, delegate, rest, newPairs, good, bad, asked) && key in rest
    ensures key in existing
    ensures Underway(existing, delegate, rest - {key}, newPairs[key := NewPair(existing, delegate, key)],
                     if delegate(key).Some? then good + 1 else good, if delegate(key).Some? then bad else bad + 1,
                     asked + [key])
  {
    RefreshStep(existing, delegate, rest, newPairs, key);
    AskedStep(existing, rest, asked, key);
    TallyStep(existing, delegate, rest, good, bad, key);
  }

  lemma UnderwayEnds(existing: Pairs, delegate: Delegate, newPairs: Pairs, good: nat, bad: nat, asked: seq<KeyId>)
    requires Underway(existing, delegate, {}, newPairs, good, bad, asked)
    ensures newPairs == Refreshed(existing, AnswersFor(existing, delegate))
    ensures good > 0 <==> AnySuccess(existing, AnswersFor(existing, delegate))
    ensures bad == |Failures(existing, delegate)|
    ensures Distinct(asked) && Elements(asked) == existing.Keys
  {
    RefreshEnds(existing, delegate, newPairs);
    TallyEnds(existing, delegate, good, bad);
  }

  lemma RefreshEnds(existing: Pairs, delegate: Delegate, newPairs: Pairs)
    requires Refreshing(existing, delegate, {}, newPairs)
    ensures newPairs == Refreshed(existing, AnswersFor(existing, delegate))
  {
  }

  lemma TallyEnds(existing: Pairs, delegate: Delegate, good: nat, bad: nat)
    requires Tally(existing, delegate, {}, good, bad)
    ensures bad == |Failures(existing, delegate)|
    ensures good > 0 <==> AnySuccess(existing, AnswersFor(existing, delegate))
  {
  }

  /** A map in memory: it is written in place. */
  class PairMap {
    var m: Pairs

    constructor ()
      ensures m == map[]
    {
      m := map[];
    }
  }

  /** The methods write no map but ones they make: the frames leave out the one that is published. */
  class MultiCache {
    var value: PairMap?

    function View(): Option<Pairs> reads this, value {
      if value == null then None else Some(value.m)
    }

    constructor ()
      ensures View() == None
    {
      value := null;
    }

    /** The delegate is asked only for a key that is not cached; a cached key costs nothing and changes nothing. */
    method ResolveKey(key: KeyId, delegate: Delegate) returns (answer: Answer, ghost asked: seq<KeyId>)
      modifies this
      ensures View() == Resolved(old(View()), key, delegate(key))
      ensures value == old(value) || fresh(value)
      ensures asked == if Fetch(old(View()), key).Some? then [] else [key]
      ensures answer == if Fetch(old(View()), key).Some? then Fetch(old(View()), key) else delegate(key)
      ensures answer.Some? ==> Fetch(View(), key) == answer
      ensures Keys(old(View())) <= Keys(View())
    {
      asked := [];
      if value != null && key in value.m {
        return Some(value.m[key]), asked;
      }
      answer := delegate(key);
      asked := [key];
      if answer.Some? {
        var newPairs := CopyPairs();
        newPairs.m := newPairs.m[key := answer.value];
        value := newPairs;
      }
    }

    /** A new map with the cached pairs, empty if there are none. */
    method CopyPairs() returns (newPairs: PairMap)
      ensures fresh(newPairs) && newPairs.m == if value == null then map[] else value.m
    {
      newPairs := new PairMap();
      if value != null {
        var rest := value.m.Keys;
        while rest != {}
          invariant rest <= value.m.Keys && newPairs.m.Keys == value.m.Keys - rest
          invariant forall k :: k in newPairs.m ==> newPairs.m[k] == value.m[k]
          decreases |rest|
        {
          var k :| k in rest;
          newPairs.m := newPairs.m[k := value.m[k]];
          rest := rest - {k};
        }
        assert newPairs.m == value.m;
      }
    }

    /**
     Exactly one attempt for each cached key, in some order; a key whose attempt fails keeps its pair and its error is
     reported; if all fail nothing is stored; and no key comes or goes.
     */
    method UpdateKeys(delegate: Delegate) returns (count: nat, errors: nat, ghost asked: seq<KeyId>)
      modifies this
      ensures value == old(value) || fresh(value)
      ensures Distinct(asked) && Elements(asked) == Keys(old(View())) && count == |Keys(old(View()))| == |asked|
      ensures old(value) == null ==> value == null && errors == 0
      ensures old(value) != null ==>
                && View() == UpdatedBy(old(View()), old(value.m), AnswersFor(old(value.m), delegate))
                && errors == |Failures(old(value.m), delegate)|
      ensures Keys(View()) == Keys(old(View()))
      ensures old(value) != null ==>
                && value != null
                && (value != old(value) <==> exists k :: k in old(value.m) && delegate(k).Some?)
                && (forall k :: k in old(value.m) ==>
                      value.m[k] == if delegate(k).Some? then delegate(k).value else old(value.m)[k])
    {
      count, errors, asked := 0, 0, [];
      if value == null {
        assert Elements(asked) == {};
        return;
      }
      var existing := value;
      count := |existing.m|;
      var newPairs, newCount;
      newPairs, newCount, errors, asked := RefreshAll(existing, delegate);
      DistinctCount(asked);
      if newCount > 0 {
        value := newPairs;
      }
    }

    /** The loop of UpdateKeys. */
    method RefreshAll(existing: PairMap, delegate: Delegate)
      returns (newPairs: PairMap, newCount: nat, errors: nat, ghost asked: seq<KeyId>)
      ensures fresh(newPairs) && newPairs.m == Refreshed(existing.m, AnswersFor(existing.m, delegate))
      ensures newCount > 0 <==> AnySuccess(existing.m, AnswersFor(existing.m, delegate))
      ensures errors == |Failures(existing.m, delegate)|
      ensures Distinct(asked) && Elements(asked) == existing.m.Keys
    {
      newPairs := new PairMap();
      newCount, errors, asked := 0, 0, [];
      var rest := existing.m.Keys;
      assert Elements(asked) == {} && Failures(existing.m, delegate) - rest == {};
      while rest != {}
        invariant Underway(existing.m, delegate, rest, newPairs.m, newCount, errors, asked)
        decreases |rest|
      {
        var key :| key in rest;
        UnderwayStep(existing.m, delegate, rest, newPairs.m, newCount, errors, asked, key);
        var ok := RefreshOne(existing, key, delegate, newPairs);
        if ok {
          newCount := newCount + 1;
        } else {
          errors := errors + 1;
        }
        rest, asked := rest - {key}, asked + [key];
      }
      UnderwayEnds(existing.m, delegate, newPairs.m, newCount, errors, asked);
    }

    method RefreshOne(existing: PairMap, key: KeyId, delegate: Delegate, newPairs: PairMap) returns (ok: bool)
      requires key in existing.m && newPairs != existing
      modifies newPairs
      ensures ok == delegate(key).Some?
      ensures newPairs.m == old(newPairs.m)[key := NewPair(existing.m, delegate, key)]
    {
      var answer := delegate(key);
      ok := answer.Some?;
      newPairs.m := newPairs.m[key := if ok then answer.value else existing.m[key]];
    }
  }

  /** The cache for a delegate that has only one key. */
  class SingleCache {
    var value: Option<Pair>

    constructor ()
      ensures value == None
    {
      value := None;
    }

    /** Whatever the key, the cached pair is returned if there is one; an error leaves the cache empty. */
    method ResolveKey(key: KeyId, delegate: Delegate) returns (answer: Answer)
      modifies this
      ensures old(value).Some? ==> answer == old(value)
      ensures old(value).None? ==> answer == delegate(key)
      ensures value == answer
    {
      if value.Some? {
        return value;
      }
      answer := delegate(key);
      if answer.Some? {
        value := answer;
      }
    }

    /** Always one attempt, with the empty key; an error leaves the old pair. */
    method UpdateKeys(delegate: Delegate) returns (count: nat, failed: bool)
      modifies this
      ensures count == 1 && failed == delegate("").None?
      ensures value == if failed then old(value) else delegate("")
    {
      count := 1;
      var answer := delegate("");
      failed := answer.None?;
      if answer.Some? {
        value := answer;
      }
    }
  }
}
