/**
 The expiring on-demand cache.  Load reads the entry without a lock and, if it is missing or expired, takes the lock and
 looks again before it consults the source; Refresh always consults it.  The clock is arbitrary: each call captures some
 time when it starts.
 */
module StoreCache {
  import opened Options
  import opened Residues

  datatype Val = Val(serial: nat)

  datatype Entry = Entry(value: Val, expiry: int)

  /** The entry is missing or its expiry is before `now`. */
  predicate Stale(entry: Option<Entry>, now: int) {
    entry.None? || entry.value.expiry < now
  }

  /** Load's locked section: the new entry, given what the source yields, None for an error. */
  function AfterLoad(entry: Option<Entry>, now: int, period: int, source: Option<Val>): Option<Entry> {
    if !Stale(entry, now) then entry
    else if source.Some? then Some(Entry(source.value, now + period))
    else if entry.None? then None
    else Some(Entry(entry.value.value, now + period))
  }

  function AfterRefresh(entry: Option<Entry>, now: int, period: int, source: Option<Val>): Option<Entry> {
    if source.Some? then Some(Entry(source.value, now + period)) else entry
  }

  // ---------------------------------------------------------------- concurrent use

  datatype Op =
    | Loading(now: int)
    | Refreshing(now: int)
    | LoadDone(result: Option<Val>)
    | RefreshDone(result: Option<Val>)

  /** One consultation of the source, with the time its caller had captured; a Refresh is a forced one. */
  datatype Consultation = Consultation(now: int, result: Option<Val>, forced: bool)

  /** `consultations` are all of them in lock order; they are history. */
  datatype State = State(period: int, entry: Option<Entry>, ops: seq<Op>, consultations: seq<Consultation>)

  function Init(period: int): State {
    State(period, None, [], [])
  }

  datatype Step =
    | BeginLoad(now: int)
    | LoadSection(o: nat, source: Option<Val>)
    | BeginRefresh(now: int)
    | RefreshSection(o: nat, source: Option<Val>)

  predicate Enabled(s: State, step: Step) {
    match step
    case BeginLoad(_) => true
    case LoadSection(o, _) => o < |s.ops| && s.ops[o].Loading?
    case BeginRefresh(_) => true
    case RefreshSection(o, _) => o < |s.ops| && s.ops[o].Refreshing?
  }

  function Content(entry: Option<Entry>): Option<Val> {
    if entry.Some? then Some(entry.value.value) else None
  }

  function Apply(s: State, step: Step): State
    requires Enabled(s, step)
  {
    match step
    case BeginLoad(now) =>
      s.(ops := s.ops + [if Stale(s.entry, now) then Loading(now) else LoadDone(Content(s.entry))])
    case LoadSection(o, source) =>
      var now := s.ops[o].now;
      var entry := AfterLoad(s.entry, now, s.period, source);
      s.(entry := entry, ops := s.ops[o := LoadDone(Content(entry))],
         consultations := if Stale(s.entry, now) then s.consultations + [Consultation(now, source, false)]
                          else s.consultations)
    case BeginRefresh(now) => s.(ops := s.ops + [Refreshing(now)])
    case RefreshSection(o, source) =>
      var now := s.ops[o].now;
      s.(entry := AfterRefresh(s.entry, now, s.period, source), ops := s.ops[o := RefreshDone(source)],
         consultations := s.consultations + [Consultation(now, source, true)])
  }

  /** Step number i of a run: it could be taken, and it led to the next state. */
  ghost predicate StepAt(run: seq<State>, steps: seq<Step>, i: nat) {
    i < |steps| && i + 1 < |run| && Enabled(run[i], steps[i]) && run[i + 1] == Apply(run[i], steps[i])
  }

  ghost predicate IsRun(run: seq<State>, steps: seq<Step>) {
    && |run| == |steps| + 1
    && run[0] == Init(run[0].period) && run[0].period > 0
    && (forall i: nat :: i < |steps| ==> StepAt(run, steps, i))
  }

  /** What the last consultation that succeeded yielded. */
  function Latest(consultations: seq<Consultation>): Option<Val> {
    if consultations == [] then None
    else
      var last := consultations[|consultations| - 1];
      if last.result.Some? then last.result else Latest(consultations[..|consultations| - 1])
  }

  lemma LatestStep(consultations: seq<Consultation>, c: Consultation)
    ensures Latest(consultations + [c]) == if c.result.Some? then c.result else Latest(consultations)
  {
  }

  /** In every interleaving the cached value is the latest successful load of the source, in lock order. */
  lemma {:induction false} CachedIsLatest(run: seq<State>, steps: seq<Step>, n: nat)
    requires IsRun(run, steps) && n < |run|
    ensures Content(run[n].entry) == Latest(run[n].consultations) && run[n].period == run[0].period
  {
    if n > 0 {
      CachedIsLatest(run, steps, n - 1);
      var s, step := run[n - 1], steps[n - 1];
      assert StepAt(run, steps, n - 1);
      if step.LoadSection? || step.RefreshSection? {
        LatestStep(s.consultations, Consultation(s.ops[step.o].now, step.source, step.RefreshSection?));
      }
    }
  }

  /** A Load that returns yields the latest successful load there is; it fails only when there has not been one. */
  lemma LoadYieldsLatest(run: seq<State>, steps: seq<Step>, n: nat, o: nat)
    requires IsRun(run, steps) && n < |steps| && o < |run[n + 1].ops| && run[n + 1].ops[o].LoadDone?
    requires o < |run[n].ops| ==> run[n].ops[o] != run[n + 1].ops[o]
    ensures run[n + 1].ops[o].result == Latest(run[n + 1].consultations)
  {
    CachedIsLatest(run, steps, n);
    CachedIsLatest(run, steps, n + 1);
    assert StepAt(run, steps, n);
  }

  lemma {:induction false} LatestStays(run: seq<State>, steps: seq<Step>, i: nat, n: nat)
    requires IsRun(run, steps) && i <= n < |run| && Latest(run[i].consultations).Some?
    ensures Latest(run[n].consultations).Some?
    decreases n
  {
    if i < n {
      LatestStays(run, steps, i, n - 1);
      var s, step := run[n - 1], steps[n - 1];
      assert StepAt(run, steps, n - 1);
      if step.LoadSection? || step.RefreshSection? {
        LatestStep(s.consultations, Consultation(s.ops[step.o].now, step.source, step.RefreshSection?));
      }
    }
  }

  /** Once a load of the source has succeeded, no Load that returns later fails, whatever the source does. */
  lemma LoadNeverFailsAgain(run: seq<State>, steps: seq<Step>, i: nat, n: nat, o: nat)
    requires IsRun(run, steps) && i <= n < |steps| && Latest(run[i].consultations).Some?
    requires o < |run[n + 1].ops| && run[n + 1].ops[o].LoadDone?
    requires o < |run[n].ops| ==> run[n].ops[o] != run[n + 1].ops[o]
    ensures run[n + 1].ops[o].result.Some?
  {
    LatestStays(run, steps, i, n + 1);
    LoadYieldsLatest(run, steps, n, o);
  }

  // ---------------------------------------------------------------- when the source is consulted

  /**
   The time for which the cached value was last renewed: that of the last consultation that succeeded, or that failed
   for a Load when there was a value to hang on to.
   */
  function Renewed(consultations: seq<Consultation>): Option<int> {
    if consultations == [] then None
    else
      var last, before := consultations[|consultations| - 1], consultations[..|consultations| - 1];
      if last.result.Some? || (!last.forced && Latest(before).Some?) then Some(last.now) else Renewed(before)
  }

  lemma RenewedStep(consultations: seq<Consultation>, c: Consultation)
    ensures Renewed(consultations + [c]) ==
            if c.result.Some? || (!c.forced && Latest(consultations).Some?) then Some(c.now) else Renewed(consultations)
  {
    assert (consultations + [c])[..|consultations|] == consultations;
  }

  /** The entry expires a period after the time for which it was last renewed. */
  predicate ExpiryOk(entry: Option<Entry>, period: int, consultations: seq<Consultation>) {
    Renewed(consultations) == if entry.None? then None else Some(entry.value.expiry - period)
  }

  lemma {:induction false} ExpiresAfterPeriod(run: seq<State>, steps: seq<Step>, n: nat)
    requires IsRun(run, steps) && n < |run|
    ensures ExpiryOk(run[n].entry, run[n].period, run[n].consultations)
  {
    if n > 0 {
      ExpiresAfterPeriod(run, steps, n - 1);
      CachedIsLatest(run, steps, n - 1);
      assert StepAt(run, steps, n - 1);
      ExpiryStep(run[n - 1], steps[n - 1]);
    }
  }

  lemma ExpiryStep(s: State, step: Step)
    requires Enabled(s, step) && Content(s.entry) == Latest(s.consultations)
    requires ExpiryOk(s.entry, s.period, s.consultations)
    ensures ExpiryOk(Apply(s, step).entry, Apply(s, step).period, Apply(s, step).consultations)
  {
    match step
    case LoadSection(o, source) =>
      if Stale(s.entry, s.ops[o].now) {
        LoadExpiry(s.entry, s.period, s.consultations, s.ops[o].now, source);
      }
    case RefreshSection(o, source) => RefreshExpiry(s.entry, s.period, s.consultations, s.ops[o].now, source);
    case _ =>
  }

  lemma LoadExpiry(entry: Option<Entry>, period: int, all: seq<Consultation>, now: int, source: Option<Val>)
    requires Content(entry) == Latest(all) && ExpiryOk(entry, period, all) && Stale(entry, now)
    ensures ExpiryOk(AfterLoad(entry, now, period, source), period, all + [Consultation(now, source, false)])
  {
    RenewedStep(all, Consultation(now, source, false));
  }

  lemma RefreshExpiry(entry: Option<Entry>, period: int, all: seq<Consultation>, now: int, source: Option<Val>)
    requires ExpiryOk(entry, period, all)
    ensures ExpiryOk(AfterRefresh(entry, now, period, source), period, all + [Consultation(now, source, true)])
  {
    RenewedStep(all, Consultation(now, source, true));
  }

  /** So the value is out of date for `now` when it was never renewed, or for a time more than a period before. */
  predicate OutOfDate(s: State, now: int) {
    Renewed(s.consultations).None? || Renewed(s.consultations).value + s.period < now
  }

  /**
   In every interleaving, with any number of Refreshes in it, a Load for `now` takes the lock exactly when the value is
   out of date when it begins, and consults the source exactly when it still is in its locked section.
   */
  lemma ConsultsExactly(run: seq<State>, steps: seq<Step>, n: nat)
    requires IsRun(run, steps) && n < |steps|
    ensures steps[n].BeginLoad? ==>
              && |run[n + 1].ops| == |run[n].ops| + 1
              && (run[n + 1].ops[|run[n].ops|].Loading? <==> OutOfDate(run[n], steps[n].now))
              && run[n + 1].consultations == run[n].consultations
    ensures steps[n].LoadSection? ==>
              && steps[n].o < |run[n].ops| && run[n].ops[steps[n].o].Loading?
              && var now := run[n].ops[steps[n].o].now;
              run[n + 1].consultations ==
              if OutOfDate(run[n], now) then run[n].consultations + [Consultation(now, steps[n].source, false)]
              else run[n].consultations
  {
    ExpiresAfterPeriod(run, steps, n);
    assert StepAt(run, steps, n);
  }

  /** A Load for `now` returns in this step: at once, or at the end of its locked section. */
  predicate LoadReturns(s: State, step: Step, t: State, now: int, result: Option<Val>) {
    || (step == BeginLoad(now) && |t.ops| == |s.ops| + 1 && t.ops[|s.ops|] == LoadDone(result))
    || (step.LoadSection? && step.o < |s.ops| == |t.ops| && s.ops[step.o] == Loading(now)
        && t.ops[step.o] == LoadDone(result))
  }

  /**
   No Load serves an expired value: a value returned for `now` was renewed for a time at most a period before, by a
   consultation that succeeded, or by one of a Load that failed.
   */
  lemma ServedIsFresh(run: seq<State>, steps: seq<Step>, n: nat, now: int, result: Option<Val>) returns (i: nat)
    requires IsRun(run, steps) && n < |steps| && LoadReturns(run[n], steps[n], run[n + 1], now, result) && result.Some?
    ensures i < |run[n + 1].consultations|
    ensures run[n + 1].consultations[i].now + run[n + 1].period >= now
    ensures run[n + 1].consultations[i].result.Some? || !run[n + 1].consultations[i].forced
  {
    ExpiresAfterPeriod(run, steps, n + 1);
    CachedIsLatest(run, steps, n);
    assert StepAt(run, steps, n);
    EntryIsFresh(run[n], steps[n], now, result);
    i := RenewedBy(run[n + 1].consultations);
  }

  lemma EntryIsFresh(s: State, step: Step, now: int, result: Option<Val>)
    requires Enabled(s, step) && s.period > 0 && LoadReturns(s, step, Apply(s, step), now, result) && result.Some?
    ensures var t := Apply(s, step); t.entry.Some? && t.entry.value.expiry >= now && t.period == s.period
  {
  }

  lemma {:induction false} RenewedBy(consultations: seq<Consultation>) returns (i: nat)
    requires Renewed(consultations).Some?
    ensures i < |consultations| && consultations[i].now == Renewed(consultations).value
    ensures consultations[i].result.Some? || !consultations[i].forced
  {
    var last, before := consultations[|consultations| - 1], consultations[..|consultations| - 1];
    if last.result.Some? || (!last.forced && Latest(before).Some?) {
      i := |consultations| - 1;
    } else {
      i := RenewedBy(before);
    }
  }

  // ---------------------------------------------------------------- how often the source is consulted

  ghost predicate LoadOnly(steps: seq<Step>) {
    forall i :: 0 <= i < |steps| ==> !steps[i].BeginRefresh? && !steps[i].RefreshSection?
  }

  /** With an entry in place, the last consultation was a period before it expires. */
  ghost predicate Timed(s: State) {
    && (s.entry.Some? ==>
          s.consultations != [] && s.entry.value.expiry == s.consultations[|s.consultations| - 1].now + s.period)
    && (forall i :: 0 < i < |s.consultations| && Latest(s.consultations[..i]).Some? ==>
          s.consultations[i].now > s.consultations[i - 1].now + s.period)
  }

  lemma {:induction false} LoadOnlyIsTimed(run: seq<State>, steps: seq<Step>, n: nat)
    requires IsRun(run, steps) && n < |run| && LoadOnly(steps)
    ensures Timed(run[n])
  {
    if n > 0 {
      LoadOnlyIsTimed(run, steps, n - 1);
      CachedIsLatest(run, steps, n - 1);
      assert StepAt(run, steps, n - 1);
      TimedStep(run[n - 1], steps[n - 1]);
    }
  }

  lemma TimedStep(s: State, step: Step)
    requires Timed(s) && Content(s.entry) == Latest(s.consultations)
    requires Enabled(s, step) && !step.BeginRefresh? && !step.RefreshSection?
    ensures Timed(Apply(s, step))
  {
    if step.LoadSection? && Stale(s.entry, s.ops[step.o].now) {
      SpacedMore(s, Consultation(s.ops[step.o].now, step.source, false));
    }
  }

  lemma SpacedMore(s: State, c: Consultation)
    requires Timed(s) && Content(s.entry) == Latest(s.consultations) && Stale(s.entry, c.now)
    ensures var all := s.consultations + [c];
            forall i :: 0 < i < |all| && Latest(all[..i]).Some? ==> all[i].now > all[i - 1].now + s.period
  {
    var all := s.consultations + [c];
    forall i | 0 < i < |all| && Latest(all[..i]).Some? ensures all[i].now > all[i - 1].now + s.period {
      if i < |s.consultations| {
        assert all[..i] == s.consultations[..i];
      } else {
        assert all[..i] == s.consultations;
      }
    }
  }

  lemma {:induction false} LatestOfMore(consultations: seq<Consultation>, i: nat, j: nat)
    requires i <= j <= |consultations| && Latest(consultations[..i]).Some?
    ensures Latest(consultations[..j]).Some?
    decreases j
  {
    if i < j {
      LatestOfMore(consultations, i, j - 1);
      assert consultations[..j] == consultations[..j - 1] + [consultations[j - 1]];
      LatestStep(consultations[..j - 1], consultations[j - 1]);
    }
  }

  /** When only Load is used, a consultation after a success is for more than a period after the one before. */
  lemma NextConsultation(run: seq<State>, steps: seq<Step>, n: nat, first: nat, j: nat)
    requires IsRun(run, steps) && n < |run| && LoadOnly(steps)
    requires first < j < |run[n].consultations| && run[n].consultations[first].result.Some?
    ensures run[n].consultations[j].now > run[n].consultations[j - 1].now + run[n].period
  {
    var all := run[n].consultations;
    LoadOnlyIsTimed(run, steps, n);
    assert all[..first + 1] == all[..first] + [all[first]];
    LatestStep(all[..first], all[first]);
    LatestOfMore(all, first + 1, j);
  }

  /**
   So the source is spared: of the consultations from the first success on, any two that are m apart were made for
   times more than m periods apart, whether they succeed or fail.
   */
  lemma {:induction false} ConsultationsAreSpaced(run: seq<State>, steps: seq<Step>, n: nat, first: nat, i: nat, j: nat)
    requires IsRun(run, steps) && n < |run| && LoadOnly(steps)
    requires first <= i < j < |run[n].consultations| && run[n].consultations[first].result.Some?
    ensures run[n].consultations[j].now > run[n].consultations[i].now + (j - i) * run[n].period
    decreases j
  {
    NextConsultation(run, steps, n, first, j);
    if i == j - 1 {
      assert (j - i) * run[n].period == run[n].period;
    } else {
      ConsultationsAreSpaced(run, steps, n, first, i, j - 1);
      Distributes(j - i, 1, run[n].period);
      assert (j - 1 - i) * run[n].period == (j - i) * run[n].period - run[n].period;
    }
  }

  // ---------------------------------------------------------------- the object

  /** `source` is what the source yields if this call consults it. */
  class Cache {
    const period: int
    var cache: Option<Entry>

    constructor (period: int)
      requires period > 0
      ensures this.period == period && cache == None
    {
      this.period := period;
      cache := None;
    }

    /** A period that is not positive is refused. */
    static method New(period: int) returns (c: Cache?)
      ensures c != null <==> period > 0
      ensures c != null ==> fresh(c) && c.period == period && c.cache == None
    {
      c := null;
      if period > 0 {
        c := new Cache(period);
      }
    }

    /** With an entry in place Load always succeeds, and it consults the source only if the entry has expired. */
    method Load(now: int, source: Option<Val>) returns (result: Option<Val>, consulted: bool)
      modifies this
      ensures cache == AfterLoad(old(cache), now, period, source) && result == Content(cache)
      ensures consulted <==> old(cache).None? || old(cache).value.expiry < now
      ensures result.None? <==> old(cache).None? && source.None?
      ensures !consulted ==> cache == old(cache)
      ensures consulted && source.Some? ==> cache == Some(Entry(source.value, now + period))
      ensures consulted && source.None? && old(cache).Some? ==>
                cache == Some(Entry(old(cache).value.value, now + period))
    {
      var entry := cache;
      consulted := false;
      if entry.None? || entry.value.expiry < now {
        entry := cache;
        if entry.None? || entry.value.expiry < now {
          consulted := true;
          if source.None? {
            if entry.None? {
              return None, consulted;
            }
            entry := Some(Entry(entry.value.value, now + period));
          } else {
            entry := Some(Entry(source.value, now + period));
          }
          cache := entry;
        }
      }
      return Some(entry.value.value), consulted;
    }

    /** Refresh reports an error and leaves the entry, with its expiry, as it was. */
    method Refresh(now: int, source: Option<Val>) returns (result: Option<Val>)
      modifies this
      ensures cache == AfterRefresh(old(cache), now, period, source) && result == source
      ensures cache == if source.Some? then Some(Entry(source.value, now + period)) else old(cache)
    {
      if source.None? {
        return None;
      }
      var entry := Entry(source.value, now + period);
      cache := Some(entry);
      return Some(entry.value);
    }
  }
}
