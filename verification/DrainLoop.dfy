/**
 The batching loops of a drain job.  Other goroutines may connect and disconnect devices between any two of the
 drainer's own accesses to the registry, and may cancel the job at any time; the two constants of a Site say whether
 they do.
 */
module DrainLoop {
  import opened Counting

  type Id = string

  // ---------------------------------------------------------------- the tracker

  const HALF := 0x8000_0000
  const WHOLE := 0x1_0000_0000

  /** The int32 a number becomes. */
  function Int32(n: int): int {
    (n + HALF) % WHOLE - HALF
  }

  /** It differs by a multiple of 2^32. */
  lemma Int32Wraps(n: int)
    ensures (Int32(n) - n) % WHOLE == 0
  {
    var q := (n + HALF) / WHOLE;
    assert Int32(n) - n == (0 - q) * WHOLE;
  }

  /** The conversion is the identity exactly on the range of an int32. */
  lemma Int32Small(n: int)
    ensures Int32(n) == n <==> -HALF <= n < HALF
  {
  }

  lemma Int32Adds(a: int, b: int)
    ensures Int32(Int32(a) + Int32(b)) == Int32(a + b)
  {
  }

  /**
   `totalVisited` and `totalDrained` are the numbers the 32-bit counters stand for.  A job counts what it visited before
   it counts what it drained of that.
   */
  class Tracker {
    var visited: int
    var drained: int
    var counter: int
    ghost var totalVisited: nat
    ghost var totalDrained: nat

    ghost predicate Valid() reads this {
      && visited == Int32(totalVisited) && drained == Int32(totalDrained) && counter == totalDrained
      && totalDrained <= totalVisited
    }

    constructor ()
      ensures Valid() && totalVisited == 0 && totalDrained == 0
    {
      visited, drained, counter, totalVisited, totalDrained := 0, 0, 0, 0, 0;
      Int32Small(0);
    }

    method AddVisited(delta: nat)
      requires Valid()
      modifies this`visited, this`totalVisited
      ensures Valid() && totalVisited == old(totalVisited) + delta
    {
      Int32Adds(totalVisited, delta);
      visited := Int32(visited + Int32(delta));
      totalVisited := totalVisited + delta;
    }

    method AddDrained(delta: nat)
      requires Valid() && totalDrained + delta <= totalVisited
      modifies this`drained, this`counter, this`totalDrained
      ensures Valid() && totalDrained == old(totalDrained) + delta
    {
      Int32Adds(totalDrained, delta);
      drained := Int32(drained + Int32(delta));
      counter := counter + delta;
      totalDrained := totalDrained + delta;
    }

    /**
     Progress loads the two counters one after the other, and the job goes on: in between it visits and drains as many
     devices as the parameters say.  Each number is true of its own moment exactly as long as it is below 2^31; and a
     snapshot has more drained than visited by at most what was visited in between.
     */
    method Progress(visiting: nat, draining: nat) returns (v: int, d: int)
      requires Valid() && totalDrained + draining <= totalVisited + visiting
      modifies this
      ensures Valid() && totalVisited == old(totalVisited) + visiting && totalDrained == old(totalDrained) + draining
      ensures v == old(totalVisited) <==> old(totalVisited) < 0x8000_0000
      ensures d == totalDrained <==> totalDrained < 0x8000_0000
      ensures (v - old(totalVisited)) % 0x1_0000_0000 == 0 && (d - totalDrained) % 0x1_0000_0000 == 0
      ensures totalVisited < 0x8000_0000 ==> d <= v + visiting
    {
      Int32Small(totalVisited);
      Int32Wraps(totalVisited);
      v := visited;
      AddVisited(visiting);
      AddDrained(draining);
      Int32Small(totalDrained);
      Int32Wraps(totalDrained);
      d := drained;
    }
  }

  /** So a snapshot can have more drained than visited, when the job counts its first batch between the two loads. */
  method OvertakenSnapshot(n: nat) returns (v: int, d: int)
    requires n < HALF
    ensures v == 0 && d == n
  {
    var tracker := new Tracker();
    v, d := tracker.Progress(n, n);
  }

  // ---------------------------------------------------------------- the surroundings

  /** The devices the filter does not allow, which are the ones to drain. */
  function Targets(devices: set<Id>, allowed: Id -> bool): set<Id> {
    set d | d in devices && !allowed(d)
  }

  function Min(a: int, b: int): int {
    if a < b then a else b
  }

  /** The registry and the job's cancel channel, as the drain goroutine shares them with everyone else. */
  class Site {
    const quiet: bool
    const uncancelled: bool
    var devices: set<Id>
    var cancelled: bool
    ghost var gone: set<Id>

    constructor (quiet: bool, uncancelled: bool, devices: set<Id>)
      ensures this.quiet == quiet && this.uncancelled == uncancelled && this.devices == devices
      ensures !cancelled && gone == {}
    {
      this.quiet, this.uncancelled, this.devices, cancelled, gone := quiet, uncancelled, devices, false, {};
    }

    /** Whatever the other goroutines do. */
    method Interfere()
      modifies this`devices, this`cancelled
      ensures quiet ==> devices == old(devices)
      ensures uncancelled ==> cancelled == old(cancelled)
      ensures old(cancelled) ==> cancelled
    {
      if !quiet {
        var other: set<Id> := *;
        devices := other;
      }
      var cancel: bool := *;
      if !uncancelled && cancel {
        cancelled := true;
      }
    }

    /** Disconnect reports whether the device was still there. */
    method Disconnect(id: Id) returns (ok: bool)
      modifies this`devices, this`gone
      ensures ok <==> id in old(devices)
      ensures devices == old(devices) - {id}
      ensures gone == (if ok then old(gone) + {id} else old(gone))
    {
      ok := id in devices;
      devices := devices - {id};
      if ok {
        gone := gone + {id};
      }
    }
  }

  // ---------------------------------------------------------------- one batch

  lemma {:induction false} SubsetCount<T>(a: set<T>, b: set<T>)
    requires a <= b
    ensures |a| <= |b|
  {
    assert b == a + (b - a);
  }

  /** How far a visit is: `rest` is still to be offered, `batch` was taken and `passed` skipped. */
  ghost predicate Visiting(devices: set<Id>, targets: set<Id>, rest: set<Id>, batch: seq<Id>, passed: set<Id>) {
    && rest <= devices && targets <= devices
    && Distinct(batch) && Elements(batch) == targets - rest
    && passed == (devices - targets) - rest
  }

  lemma VisitTakes(devices: set<Id>, targets: set<Id>, rest: set<Id>, batch: seq<Id>, passed: set<Id>, d: Id)
    requires Visiting(devices, targets, rest, batch, passed) && d in rest && d in targets
    ensures Visiting(devices, targets, rest - {d}, batch + [d], passed)
  {
    assert d !in Elements(batch);
    assert Elements(batch + [d]) == Elements(batch) + {d};
  }

  lemma VisitSkips(devices: set<Id>, targets: set<Id>, rest: set<Id>, batch: seq<Id>, passed: set<Id>, d: Id)
    requires Visiting(devices, targets, rest, batch, passed) && d in rest && d !in targets
    ensures Visiting(devices, targets, rest - {d}, batch, passed + {d}) && |passed + {d}| == |passed| + 1
  {
  }

  lemma VisitEnds(devices: set<Id>, targets: set<Id>, rest: set<Id>, batch: seq<Id>, passed: set<Id>)
    requires Visiting(devices, targets, rest, batch, passed)
    ensures |batch| <= |targets| && Elements(batch) <= targets && |passed| <= |devices - targets|
    ensures rest == {} ==> |batch| == |targets| && |passed| == |devices - targets|
  {
    DistinctCount(batch);
    SubsetCount(Elements(batch), targets);
    SubsetCount(passed, devices - targets);
  }

  datatype Choice = Take | Stop | SeeCancel

  /** The visitor's select: a send if there is room, the cancellation if there is one, either if both are ready. */
  method Offer(site: Site, room: bool) returns (choice: Choice)
    modifies site`cancelled
    ensures site.uncancelled ==> site.cancelled == old(site.cancelled)
    ensures old(site.cancelled) ==> site.cancelled
    ensures choice.Take? ==> room
    ensures choice.SeeCancel? ==> site.cancelled
    ensures choice.Stop? ==> !room
  {
    var cancel: bool, send: bool := *, *;
    if !site.uncancelled && cancel {
      site.cancelled := true;
    }
    choice := if room && (!site.cancelled || send) then Take else if site.cancelled then SeeCancel else Stop;
  }

  /**
   VisitAll under the read lock: devices are offered in any order until the batch is full, the visitor sees the
   cancellation, or there are no more.
   */
  method FillBatch(site: Site, allowed: Id -> bool, cap: nat) returns (more: bool, batch: seq<Id>, skipped: nat)
    modifies site`cancelled
    ensures site.uncancelled ==> site.cancelled == old(site.cancelled)
    ensures old(site.cancelled) ==> site.cancelled
    ensures !more ==> site.cancelled
    ensures |batch| <= cap && Distinct(batch) && Elements(batch) <= Targets(site.devices, allowed)
    ensures skipped <= |site.devices - Targets(site.devices, allowed)|
    ensures more ==> |batch| == Min(cap, |Targets(site.devices, allowed)|)
    ensures more && |batch| < cap ==> skipped == |site.devices - Targets(site.devices, allowed)|
  {
    more, batch, skipped := true, [], 0;
    ghost var devices, targets := site.devices, Targets(site.devices, allowed);
    ghost var passed: set<Id> := {};
    var rest := site.devices;
    assert Elements(batch) == {};
    while rest != {}
      invariant site.devices == devices
      invariant Visiting(devices, targets, rest, batch, passed)
      invariant site.uncancelled ==> site.cancelled == old(site.cancelled)
      invariant old(site.cancelled) ==> site.cancelled
      invariant more && |batch| <= cap && skipped == |passed|
      decreases |rest|
    {
      var d :| d in rest;
      if allowed(d) {
        VisitSkips(devices, targets, rest, batch, passed, d);
        rest := rest - {d};
        passed := passed + {d};
        skipped := skipped + 1;
      } else {
        var choice := Offer(site, |batch| < cap);
        if choice.Take? {
          VisitTakes(devices, targets, rest, batch, passed, d);
          rest := rest - {d};
          batch := batch + [d];
        } else {
          more := choice.Stop?;
          break;
        }
      }
    }
    assert more && |batch| < cap ==> rest == {};
    VisitEnds(devices, targets, rest, batch, passed);
  }

  lemma NextOf(batch: seq<Id>, n: nat)
    requires n < |batch| && Distinct(batch)
    ensures batch[n..][0] == batch[n] && batch[n..][1..] == batch[n + 1..]
    ensures Elements(batch[..n + 1]) == Elements(batch[..n]) + {batch[n]}
    ensures batch[n] !in Elements(batch[..n]) && batch[n] in Elements(batch)
  {
    assert batch[..n + 1] == batch[..n] + [batch[n]];
  }

  /**
   Disconnecting what the batch holds, until it is empty or the cancellation is seen.
   */
  method EmptyBatch(site: Site, batch: seq<Id>) returns (more: bool, left: seq<Id>, drained: nat)
    requires Distinct(batch)
    modifies site
    ensures old(site.cancelled) ==> site.cancelled
    ensures site.uncancelled ==> site.cancelled == old(site.cancelled)
    ensures drained <= |batch| && (!more ==> site.cancelled) && (more ==> left == [])
    ensures site.gone <= old(site.gone) + Elements(batch) && old(site.gone) <= site.gone
    ensures forall d :: d in site.gone && d !in old(site.gone) ==> d in batch
    ensures site.quiet && more && Elements(batch) <= old(site.devices) ==>
              site.devices == old(site.devices) - Elements(batch) && drained == |batch|
              && site.gone == old(site.gone) + Elements(batch)
  {
    more, left, drained := true, batch, 0;
    ghost var n := 0;
    assert Elements(batch[..0]) == {};
    while true
      invariant more && n <= |batch| && left == batch[n..]
      invariant old(site.cancelled) ==> site.cancelled
      invariant site.uncancelled ==> site.cancelled == old(site.cancelled)
      invariant drained <= n
      invariant site.gone <= old(site.gone) + Elements(batch[..n]) && old(site.gone) <= site.gone
      invariant site.quiet && Elements(batch) <= old(site.devices) ==>
                  site.devices == old(site.devices) - Elements(batch[..n]) && drained == n
                  && site.gone == old(site.gone) + Elements(batch[..n])
      decreases |left|
    {
      site.Interfere();
      var either: bool := *;
      if left != [] && (!site.cancelled || either) {
        var id := left[0];
        left := left[1..];
        NextOf(batch, n);
        var ok := site.Disconnect(id);
        if ok {
          drained := drained + 1;
        }
        n := n + 1;
      } else if site.cancelled {
        more := false;
        break;
      } else {
        break;
      }
    }
    if more {
      assert batch[..n] == batch;
    } else {
      assert Elements(batch[..n]) <= Elements(batch);
    }
  }

  /** Disconnecting a batch and counting it. */
  method DrainBatch(site: Site, tracker: Tracker, batch: seq<Id>) returns (more: bool, left: seq<Id>)
    requires tracker.Valid() && Distinct(batch)
    modifies site, tracker
    ensures tracker.Valid() && tracker.totalVisited == old(tracker.totalVisited) + |batch|
    ensures old(tracker.totalDrained) <= tracker.totalDrained <= old(tracker.totalDrained) + |batch|
    ensures site.uncancelled ==> site.cancelled == old(site.cancelled)
    ensures (!more ==> site.cancelled) && (more ==> left == [])
    ensures forall d :: d in site.gone && d !in old(site.gone) ==> d in batch
    ensures site.quiet && more && Elements(batch) <= old(site.devices) ==>
              && site.devices == old(site.devices) - Elements(batch) && site.gone == old(site.gone) + Elements(batch)
              && tracker.totalDrained == old(tracker.totalDrained) + |batch|
  {
    var drained: nat;
    more, left, drained := EmptyBatch(site, batch);
    tracker.AddVisited(|batch|);
    tracker.AddDrained(drained);
  }

  lemma OnlyTargets(batch: seq<Id>, devices: set<Id>, allowed: Id -> bool)
    requires Elements(batch) <= Targets(devices, allowed)
    ensures forall d :: d in batch ==> d in devices && !allowed(d)
  {
    forall d | d in batch ensures d in devices && !allowed(d) {
      assert d in Elements(batch);
    }
  }

  lemma NothingTaken(batch: seq<Id>, devices: set<Id>, gone: set<Id>)
    requires batch == []
    ensures Elements(batch) == {} && devices == devices - Elements(batch) && gone == gone + Elements(batch)
  {
  }

  /**
   nextBatch.  It takes no more devices than the batch has room for, counts what it took and what it drained, and goes
   on only if it took some and emptied the batch.  Left alone, it disconnects as many targets as there are or as fit.
   */
  method NextBatch(site: Site, tracker: Tracker, allowed: Id -> bool, cap: nat, batch: seq<Id>)
    returns (more: bool, visited: nat, skipped: nat, left: seq<Id>, ghost taken: set<Id>)
    requires tracker.Valid() && batch == []
    modifies site, tracker
    ensures tracker.Valid()
    ensures forall d :: d in site.gone && d !in old(site.gone) ==> !allowed(d)
    ensures visited <= cap && (more ==> visited > 0 && left == [])
    ensures old(tracker.totalVisited) <= tracker.totalVisited <= old(tracker.totalVisited) + visited
    ensures old(tracker.totalDrained) <= tracker.totalDrained
    ensures tracker.totalDrained - old(tracker.totalDrained) <= tracker.totalVisited - old(tracker.totalVisited)
    ensures site.uncancelled ==> site.cancelled == old(site.cancelled)
    ensures site.quiet && site.uncancelled && !old(site.cancelled) ==>
              && taken <= Targets(old(site.devices), allowed) && |taken| == visited
              && site.devices == old(site.devices) - taken && site.gone == old(site.gone) + taken
              && visited == Min(cap, |Targets(old(site.devices), allowed)|)
              && (more <==> visited > 0)
              && tracker.totalVisited == old(tracker.totalVisited) + visited
              && tracker.totalDrained == old(tracker.totalDrained) + visited
              && skipped <= |old(site.devices) - Targets(old(site.devices), allowed)|
              && (visited < cap ==> skipped == |old(site.devices) - Targets(old(site.devices), allowed)|)
  {
    site.Interfere();
    more, left, skipped := FillBatch(site, allowed, cap);
    visited, taken := |left|, Elements(left);
    OnlyTargets(left, site.devices, allowed);
    DistinctCount(left);
    if !more {
      return;
    }
    if visited > 0 {
      more, left := DrainBatch(site, tracker, left);
    } else {
      more := false;
      NothingTaken(left, site.devices, site.gone);
    }
  }

  // ---------------------------------------------------------------- a job left alone

  /** Nobody else is about; of the devices there were before, those in `mine`, all targets, have been disconnected. */
  ghost predicate Alone(site: Site, before: set<Id>, gone: set<Id>, allowed: Id -> bool, mine: set<Id>)
    reads site
  {
    && site.quiet && site.uncancelled && !site.cancelled
    && mine <= Targets(before, allowed)
    && site.devices == before - mine && site.gone == gone + mine
  }

  /**
   A batch of what is left is a batch of fresh targets.  If it is empty although there was room, or if as many devices
   were skipped as are left, there are no more targets: stopping is never premature.
   */
  lemma TakenAreFresh(before: set<Id>, gone: set<Id>, mine: set<Id>, taken: set<Id>, allowed: Id -> bool, skipped: nat)
    requires mine <= Targets(before, allowed) && taken <= Targets(before - mine, allowed)
    requires skipped <= |before - mine - Targets(before - mine, allowed)|
    ensures mine + taken <= Targets(before, allowed) && |mine + taken| == |mine| + |taken|
    ensures before - mine - taken == before - (mine + taken) && gone + mine + taken == gone + (mine + taken)
    ensures taken == Targets(before - mine, allowed) || skipped == |before - mine - taken| ==>
              mine + taken == Targets(before, allowed)
    ensures |taken| == |Targets(before - mine, allowed)| ==> taken == Targets(before - mine, allowed)
    ensures |Targets(before - mine, allowed)| == |Targets(before, allowed)| - |mine|
    ensures taken == Targets(before - mine, allowed) ==>
              before - mine - taken == before - mine - Targets(before - mine, allowed)
  {
    assert mine !! taken;
    assert Targets(before - mine, allowed) == Targets(before, allowed) - mine;
    assert Targets(before, allowed) == mine + Targets(before - mine, allowed);
    if skipped == |before - mine - taken| {
      SkippedAll(before - mine, taken, allowed, skipped);
    }
    if |taken| == |Targets(before - mine, allowed)| {
      SameCount(taken, Targets(before - mine, allowed));
    }
  }

  lemma SameCount<T>(a: set<T>, b: set<T>)
    requires a <= b && |a| == |b|
    ensures a == b
  {
    assert b == a + (b - a);
    assert |b - a| == 0;
  }

  /** When as many devices were skipped as are left, no target is left: stopping early is never premature. */
  lemma SkippedAll(before: set<Id>, taken: set<Id>, allowed: Id -> bool, skipped: nat)
    requires taken <= Targets(before, allowed)
    requires skipped <= |before - Targets(before, allowed)| && skipped == |before - taken|
    ensures taken == Targets(before, allowed)
  {
    var targets := Targets(before, allowed);
    var left := targets - taken;
    assert before - taken == (before - targets) + left;
    assert |before - taken| == |before - targets| + |left|;
    assert left == {};
  }

  // ---------------------------------------------------------------- the pace of a job

  /** `left` is what a job had still to visit before its first turn and after each; so many did turn i visit. */
  function Took(left: seq<int>, i: nat): int
    requires i + 1 < |left|
  {
    left[i] - left[i + 1]
  }

  /** No turn of a job for `count` devices visits more than `size`. */
  ghost predicate Paced(left: seq<int>, count: nat, size: nat) {
    && left != [] && left[0] == count
    && (forall i: nat :: i + 1 < |left| ==> 0 <= Took(left, i) <= size)
  }

  /** With that many targets, each turn takes as many as the pace allows. */
  ghost predicate Swift(left: seq<int>, count: nat, size: nat, targets: nat) {
    forall i: nat {:trigger Took(left, i)} :: i + 1 < |left| ==>
      Took(left, i) == Min(Min(size, left[i]), targets - (count - left[i]))
  }

  /** Every turn but the last takes a whole batch. */
  ghost predicate Whole(left: seq<int>, size: nat) {
    forall i: nat :: i + 2 < |left| ==> Took(left, i) == size
  }

  /** Every turn that is followed by one with something to do takes a whole batch. */
  ghost predicate WholeBefore(left: seq<int>, size: nat) {
    forall i: nat {:trigger Took(left, i)} :: i + 2 < |left| && left[i + 2] < left[i + 1] ==> Took(left, i) == size
  }

  /** What the last turn took. */
  function Lately(left: seq<int>): int
    requires |left| > 1
  {
    Took(left, |left| - 2)
  }

  lemma TookBefore(left: seq<int>, next: int, i: nat)
    requires i + 1 < |left|
    ensures Took(left + [next], i) == Took(left, i)
  {
  }

  lemma PacedMore(left: seq<int>, count: nat, size: nat, next: int)
    requires Paced(left, count, size) && 0 <= left[|left| - 1] - next <= size
    ensures Paced(left + [next], count, size) && Lately(left + [next]) == left[|left| - 1] - next
  {
    forall i: nat | i + 1 < |left + [next]| ensures 0 <= Took(left + [next], i) <= size {
      if i + 1 < |left| {
        TookBefore(left, next, i);
      }
    }
  }

  lemma SwiftMore(left: seq<int>, count: nat, size: nat, targets: nat, next: int)
    requires left != [] && Swift(left, count, size, targets)
    requires left[|left| - 1] - next == Min(Min(size, left[|left| - 1]), targets - (count - left[|left| - 1]))
    ensures Swift(left + [next], count, size, targets)
  {
    forall i: nat | i + 1 < |left + [next]|
      ensures Took(left + [next], i) == Min(Min(size, (left + [next])[i]), targets - (count - (left + [next])[i]))
    {
      if i + 1 < |left| {
        TookBefore(left, next, i);
      }
    }
  }

  lemma WholeMore(left: seq<int>, size: nat, next: int)
    requires left != [] && Whole(left, size) && (|left| > 1 ==> Lately(left) == size)
    ensures Whole(left + [next], size)
  {
    forall i: nat | i + 2 < |left + [next]| ensures Took(left + [next], i) == size {
      TookBefore(left, next, i);
    }
  }

  lemma WholeBeforeMore(left: seq<int>, size: nat, next: int)
    requires left != [] && WholeBefore(left, size)
    requires |left| > 1 && next < left[|left| - 1] ==> Lately(left) == size
    ensures WholeBefore(left + [next], size)
  {
    var more := left + [next];
    forall i: nat | i + 2 < |more| && more[i + 2] < more[i + 1] ensures Took(more, i) == size {
      TookBefore(left, next, i);
    }
  }

  // ---------------------------------------------------------------- the two loops

  /** One turn of the rated loop: wait for a tick or the cancellation, then do a batch and look whether any are left. */
  method Tick(site: Site, tracker: Tracker, allowed: Id -> bool, cap: nat, batch: seq<Id>,
              ghost before: set<Id>, ghost gone: set<Id>, ghost mine: set<Id>)
    returns (more: bool, visited: nat, left: seq<Id>, ghost mine': set<Id>)
    requires tracker.Valid() && batch == [] && cap > 0 && tracker.totalDrained <= tracker.totalVisited
    modifies site, tracker
    ensures tracker.Valid() && tracker.totalDrained <= tracker.totalVisited <= old(tracker.totalVisited) + visited
    ensures forall d :: d in site.gone && d !in old(site.gone) ==> !allowed(d)
    ensures visited <= cap && (more ==> visited > 0 && left == [])
    ensures old(Alone(site, before, gone, allowed, mine)) ==>
              && Alone(site, before, gone, allowed, mine') && |mine'| == |mine| + visited
              && tracker.totalDrained == old(tracker.totalDrained) + visited
              && (!more ==> mine' == Targets(before, allowed))
              && visited == Min(cap, |Targets(before, allowed)| - |mine|) && (more ==> visited == cap)
  {
    mine' := mine;
    site.Interfere();
    var tick: bool := *;  // the select can take the cancellation only if there is one
    if site.cancelled && !tick {
      return false, 0, batch, mine;
    }
    var skipped;
    ghost var taken;
    more, visited, skipped, left, taken := NextBatch(site, tracker, allowed, cap, batch);
    if old(Alone(site, before, gone, allowed, mine)) {
      TakenAreFresh(before, gone, mine, taken, allowed, skipped);
      mine' := mine + taken;
    }
    site.Interfere();
    if skipped == |site.devices| {
      more := false;
    }
  }

  /** One turn of the loop without a rate. */
  method Turn(site: Site, tracker: Tracker, allowed: Id -> bool, cap: nat, batch: seq<Id>,
              ghost before: set<Id>, ghost gone: set<Id>, ghost mine: set<Id>)
    returns (more: bool, visited: nat, left: seq<Id>, ghost mine': set<Id>)
    requires tracker.Valid() && batch == [] && cap > 0 && tracker.totalDrained <= tracker.totalVisited
    modifies site, tracker
    ensures tracker.Valid() && tracker.totalDrained <= tracker.totalVisited <= old(tracker.totalVisited) + visited
    ensures forall d :: d in site.gone && d !in old(site.gone) ==> !allowed(d)
    ensures visited <= cap && (more ==> visited > 0 && left == [])
    ensures old(Alone(site, before, gone, allowed, mine)) ==>
              && Alone(site, before, gone, allowed, mine') && |mine'| == |mine| + visited
              && tracker.totalDrained == old(tracker.totalDrained) + visited
              && (!more ==> mine' == Targets(before, allowed))
              && visited == Min(cap, |Targets(before, allowed)| - |mine|)
  {
    mine' := mine;
    var skipped;
    ghost var taken;
    more, visited, skipped, left, taken := NextBatch(site, tracker, allowed, cap, batch);
    if old(Alone(site, before, gone, allowed, mine)) {
      TakenAreFresh(before, gone, mine, taken, allowed, skipped);
      mine' := mine + taken;
    }
  }

  /**
   A rated job: one batch a tick.  It visits at most `rate` devices a tick and `count` in all, and always ends; left
   alone, it disconnects exactly min(count, number of targets) devices, all of them targets, `rate` at every tick but
   the last.
   */
  method Drain(site: Site, tracker: Tracker, allowed: Id -> bool, count: nat, rate: nat)
    returns (remaining: int, ghost mine: set<Id>, ghost left: seq<int>)
    requires rate > 0 && tracker.Valid() && tracker.totalVisited == tracker.totalDrained == 0
    modifies site, tracker
    ensures tracker.Valid() && tracker.totalDrained <= tracker.totalVisited
    ensures forall d :: d in site.gone && d !in old(site.gone) ==> !allowed(d)
    ensures 0 <= remaining && tracker.totalVisited <= count - remaining
    ensures Paced(left, count, rate) && left[|left| - 1] == remaining
    ensures site.quiet && site.uncancelled && !old(site.cancelled) ==>
              && Alone(site, old(site.devices), old(site.gone), allowed, mine)
              && (forall d :: d in mine ==> d in old(site.devices) && !allowed(d))
              && (remaining > 0 ==> forall d :: d in site.devices ==> allowed(d))
              && |mine| == tracker.totalDrained == Min(count, |Targets(old(site.devices), allowed)|)
              && Swift(left, count, rate, |Targets(old(site.devices), allowed)|) && Whole(left, rate)
  {
    remaining, mine, left := count, {}, [count];
    var more, batch, cap := true, [], rate;
    ghost var before, gone := site.devices, site.gone;
    ghost var alone := Alone(site, before, gone, allowed, {});
    while more && remaining > 0
      invariant tracker.Valid() && tracker.totalDrained <= tracker.totalVisited <= count - remaining
      invariant 0 <= remaining && (more ==> batch == []) && 0 < cap && (remaining >= rate ==> cap == rate)
      invariant forall d :: d in site.gone && d !in gone ==> !allowed(d)
      invariant alone ==> Alone(site, before, gone, allowed, mine)
      invariant alone ==> |mine| == tracker.totalDrained == count - remaining
      invariant alone && !more ==> mine == Targets(before, allowed)
      invariant Paced(left, count, rate) && left[|left| - 1] == remaining
      invariant alone ==> Swift(left, count, rate, |Targets(before, allowed)|) && Whole(left, rate)
      invariant alone && more && remaining > 0 && |left| > 1 ==> Lately(left) == rate
      decreases remaining, more
    {
      if remaining < rate {
        batch, cap := [], remaining;
      }
      var visited;
      more, visited, batch, mine := Tick(site, tracker, allowed, cap, batch, before, gone, mine);
      remaining := remaining - visited;
      PacedMore(left, count, rate, remaining);
      if alone {
        SwiftMore(left, count, rate, |Targets(before, allowed)|, remaining);
        WholeMore(left, rate, remaining);
      }
      left := left + [remaining];
    }
    if alone {
      SubsetCount(mine, Targets(before, allowed));
    }
  }

  /** A job without a rate: batch after batch, with the same promises for the batch size. */
  method DisconnectBy(site: Site, tracker: Tracker, allowed: Id -> bool, count: nat, size: nat)
    returns (remaining: int, ghost mine: set<Id>, ghost left: seq<int>)
    requires size > 0 && tracker.Valid() && tracker.totalVisited == tracker.totalDrained == 0
    modifies site, tracker
    ensures tracker.Valid() && tracker.totalDrained <= tracker.totalVisited
    ensures forall d :: d in site.gone && d !in old(site.gone) ==> !allowed(d)
    ensures 0 <= remaining && tracker.totalVisited <= count - remaining
    ensures Paced(left, count, size) && left[|left| - 1] == remaining
    ensures site.quiet && site.uncancelled && !old(site.cancelled) ==>
              && Alone(site, old(site.devices), old(site.gone), allowed, mine)
              && (forall d :: d in mine ==> d in old(site.devices) && !allowed(d))
              && (remaining > 0 ==> forall d :: d in site.devices ==> allowed(d))
              && |mine| == tracker.totalDrained == Min(count, |Targets(old(site.devices), allowed)|)
              && Swift(left, count, size, |Targets(old(site.devices), allowed)|)
              && WholeBefore(left, size)
  {
    remaining, mine, left := count, {}, [count];
    var more, batch, cap := true, [], size;
    ghost var before, gone := site.devices, site.gone;
    ghost var alone := Alone(site, before, gone, allowed, {});
    while more && remaining > 0
      invariant tracker.Valid() && tracker.totalDrained <= tracker.totalVisited <= count - remaining
      invariant 0 <= remaining && (more ==> batch == []) && 0 < cap && (remaining >= size ==> cap == size)
      invariant forall d :: d in site.gone && d !in gone ==> !allowed(d)
      invariant alone ==> Alone(site, before, gone, allowed, mine)
      invariant alone ==> |mine| == tracker.totalDrained == count - remaining
      invariant alone && !more ==> mine == Targets(before, allowed)
      invariant Paced(left, count, size) && left[|left| - 1] == remaining
      invariant alone ==> Swift(left, count, size, |Targets(before, allowed)|)
      invariant alone ==> WholeBefore(left, size)
      invariant alone && remaining > 0 && |left| > 1 && |Targets(before, allowed)| > count - remaining ==>
                  Lately(left) == size
      decreases remaining, more
    {
      if remaining < size {
        batch, cap := [], remaining;
      }
      var visited;
      more, visited, batch, mine := Turn(site, tracker, allowed, cap, batch, before, gone, mine);
      remaining := remaining - visited;
      PacedMore(left, count, size, remaining);
      if alone {
        SwiftMore(left, count, size, |Targets(before, allowed)|, remaining);
        WholeBeforeMore(left, size, remaining);
      }
      left := left + [remaining];
    }
    if alone {
      SubsetCount(mine, Targets(before, allowed));
    }
  }

  const BATCH_SIZE := 1000

  method Disconnect(site: Site, tracker: Tracker, allowed: Id -> bool, count: nat)
    returns (remaining: int, ghost mine: set<Id>, ghost left: seq<int>)
    requires tracker.Valid() && tracker.totalVisited == tracker.totalDrained == 0
    modifies site, tracker
    ensures tracker.Valid() && tracker.totalDrained <= tracker.totalVisited
    ensures forall d :: d in site.gone && d !in old(site.gone) ==> !allowed(d)
    ensures 0 <= remaining && tracker.totalVisited <= count - remaining
    ensures Paced(left, count, 1000) && left[|left| - 1] == remaining
    ensures site.quiet && site.uncancelled && !old(site.cancelled) ==>
              && Alone(site, old(site.devices), old(site.gone), allowed, mine)
              && (forall d :: d in mine ==> d in old(site.devices) && !allowed(d))
              && (remaining > 0 ==> forall d :: d in site.devices ==> allowed(d))
              && |mine| == tracker.totalDrained == Min(count, |Targets(old(site.devices), allowed)|)
              && Swift(left, count, 1000, |Targets(old(site.devices), allowed)|) && WholeBefore(left, 1000)
  {
    remaining, mine, left := DisconnectBy(site, tracker, allowed, count, BATCH_SIZE);
  }
}
