/**
 The pending transactions of a device: a map from transaction keys to one-shot response channels.
 Every method of the Transactions class is one lock-protected section, so a run of concurrent callers
 is a sequence of the steps below, interleaved with the receives of the callers that hold a channel.
 */
module Transactions {
  import opened Options
  import opened Channels

  /** Responses are told apart by number; their contents play no part in the protocol. */
  datatype Response = Response(serial: nat)

  datatype TxError =
    | InvalidTransactionKey
    | NoSuchTransactionKey
    | TransactionAlreadyRegistered
    | TransactionsClosed
    | TransactionsAlreadyClosed

  type Key = string
  type ChanId = nat

  /**
   `chans` holds every channel Register ever made, by order of creation, and `keys` the key each was made for.
   The code keeps no such lists: they stand for the channels its callers hold.
   */
  datatype State = State(closed: bool, pending: map<Key, ChanId>, chans: seq<Chan<Response>>, keys: seq<Key>)

  const Empty := State(false, map[], [], [])

  datatype Step =
    | DoRegister(key: Key)
    | DoComplete(key: Key, response: Response)
    | DoCancel(key: Key)
    | DoClose
    | DoReceive(chan: ChanId)

  // ---------------------------------------------------------------- the sections as functions

  function PutAndShut(chans: seq<Chan<Response>>, c: ChanId, r: Response): seq<Chan<Response>> {
    if c < |chans| then chans[c := Shut(Put(chans[c], r))] else chans
  }

  function ShutAt(chans: seq<Chan<Response>>, c: ChanId): seq<Chan<Response>> {
    if c < |chans| then chans[c := Shut(chans[c])] else chans
  }

  function RegisterError(s: State, key: Key): Option<TxError> {
    if key == "" then Some(InvalidTransactionKey)
    else if s.closed then Some(TransactionsClosed)
    else if key in s.pending then Some(TransactionAlreadyRegistered)
    else None
  }

  function Registered(s: State, key: Key): State {
    if RegisterError(s, key).Some? then s
    else State(s.closed, s.pending[key := |s.chans|], s.chans + [Make(1)], s.keys + [key])
  }

  function CompleteError(s: State, key: Key): Option<TxError> {
    if key == "" then Some(InvalidTransactionKey)
    else if key !in s.pending then Some(NoSuchTransactionKey)
    else None
  }

  function Completed(s: State, key: Key, r: Response): State {
    if CompleteError(s, key).Some? then s
    else State(s.closed, s.pending - {key}, PutAndShut(s.chans, s.pending[key], r), s.keys)
  }

  function Cancelled(s: State, key: Key): State {
    if s.closed || key !in s.pending then s
    else State(s.closed, s.pending - {key}, ShutAt(s.chans, s.pending[key]), s.keys)
  }

  function Closed(s: State): State {
    if s.closed then s else State(true, map[], ShutAll(s.chans, s.pending), s.keys)
  }

  function ShutAll(chans: seq<Chan<Response>>, pending: map<Key, ChanId>): seq<Chan<Response>> {
    seq(|chans|, i requires 0 <= i < |chans| =>
      if i in pending.Values then Shut(chans[i]) else chans[i])
  }

  function Received(s: State, c: ChanId): State {
    if c < |s.chans| then s.(chans := s.chans[c := Take(s.chans[c])]) else s
  }

  function Apply(s: State, step: Step): State {
    match step
    case DoRegister(key) => Registered(s, key)
    case DoComplete(key, r) => Completed(s, key, r)
    case DoCancel(key) => Cancelled(s, key)
    case DoClose => Closed(s)
    case DoReceive(c) => Received(s, c)
  }

  function Run(s: State, steps: seq<Step>): State
    decreases |steps|
  {
    if steps == [] then s else Apply(Run(s, steps[..|steps| - 1]), steps[|steps| - 1])
  }

  // ---------------------------------------------------------------- what every run keeps

  /** A channel that has been used properly so far: one slot, at most one send, no fault. */
  predicate OneShot(c: Chan<Response>) {
    c.cap == 1 && c.faults == 0 && |c.buffer| <= c.sends <= 1 && (!c.closed ==> c == Make(1))
  }

  /**
   Channel c is open and empty exactly while it is what pending holds under the key it was made for;
   no other key leads to it; a closed set of transactions has nothing pending.
   */
  ghost predicate Inv(s: State) {
    && |s.keys| == |s.chans|
    && (forall k :: k in s.pending ==> k != "" && s.pending[k] < |s.chans| && s.keys[s.pending[k]] == k)
    && (forall c :: 0 <= c < |s.chans| ==> OneShot(s.chans[c]))
    && (forall c :: 0 <= c < |s.chans| ==> (!s.chans[c].closed <==> Pending(s, c)))
    && (s.closed ==> s.pending == map[])
  }

  predicate Pending(s: State, c: ChanId)
    requires |s.keys| == |s.chans| && c < |s.chans|
  {
    s.keys[c] in s.pending && s.pending[s.keys[c]] == c
  }

  /** What one step may do to what came before it: channels only move forward and a close is final. */
  ghost predicate Forward(s: State, t: State) {
    && |s.chans| <= |t.chans|
    && (forall c :: 0 <= c < |s.chans| && s.chans[c].closed ==>
          t.chans[c].closed && t.chans[c].sends == s.chans[c].sends && |t.chans[c].buffer| <= |s.chans[c].buffer|)
    && (s.closed ==> t.closed && t.pending == map[] && |t.chans| == |s.chans|)
  }

  lemma RegisteredKeepsInv(s: State, key: Key)
    requires Inv(s)
    ensures Inv(Registered(s, key)) && Forward(s, Registered(s, key))
  {
  }

  lemma CompletedKeepsInv(s: State, key: Key, r: Response)
    requires Inv(s)
    ensures Inv(Completed(s, key, r)) && Forward(s, Completed(s, key, r))
  {
  }

  lemma CancelledKeepsInv(s: State, key: Key)
    requires Inv(s)
    ensures Inv(Cancelled(s, key)) && Forward(s, Cancelled(s, key))
  {
  }

  lemma PendingAreValues(s: State)
    requires Inv(s)
    ensures forall c :: 0 <= c < |s.chans| ==> (c in s.pending.Values <==> Pending(s, c))
  {
  }

  lemma ClosedKeepsInv(s: State)
    requires Inv(s)
    ensures Inv(Closed(s)) && Forward(s, Closed(s))
    ensures forall c :: 0 <= c < |s.chans| ==> Closed(s).chans[c].closed
  {
  }

  lemma ReceivedKeepsInv(s: State, c: ChanId)
    requires Inv(s)
    ensures Inv(Received(s, c)) && Forward(s, Received(s, c))
  {
  }

  lemma StepKeepsInv(s: State, step: Step)
    requires Inv(s)
    ensures Inv(Apply(s, step)) && Forward(s, Apply(s, step))
  {
    match step
    case DoRegister(key) => RegisteredKeepsInv(s, key);
    case DoComplete(key, r) => CompletedKeepsInv(s, key, r);
    case DoCancel(key) => CancelledKeepsInv(s, key);
    case DoClose => ClosedKeepsInv(s);
    case DoReceive(c) => ReceivedKeepsInv(s, c);
  }

  /**
   The channel protocol, over every run from an empty set: no channel is ever sent to when closed or full
   or closed twice (no faults), each gets at most one response, and the ones still open are exactly the
   pending ones.
   */
  lemma {:induction false} RunKeepsInv(steps: seq<Step>)
    ensures Inv(Run(Empty, steps))
    decreases |steps|
  {
    if steps != [] {
      RunKeepsInv(steps[..|steps| - 1]);
      StepKeepsInv(Run(Empty, steps[..|steps| - 1]), steps[|steps| - 1]);
    }
  }

  /**
   Over every run: a channel once closed is closed for good and gets nothing more, and after Close
   nothing is ever pending or issued again.
   */
  lemma {:induction false} RunMovesForward(before: seq<Step>, after: seq<Step>)
    ensures Forward(Run(Empty, before), Run(Empty, before + after))
    decreases |after|
  {
    RunKeepsInv(before);
    if after == [] {
      assert before + after == before;
    } else {
      var rest := after[..|after| - 1];
      assert (before + after)[..|before + after| - 1] == before + rest;
      RunMovesForward(before, rest);
      RunKeepsInv(before + rest);
      StepKeepsInv(Run(Empty, before + rest), after[|after| - 1]);
      ForwardTransitive(Run(Empty, before), Run(Empty, before + rest), Run(Empty, before + after));
    }
  }

  lemma ForwardTransitive(s: State, t: State, u: State)
    requires Forward(s, t) && Forward(t, u)
    ensures Forward(s, u)
  {
  }

  /**
   Register then Complete is a hand-over: in any run, if nothing but receives on other channels and
   operations on other keys happens between the two, the response sits in the channel Register returned.
   */
  lemma {:induction false} RegisterThenComplete(before: seq<Step>, between: seq<Step>, key: Key, r: Response)
    requires key != "" && !Run(Empty, before).closed && key !in Run(Empty, before).pending
    requires forall step :: step in between ==>
      !step.DoClose? && (step.DoReceive? ==> step.chan != |Run(Empty, before).chans|)
      && (!step.DoReceive? ==> step.key != key)
    ensures var c := |Run(Empty, before).chans|;
            var s := Run(Empty, before + [DoRegister(key)] + between);
            && key in s.pending && s.pending[key] == c
            && c < |Completed(s, key, r).chans|
            && Completed(s, key, r).chans[c].buffer == [r]
            && key !in Completed(s, key, r).pending
  {
    RunKeepsInv(before + [DoRegister(key)] + between);
    var start := Run(Empty, before);
    assert (before + [DoRegister(key)])[..|before|] == before;
    StaysPending(before + [DoRegister(key)], between, key, |start.chans|);
  }

  lemma {:induction false} StaysPending(before: seq<Step>, between: seq<Step>, key: Key, c: ChanId)
    requires key in Run(Empty, before).pending && Run(Empty, before).pending[key] == c
    requires !Run(Empty, before).closed
    requires forall step :: step in between ==>
      !step.DoClose? && (step.DoReceive? ==> step.chan != c) && (!step.DoReceive? ==> step.key != key)
    ensures var s := Run(Empty, before + between);
            !s.closed && key in s.pending && s.pending[key] == c
    decreases |between|
  {
    if between == [] {
      assert before + between == before;
    } else {
      var last := between[|between| - 1];
      var rest := between[..|between| - 1];
      assert last in between;
      forall step | step in rest ensures step in between { }
      StaysPending(before, rest, key, c);
      assert before + between == before + rest + [last];
      RunOneMore(before + rest, last);
      StaysPendingNow(Run(Empty, before + rest), last, key, c);
    }
  }

  lemma RunOneMore(steps: seq<Step>, last: Step)
    ensures Inv(Run(Empty, steps)) && Run(Empty, steps + [last]) == Apply(Run(Empty, steps), last)
  {
    RunKeepsInv(steps);
    assert (steps + [last])[..|steps|] == steps;
  }

  lemma StaysPendingNow(s: State, step: Step, key: Key, c: ChanId)
    requires Inv(s) && !s.closed && key in s.pending && s.pending[key] == c
    requires !step.DoClose? && (step.DoReceive? ==> step.chan != c) && (!step.DoReceive? ==> step.key != key)
    ensures var t := Apply(s, step); !t.closed && key in t.pending && t.pending[key] == c
  {
  }

  function Registers(keys: seq<Key>): seq<Step> {
    seq(|keys|, i requires 0 <= i < |keys| => DoRegister(keys[i]))
  }

  /**
   Any number of transactions can be under way at once: registering different keys that are not pending, after any run
   that did not close the set, leaves all of them pending, each on its own new channel, beside those that were pending.
   */
  lemma {:induction false} RegisterMany(before: seq<Step>, keys: seq<Key>)
    requires AllNew(Run(Empty, before), keys)
    ensures AllPending(Run(Empty, before), Run(Empty, before + Registers(keys)), keys)
    decreases |keys|
  {
    if keys == [] {
      assert before + Registers(keys) == before;
    } else {
      var last, rest := keys[|keys| - 1], keys[..|keys| - 1];
      AllButLast(Run(Empty, before), keys);
      RegisterMany(before, rest);
      assert before + Registers(keys) == before + Registers(rest) + [DoRegister(last)];
      RunOneMore(before + Registers(rest), DoRegister(last));
      OneMorePending(Run(Empty, before), Run(Empty, before + Registers(rest)), rest, last);
    }
  }

  /** The set is open, and these keys are different, not empty and not pending. */
  ghost predicate AllNew(s: State, keys: seq<Key>) {
    && !s.closed
    && (forall i :: 0 <= i < |keys| ==> keys[i] != "" && keys[i] !in s.pending)
    && (forall i, j :: 0 <= i < j < |keys| ==> keys[i] != keys[j])
  }

  lemma AllButLast(s: State, keys: seq<Key>)
    requires AllNew(s, keys) && keys != []
    ensures var last, rest := keys[|keys| - 1], keys[..|keys| - 1];
            && AllNew(s, rest) && last != "" && last !in s.pending && last !in rest && keys == rest + [last]
  {
  }

  /** From s to t just these keys have been registered, in this order. */
  ghost predicate AllPending(s: State, t: State, keys: seq<Key>) {
    && !t.closed && |t.chans| == |s.chans| + |keys|
    && (forall i :: 0 <= i < |keys| ==> keys[i] in t.pending && t.pending[keys[i]] == |s.chans| + i)
    && (forall k :: k in s.pending ==> k in t.pending && t.pending[k] == s.pending[k])
    && (forall k :: k in t.pending ==> k in s.pending || k in keys)
  }

  lemma OneMorePending(s: State, t: State, keys: seq<Key>, key: Key)
    requires AllPending(s, t, keys) && key != "" && key !in s.pending && key !in keys
    ensures AllPending(s, Apply(t, DoRegister(key)), keys + [key])
  {
    assert key !in t.pending;
  }

  /** Where the loop of Close is: the channels of the keys no longer pending are closed, the rest untouched. */
  ghost predicate PartlyShut(start: State, pending: map<Key, ChanId>, chans: seq<Chan<Response>>) {
    && Inv(start) && |chans| == |start.chans|
    && (forall k :: k in pending ==> k in start.pending && pending[k] == start.pending[k])
    && (forall c :: 0 <= c < |chans| ==>
          chans[c] == if Pending(start, c) && start.keys[c] !in pending then Shut(start.chans[c]) else start.chans[c])
  }

  lemma PartlyShutStep(start: State, pending: map<Key, ChanId>, chans: seq<Chan<Response>>, key: Key)
    requires PartlyShut(start, pending, chans) && key in pending
    ensures pending[key] < |chans|
    ensures PartlyShut(start, pending - {key}, chans[pending[key] := Shut(chans[pending[key]])])
  {
  }

  lemma PartlyShutEnd(start: State, pending: map<Key, ChanId>, chans: seq<Chan<Response>>)
    requires PartlyShut(start, pending, chans) && pending == map[]
    ensures chans == ShutAll(start.chans, start.pending)
  {
  }

  // ---------------------------------------------------------------- the object

  class Transactions {
    var closed: bool
    var pending: map<Key, ChanId>
    var chans: seq<Chan<Response>>
    var keys: seq<Key>

    function View(): State reads this {
      State(closed, pending, chans, keys)
    }

    ghost predicate Valid() reads this {
      Inv(View())
    }

    constructor ()
      ensures Valid() && View() == Empty
    {
      closed, pending, chans, keys := false, map[], [], [];
    }

    /** The keys of the pending transactions, each once, in some order. */
    method Keys() returns (keys: seq<Key>)
      ensures |keys| == |pending|
      ensures forall k :: k in keys <==> k in pending
    {
      keys := [];
      var rest := pending.Keys;
      while rest != {}
        invariant rest <= pending.Keys
        invariant |keys| + |rest| == |pending|
        invariant forall k :: k in keys <==> k in pending && k !in rest
        decreases |rest|
      {
        var k :| k in rest;
        keys := keys + [k];
        rest := rest - {k};
      }
    }

    method Complete(key: Key, response: Response) returns (err: Option<TxError>)
      requires Valid()
      modifies this
      ensures Valid()
      ensures View() == Completed(old(View()), key, response)
      ensures err.None? <==> key != "" && key in old(pending)
      ensures err == Some(InvalidTransactionKey) <==> key == ""
      ensures err == Some(NoSuchTransactionKey) <==> key != "" && key !in old(pending)
      ensures err.Some? ==> View() == old(View())
      ensures err.None? ==>
                var c := old(pending)[key];
                && pending == old(pending) - {key} && closed == old(closed)
                && |chans| == |old(chans)| && (forall i :: 0 <= i < |chans| && i != c ==> chans[i] == old(chans)[i])
                && c < |chans| && chans[c].buffer == [response] && chans[c].closed && chans[c].faults == 0
    {
      CompletedKeepsInv(View(), key, response);
      if key == "" {
        return Some(InvalidTransactionKey);
      }
      if key !in pending {
        return Some(NoSuchTransactionKey);
      }
      var result := pending[key];
      pending := pending - {key};
      chans := chans[result := Put(chans[result], response)];
      chans := chans[result := Shut(chans[result])];
      return None;
    }

    method Cancel(key: Key)
      requires Valid()
      modifies this
      ensures Valid()
      ensures View() == Cancelled(old(View()), key)
      ensures pending == old(pending) - {key} && closed == old(closed)
      ensures key !in old(pending) ==> View() == old(View())
      ensures key in old(pending) ==>
                var c := old(pending)[key];
                && |chans| == |old(chans)| && (forall i :: 0 <= i < |chans| && i != c ==> chans[i] == old(chans)[i])
                && c < |chans| && chans[c].buffer == [] && chans[c].closed && chans[c].faults == 0
    {
      CancelledKeepsInv(View(), key);
      if closed {
        return;
      }
      if key in pending {
        var result := pending[key];
        pending := pending - {key};
        chans := chans[result := Shut(chans[result])];
      }
    }

    method Register(key: Key) returns (result: Option<ChanId>, err: Option<TxError>)
      requires Valid()
      modifies this
      ensures Valid()
      ensures View() == Registered(old(View()), key)
      ensures err.None? <==> key != "" && !old(closed) && key !in old(pending)
      ensures err == Some(InvalidTransactionKey) <==> key == ""
      ensures err == Some(TransactionsClosed) <==> key != "" && old(closed)
      ensures err == Some(TransactionAlreadyRegistered) <==> key != "" && !old(closed) && key in old(pending)
      ensures err.Some? ==> result == None && View() == old(View())
      ensures err.None? ==> result == Some(|old(chans)|) && pending == old(pending)[key := |old(chans)|] && !closed
      ensures err.None? ==> chans == old(chans) + [Make(1)] && keys == old(keys) + [key]
    {
      RegisteredKeepsInv(View(), key);
      if key == "" {
        return None, Some(InvalidTransactionKey);
      }
      if closed {
        return None, Some(TransactionsClosed);
      }
      if key in pending {
        return None, Some(TransactionAlreadyRegistered);
      }
      var c := |chans|;
      chans := chans + [Make(1)];
      keys := keys + [key];
      pending := pending[key := c];
      return Some(c), None;
    }

    /** Close visits the pending map in no particular order; the outcome does not depend on it. */
    method Close() returns (err: Option<TxError>)
      requires Valid()
      modifies this
      ensures Valid()
      ensures View() == Closed(old(View()))
      ensures err == if old(closed) then Some(TransactionsAlreadyClosed) else None
      ensures closed && pending == map[] && |chans| == |old(chans)|
      ensures forall i :: 0 <= i < |chans| ==>
                chans[i].closed && chans[i].buffer == old(chans)[i].buffer && chans[i].faults == 0
    {
      ghost var start := View();
      if closed {
        return Some(TransactionsAlreadyClosed);
      }
      closed := true;
      ShutPending(start);
      PartlyShutEnd(start, pending, chans);
      ClosedKeepsInv(start);
      return None;
    }

    /** The loop of Close. */
    method ShutPending(ghost start: State)
      requires PartlyShut(start, pending, chans)
      modifies this`pending, this`chans
      ensures PartlyShut(start, pending, chans) && pending == map[]
    {
      while |pending| > 0
        invariant PartlyShut(start, pending, chans)
        decreases |pending|
      {
        assert pending.Keys != {};
        var key :| key in pending.Keys;
        var responses := pending[key];
        PartlyShutStep(start, pending, chans, key);
        pending := pending - {key};
        chans := chans[responses := Shut(chans[responses])];
      }
      assert pending.Keys == {};
    }
  }
}
