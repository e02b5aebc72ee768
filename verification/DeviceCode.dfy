/**
 Send, requestClose, the read pump's hand-over and the write pump as the code has them, on an object whose fields
 other goroutines change between any two of their own operations.  The object remembers which steps have been taken,
 so that what is known of every run holds of it: the code takes no step that the protocol does not allow.
 */
module DeviceCode {
  import opened Options
  import opened Channels
  import opened DeviceProtocol
  import opened DeviceProofs
  import opened DeviceTheorems
  import T = Transactions

  // ---------------------------------------------------------------- whose step it is

  datatype Actor = Nobody | Caller(p: nat) | WritePump | Closer

  predicate Mine(me: Actor, step: Step) {
    match me
    case Nobody => false
    case Caller(p) => IsSenderStep(step) && step.p == p
    case WritePump => IsPumpStep(step)
    case Closer => step.CloseShutdown? || step.CloseTransactions?
  }

  /** What the steps of the others leave as it was. */
  ghost predicate Kept(me: Actor, s: State, t: State) {
    && |s.envelopes| <= |t.envelopes| && |s.tx.chans| <= |t.tx.chans| && |s.senders| <= |t.senders|
    && match me
       case Nobody => true
       case Caller(p) => p < |s.senders| ==> t.senders[p] == s.senders[p]
       case WritePump =>
         t.pump == s.pump && forall e :: 0 <= e < |s.envelopes| ==> t.envelopes[e].io == s.envelopes[e].io
       case Closer => !s.stage.Open? ==> t.stage == s.stage
  }

  lemma OthersKeep(me: Actor, s: State, step: Step)
    requires Enabled(s, step) && !Mine(me, step)
    ensures Kept(me, s, Apply(s, step))
  {
    NothingShrinks(s, step);
    if me == WritePump {
      OnlyThePumpWrites(s, step);
    }
  }

  lemma NothingShrinks(s: State, step: Step)
    requires Enabled(s, step)
    ensures var t := Apply(s, step);
            |s.envelopes| <= |t.envelopes| && |s.tx.chans| <= |t.tx.chans| && |s.senders| <= |t.senders|
  {
    if IsPumpStep(step) {
      PumpShrinksNothing(s, step);
    }
  }

  lemma PumpShrinksNothing(s: State, step: Step)
    requires Enabled(s, step) && IsPumpStep(step)
    ensures var t := Apply(s, step);
            |s.envelopes| <= |t.envelopes| && |s.tx.chans| <= |t.tx.chans| && |s.senders| <= |t.senders|
  {
  }

  lemma OnlyThePumpWrites(s: State, step: Step)
    requires Enabled(s, step) && !IsPumpStep(step)
    ensures var t := Apply(s, step);
            |s.envelopes| <= |t.envelopes| && t.pump == s.pump
            && forall e :: 0 <= e < |s.envelopes| ==> t.envelopes[e].io == s.envelopes[e].io
  {
  }

  lemma KeptTwice(me: Actor, s: State, t: State, u: State)
    requires Kept(me, s, t) && Kept(me, t, u)
    ensures Kept(me, s, u)
  {
  }

  lemma StagesAgree(run: seq<State>, trace: seq<Step>)
    requires IsRun(run, trace)
    ensures run[|trace|].tx.closed <==> run[|trace|].stage.TxClosed?
  {
    RunKeepsInv(run, trace, |trace|);
  }

  lemma TransactionsAgree(run: seq<State>, trace: seq<Step>)
    requires IsRun(run, trace)
    ensures T.Inv(run[|trace|].tx)
  {
    RunKeepsInv(run, trace, |trace|);
  }

  lemma QueueAgrees(run: seq<State>, trace: seq<Step>)
    requires IsRun(run, trace)
    ensures run[|trace|].queue != [] ==> run[|trace|].queue[0] < |run[|trace|].envelopes|
  {
    RunKeepsInv(run, trace, |trace|);
  }

  /** What a call of Send that is back with this outcome promises. */
  ghost predicate Promised(run: seq<State>, trace: seq<Step>, p: nat, outcome: Outcome) {
    && |run| == |trace| + 1 && p < |run[|trace|].senders|
    && var x := run[|trace|].senders[p];
    && (outcome.Answered? ==>
          x.key.Some? && exists a, j :: 0 <= a < j < |trace| && trace[a] == Register(p)
                                        && trace[j] == ReadMessage(x.key.value, outcome.response))
    && (!outcome.Failed? ==> x.envelope.Some? && FrameWritten(run, trace, x.envelope.value))
    && (outcome.Sent? ==> x.key.None?)
    && (x.chan.Some? ==> x.chan.value !in run[|trace|].tx.pending.Values)
  }

  ghost predicate FrameWritten(run: seq<State>, trace: seq<Step>, e: nat)
    requires |run| == |trace| + 1
  {
    exists w :: 0 <= w < |trace| && trace[w] == PumpWrite(None) && run[w].pump == Holding(e)
  }

  lemma Promises(run: seq<State>, trace: seq<Step>, p: nat, outcome: Outcome)
    requires IsRun(run, trace) && p < |run[|trace|].senders| && run[|trace|].senders[p].pc == Returned(outcome)
    ensures Promised(run, trace, p, outcome)
  {
    var n := |trace|;
    var x := run[n].senders[p];
    if outcome.Answered? {
      AnsweredSend(run, trace, n, p);
      var a, j :| 0 <= a < j < n && trace[a] == Register(p) && trace[j] == ReadMessage(x.key.value, outcome.response);
    }
    if !outcome.Failed? {
      SuccessMeansWritten(run, trace, n, p);
    }
    if x.chan.Some? {
      ReturnedIsNotPending(run, trace, n, p);
    }
    RunKeepsInv(run, trace, n);
    assert SenderOk(run[n], p);
  }

  // ---------------------------------------------------------------- the object

  /** `senders` and `pump` say where the goroutines are; `owners`, `log`, `trace` and `run` are history. */
  class Device {
    const transactions: T.Transactions
    const queueSize: nat
    var open: bool
    var shutdown: bool
    var messages: seq<nat>
    var envelopes: seq<Envelope>
    var senders: seq<Sender>
    var pump: Pump
    var owners: seq<nat>
    var log: seq<Event>
    ghost var trace: seq<Step>
    ghost var run: seq<State>

    function StageOf(): Stage reads this, transactions {
      if open then Open else if !shutdown then Swapped else if !transactions.closed then ShutDown else TxClosed
    }

    function View(): State reads this, transactions {
      State(StageOf(), transactions.View(), senders, envelopes, messages, queueSize, pump, owners, log)
    }

    /** The object is in the last state of a run of the protocol. */
    ghost predicate Valid() reads this, transactions {
      IsRun(run, trace) && run[|trace|] == View() && (open ==> !shutdown)
    }

    /** The run got longer by this step.  With Valid before and after, the step was enabled and led to this state. */
    twostate predicate Did(step: Step) reads this, transactions {
      trace == old(trace) + [step] && run == old(run) + [View()]
    }

    constructor (queueSize: nat)
      ensures Valid() && fresh(transactions) && View() == Init(queueSize) && trace == []
    {
      transactions := new T.Transactions();
      this.queueSize := queueSize;
      open, shutdown, messages, envelopes, senders, pump, owners, log := true, false, [], [], [], Looping, [], [];
      trace, run := [], [Init(queueSize)];
    }

    /** Whatever the other goroutines do meanwhile. */
    method Interfere(me: Actor)
      requires Valid()
      modifies this, transactions
      ensures Valid() && Kept(me, old(View()), View())
      ensures old(trace) <= trace && forall i :: |old(trace)| <= i < |trace| ==> !Mine(me, trace[i])
    {
      var n: nat := *;
      while n > 0
        invariant Valid() && Kept(me, old(View()), View())
        invariant old(trace) <= trace && forall i :: |old(trace)| <= i < |trace| ==> !Mine(me, trace[i])
      {
        var step: Step := *;
        if Enabled(View(), step) && !Mine(me, step) {
          ghost var s := View();
          OthersKeep(me, s, step);
          Perform(step);
          KeptTwice(me, old(View()), s, View());
        }
        n := n - 1;
      }
    }

    /** Any one step, as an assignment of the state it leads to. */
    method Perform(step: Step)
      requires Valid() && Enabled(View(), step)
      modifies this, transactions
      ensures Valid() && Did(step) && View() == Apply(old(View()), step)
    {
      LongerRun(run, trace, step);
      StagesAgree(run + [Apply(View(), step)], trace + [step]);
      var t := Apply(View(), step);
      Become(t);
      run, trace := run + [t], trace + [step];
    }

    method Become(t: State)
      requires t.queueSize == queueSize && (t.tx.closed <==> t.stage.TxClosed?)
      modifies this, transactions
      ensures View() == t && (open ==> !shutdown) && run == old(run) && trace == old(trace)
    {
      open, shutdown := t.stage.Open?, t.stage.ShutDown? || t.stage.TxClosed?;
      BecomeTransactions(t.tx);
      messages, envelopes, senders, pump, owners, log := t.queue, t.envelopes, t.senders, t.pump, t.owners, t.log;
    }

    method BecomeTransactions(tx: T.State)
      modifies transactions
      ensures transactions.View() == tx
    {
      transactions.closed, transactions.pending := tx.closed, tx.pending;
      transactions.chans, transactions.keys := tx.chans, tx.keys;
    }

    // -------------------------------------------------------------- Send, section by section

    method Begin(key: Option<T.Key>) returns (p: nat)
      requires Valid()
      modifies this
      ensures Valid() && Did(Call(key)) && p == |old(senders)|
      ensures senders == old(senders) + [Sender(key, None, 0, None, Entering)]
    {
      ghost var t := Apply(View(), Call(key));
      LongerRun(run, trace, Call(key));
      p := |senders|;
      senders := senders + [Sender(key, None, 0, None, Entering)];
      assert View() == t;
      run, trace := run + [t], trace + [Call(key)];
    }

    method Closed(p: nat) returns (closed: bool)
      requires Valid() && At(View(), p, Entering)
      modifies this
      ensures Valid() && Did(Enter(p)) && closed == !open && p < |senders|
      ensures senders[p] == old(senders[p]).(pc := if closed then Returned(Failed(DeviceClosed))
                                                   else if old(senders[p]).key.Some? then Registering else Enqueueing)
    {
      ghost var t := Apply(View(), Enter(p));
      LongerRun(run, trace, Enter(p));
      closed := !open;
      var x := senders[p];
      senders := senders[p := x.(pc := if closed then Returned(Failed(DeviceClosed))
                                       else if x.key.Some? then Registering else Enqueueing)];
      assert View() == t;
      run, trace := run + [t], trace + [Enter(p)];
    }

    method RegisterKey(p: nat, key: T.Key) returns (result: Option<T.ChanId>, err: Option<T.TxError>)
      requires Valid() && At(View(), p, Registering) && senders[p].key == Some(key)
      modifies this, transactions
      ensures Valid() && Did(Register(p)) && err == T.RegisterError(old(View()).tx, key)
      ensures result == if err.None? then Some(|old(transactions.chans)|) else None
      ensures p < |senders| && (result.Some? ==> result.value < |transactions.chans|)
      ensures senders[p] == if err.Some? then old(senders[p]).(pc := Returned(Failed(TransactionRefused(err.value))))
                            else old(senders[p]).(pc := Enqueueing, chan := result, at := |old(log)|)
    {
      TransactionsAgree(run, trace);
      LongerRun(run, trace, Register(p));
      result, err := RegisterNow(p, key);
      run, trace := run + [View()], trace + [Register(p)];
    }

    method RegisterNow(p: nat, key: T.Key) returns (result: Option<T.ChanId>, err: Option<T.TxError>)
      requires transactions.Valid() && At(View(), p, Registering) && senders[p].key == Some(key)
      modifies this`senders, this`owners, this`log, transactions
      ensures View() == Apply(old(View()), Register(p)) && err == T.RegisterError(old(View()).tx, key)
      ensures result == if err.None? then Some(|old(transactions.chans)|) else None
      ensures p < |senders| && (result.Some? ==> result.value < |transactions.chans|)
      ensures senders[p] == if err.Some? then old(senders[p]).(pc := Returned(Failed(TransactionRefused(err.value))))
                            else old(senders[p]).(pc := Enqueueing, chan := result, at := |old(log)|)
    {
      result, err := transactions.Register(key);
      var x := senders[p];
      if err.Some? {
        senders := senders[p := x.(pc := Returned(Failed(TransactionRefused(err.value))))];
      } else {
        senders := senders[p := x.(pc := Enqueueing, chan := result, at := |log|)];
        owners, log := owners + [p], log + [Registration(p, key, result.value)];
      }
    }

    /** The caller p is out of its select with this outcome; the deferred Cancel is next if it has a transaction. */
    twostate predicate Departed(p: nat, outcome: Outcome) reads this, transactions {
      p < |old(senders)| <= |senders| && senders[p] == Depart(old(senders[p]), outcome)
    }

    /** The two cases that every select of Send has besides its own. */
    method Interrupted(p: nat) returns (failure: Failure)
      requires Valid() && p < |senders| && InSelect(senders[p].pc)
      modifies this
      ensures Valid() && Departed(p, Failed(failure)) && old(trace) <= trace
      ensures failure == ContextDone || failure == DeviceClosed
    {
      var choice: nat := *;
      if choice == 0 && shutdown {
        ghost var t := Apply(View(), SeeShutdown(p));
        LongerRun(run, trace, SeeShutdown(p));
        senders := senders[p := Depart(senders[p], Failed(DeviceClosed))];
        assert View() == t;
        run, trace := run + [t], trace + [SeeShutdown(p)];
        failure := DeviceClosed;
      } else {
        ghost var t := Apply(View(), GiveUp(p));
        LongerRun(run, trace, GiveUp(p));
        senders := senders[p := Depart(senders[p], Failed(ContextDone))];
        assert View() == t;
        run, trace := run + [t], trace + [GiveUp(p)];
        failure := ContextDone;
      }
    }

    /** The first select of sendRequest: hand the envelope to the write pump. */
    method Enqueue(p: nat) returns (envelope: Option<nat>, failure: Option<Failure>)
      requires Valid() && At(View(), p, Enqueueing)
      modifies this
      ensures Valid() && (failure.Some? <==> envelope.None?) && old(trace) <= trace
      ensures failure.None? ==> p < |senders| && envelope.value < |envelopes|
      ensures failure.None? ==> senders[p] == old(senders[p]).(pc := AwaitingWrite, envelope := envelope)
      ensures failure.Some? ==> Departed(p, Failed(failure.value))
    {
      var choice: nat := *;
      if choice == 0 && |messages| < queueSize {
        var e := HandOver(p);
        return Some(e), None;
      }
      var why := Interrupted(p);
      return None, Some(why);
    }

    method HandOver(p: nat) returns (e: nat)
      requires Valid() && At(View(), p, Enqueueing) && |messages| < queueSize
      modifies this
      ensures Valid() && Did(Step.Enqueue(p)) && p < |senders| && e < |envelopes|
      ensures senders[p] == old(senders[p]).(pc := AwaitingWrite, envelope := Some(e))
    {
      LongerRun(run, trace, Step.Enqueue(p));
      e := EnqueueNow(p);
      run, trace := run + [View()], trace + [Step.Enqueue(p)];
    }

    method EnqueueNow(p: nat) returns (e: nat)
      requires At(View(), p, Enqueueing) && |messages| < queueSize
      modifies this`envelopes, this`messages, this`senders
      ensures View() == Apply(old(View()), Step.Enqueue(p)) && p < |senders| && e < |envelopes|
      ensures senders[p] == old(senders[p]).(pc := AwaitingWrite, envelope := Some(e))
    {
      e := |envelopes|;
      envelopes := envelopes + [Envelope(p, Make(1), Untried, [], Queued)];
      messages := messages + [e];
      senders := senders[p := senders[p].(pc := AwaitingWrite, envelope := Some(e))];
    }

    /** Its second select: wait for what became of the write. */
    method AwaitWrite(p: nat, envelope: nat) returns (failure: Option<Failure>)
      requires Valid() && At(View(), p, AwaitingWrite)
      requires senders[p].envelope == Some(envelope) && envelope < |envelopes|
      modifies this
      ensures Valid() && p < |senders| && old(trace) <= trace
      ensures failure.None? && senders[p].chan.Some? ==> senders[p] == old(senders[p]).(pc := AwaitingResponse)
      ensures failure.None? && senders[p].chan.None? ==> Departed(p, Sent)
      ensures failure.Some? ==> Departed(p, Failed(failure.value))
    {
      var choice: nat := *;
      if choice == 0 && Ready(envelopes[envelope].complete) {
        var err := ReceiveResult(p, envelope);
        return if err.Some? then Some(WriteBroken(err.value)) else None;
      }
      var why := Interrupted(p);
      return Some(why);
    }

    method ReceiveResult(p: nat, envelope: nat) returns (err: Option<IoError>)
      requires Valid() && At(View(), p, AwaitingWrite) && senders[p].envelope == Some(envelope)
      requires envelope < |envelopes| && Ready(envelopes[envelope].complete)
      modifies this
      ensures Valid() && Did(TakeResult(p)) && |senders| == |old(senders)|
      ensures var x := old(senders[p]);
              senders[p] == if err.Some? then Depart(x, Failed(WriteBroken(err.value)))
                            else if x.chan.None? then Depart(x, Sent) else x.(pc := AwaitingResponse)
    {
      ghost var t := Apply(View(), TakeResult(p));
      LongerRun(run, trace, TakeResult(p));
      var x, v := senders[p], envelopes[envelope];
      err := Front(v.complete);
      envelopes := envelopes[envelope := v.(complete := Take(v.complete))];
      senders := senders[p := if err.Some? then Depart(x, Failed(WriteBroken(err.value)))
                              else if x.chan.None? then Depart(x, Sent) else x.(pc := AwaitingResponse)];
      assert View() == t;
      run, trace := run + [t], trace + [TakeResult(p)];
    }

    method SendRequest(p: nat) returns (failure: Option<Failure>)
      requires Valid() && At(View(), p, Enqueueing)
      modifies this, transactions
      ensures Valid() && old(trace) <= trace && p < |senders|
      ensures senders[p].key == old(senders[p]).key && senders[p].chan == old(senders[p]).chan
      ensures |old(transactions.chans)| <= |transactions.chans|
      ensures failure.None? && senders[p].chan.Some? ==> senders[p].pc.AwaitingResponse?
      ensures failure.None? && senders[p].chan.None? ==> senders[p] == Depart(senders[p], Sent)
      ensures failure.Some? ==> senders[p] == Depart(senders[p], Failed(failure.value))
    {
      var envelope;
      envelope, failure := Enqueue(p);
      if failure.Some? {
        return;
      }
      Interfere(Caller(p));
      failure := AwaitWrite(p, envelope.value);
    }

    method AwaitResponse(p: nat, result: T.ChanId) returns (outcome: Outcome)
      requires Valid() && At(View(), p, AwaitingResponse)
      requires senders[p].chan == Some(result) && result < |transactions.chans|
      modifies this, transactions
      ensures Valid() && Departed(p, outcome) && old(trace) <= trace
    {
      var choice: nat := *;
      if choice == 0 && Ready(transactions.chans[result]) {
        outcome := ReceiveResponse(p, result);
      } else {
        var why := Interrupted(p);
        outcome := Failed(why);
      }
    }

    method ReceiveResponse(p: nat, result: T.ChanId) returns (outcome: Outcome)
      requires Valid() && At(View(), p, AwaitingResponse) && senders[p].chan == Some(result)
      requires result < |transactions.chans| && Ready(transactions.chans[result])
      modifies this, transactions
      ensures Valid() && Did(TakeResponse(p)) && Departed(p, outcome)
      ensures var response := Front(old(transactions.chans)[result]);
              outcome == if response.Some? then Answered(response.value) else Failed(TransactionCancelled)
    {
      ghost var t := Apply(View(), TakeResponse(p));
      LongerRun(run, trace, TakeResponse(p));
      var response := Front(transactions.chans[result]);
      transactions.chans := transactions.chans[result := Take(transactions.chans[result])];
      outcome := if response.Some? then Answered(response.value) else Failed(TransactionCancelled);
      senders := senders[p := Depart(senders[p], outcome)];
      assert View() == t;
      run, trace := run + [t], trace + [TakeResponse(p)];
    }

    /** The deferred call of Cancel. */
    method CancelKey(p: nat, key: T.Key)
      requires Valid() && p < |senders| && senders[p].pc.Leaving? && senders[p].key == Some(key)
      modifies this, transactions
      ensures Valid() && Did(Leave(p)) && p < |senders|
      ensures senders[p] == old(senders[p]).(pc := Returned(old(senders[p]).pc.outcome))
    {
      TransactionsAgree(run, trace);
      LongerRun(run, trace, Leave(p));
      CancelNow(p, key);
      run, trace := run + [View()], trace + [Leave(p)];
    }

    method CancelNow(p: nat, key: T.Key)
      requires transactions.Valid() && p < |senders| && senders[p].pc.Leaving? && senders[p].key == Some(key)
      modifies this`senders, this`log, transactions
      ensures View() == Apply(old(View()), Leave(p)) && p < |senders|
      ensures senders[p] == old(senders[p]).(pc := Returned(old(senders[p]).pc.outcome))
    {
      if !transactions.closed && key in transactions.pending {
        log := log + [Cancellation(p, transactions.pending[key])];
      }
      transactions.Cancel(key);
      senders := senders[p := senders[p].(pc := Returned(senders[p].pc.outcome))];
    }

    /**
     A whole call of Send.  A response that it returns was handed over by the read pump under its own key, after its
     own Register; without an error the frame was written; and on return its transaction is not pending.
     */
    method Send(key: Option<T.Key>) returns (outcome: Outcome, p: nat)
      requires Valid()
      modifies this, transactions
      ensures Valid() && p < |senders| && senders[p].key == key && senders[p].pc == Returned(outcome)
      ensures old(trace) + [Call(key)] <= trace && p == |old(senders)|
      ensures Promised(run, trace, p, outcome)
    {
      outcome, p := SendThrough(key);
      Promises(run, trace, p, outcome);
    }

    method SendThrough(key: Option<T.Key>) returns (outcome: Outcome, p: nat)
      requires Valid()
      modifies this, transactions
      ensures Valid() && p < |senders| && senders[p].key == key && senders[p].pc == Returned(outcome)
      ensures old(trace) + [Call(key)] <= trace && p == |old(senders)|
    {
      var closed;
      p, closed := Enters(key);
      if closed {
        outcome := Failed(DeviceClosed);
      } else {
        Interfere(Caller(p));
        outcome := Proceed(p, key);
      }
    }

    method Enters(key: Option<T.Key>) returns (p: nat, closed: bool)
      requires Valid()
      modifies this, transactions
      ensures Valid() && old(trace) + [Call(key)] <= trace && p == |old(senders)| && p < |senders|
      ensures senders[p] == Sender(key, None, 0, None, if closed then Returned(Failed(DeviceClosed))
                                                       else if key.Some? then Registering else Enqueueing)
    {
      p := Begin(key);
      Interfere(Caller(p));
      closed := Closed(p);
    }

    method Proceed(p: nat, key: Option<T.Key>) returns (outcome: Outcome)
      requires Valid() && At(View(), p, if key.Some? then Registering else Enqueueing)
      requires senders[p].key == key && senders[p].chan.None?
      modifies this, transactions
      ensures Valid() && old(trace) <= trace && p < |senders|
      ensures senders[p].key == key && senders[p].pc == Returned(outcome)
    {
      if key.Some? {
        outcome := Transact(p, key.value);
      } else {
        var failure := SendRequest(p);
        outcome := if failure.Some? then Failed(failure.value) else Sent;
      }
    }

    /** The part of Send that a deferred Cancel follows. */
    method Transact(p: nat, key: T.Key) returns (outcome: Outcome)
      requires Valid() && At(View(), p, Registering) && senders[p].key == Some(key)
      modifies this, transactions
      ensures Valid() && old(trace) <= trace && p < |senders|
      ensures senders[p].key == Some(key) && senders[p].pc == Returned(outcome)
    {
      var result, err := RegisterKey(p, key);
      if err.Some? {
        return Failed(TransactionRefused(err.value));
      }
      outcome := Exchange(p, key, result.value);
      Interfere(Caller(p));
      CancelKey(p, key);
    }

    method Exchange(p: nat, key: T.Key, result: T.ChanId) returns (outcome: Outcome)
      requires Valid() && At(View(), p, Enqueueing) && senders[p].key == Some(key)
      requires senders[p].chan == Some(result) && result < |transactions.chans|
      modifies this, transactions
      ensures Valid() && old(trace) <= trace && p < |senders|
      ensures senders[p].key == Some(key) && senders[p].pc == Leaving(outcome)
    {
      Interfere(Caller(p));
      var failure := SendRequest(p);
      if failure.Some? {
        return Failed(failure.value);
      }
      Interfere(Caller(p));
      outcome := AwaitResponse(p, result);
    }

    // -------------------------------------------------------------- requestClose and the read pump

    /** Whoever swaps the state closes the shutdown channel and the transactions; anyone else is done. */
    method RequestClose()
      requires Valid()
      modifies this, transactions
      ensures Valid() && old(trace) <= trace && !open
      ensures old(open) ==> shutdown && transactions.closed && transactions.pending == map[]
      ensures !old(open) ==> View() == old(View()) && trace == old(trace)
    {
      var swapped := Swap();
      if swapped {
        Interfere(Closer);
        CloseChannel();
        Interfere(Closer);
        CloseAll();
      }
    }

    method Swap() returns (swapped: bool)
      requires Valid()
      modifies this
      ensures Valid() && swapped == old(open)
      ensures if swapped then Did(SwapState) && StageOf().Swapped? else unchanged(this)
    {
      swapped := open;
      if swapped {
        StagesAgree(run, trace);
        ghost var t := Apply(View(), SwapState);
        LongerRun(run, trace, SwapState);
        open := false;
        assert View() == t;
        run, trace := run + [t], trace + [SwapState];
      }
    }

    /** The shutdown channel is not closed yet. */
    method CloseChannel()
      requires Valid() && StageOf().Swapped?
      modifies this
      ensures Valid() && !old(shutdown) && Did(Step.CloseShutdown) && StageOf().ShutDown?
    {
      StagesAgree(run, trace);
      ghost var t := Apply(View(), Step.CloseShutdown);
      LongerRun(run, trace, Step.CloseShutdown);
      shutdown := true;
      assert View() == t;
      run, trace := run + [t], trace + [Step.CloseShutdown];
    }

    method CloseAll()
      requires Valid() && StageOf().ShutDown?
      modifies this, transactions
      ensures Valid() && Did(CloseTransactions) && shutdown && transactions.closed && transactions.pending == map[]
    {
      ghost var t := Apply(View(), CloseTransactions);
      LongerRun(run, trace, CloseTransactions);
      TransactionsAgree(run, trace);
      var err := transactions.Close();
      assert View() == t;
      run, trace := run + [t], trace + [CloseTransactions];
    }

    /** The read pump updates a waiting transaction; the flag says whether to report it complete or broken. */
    method ReadMessage(key: T.Key, response: T.Response) returns (completed: bool)
      requires Valid()
      modifies this, transactions
      ensures Valid() && Did(Step.ReadMessage(key, response))
      ensures completed <==> key != "" && key in old(transactions.pending)
    {
      TransactionsAgree(run, trace);
      LongerRun(run, trace, Step.ReadMessage(key, response));
      completed := CompleteNow(key, response);
      run, trace := run + [View()], trace + [Step.ReadMessage(key, response)];
    }

    method CompleteNow(key: T.Key, response: T.Response) returns (completed: bool)
      requires transactions.Valid()
      modifies this`log, transactions
      ensures View() == Apply(old(View()), Step.ReadMessage(key, response))
      ensures completed <==> key != "" && key in old(transactions.pending)
    {
      if key != "" && key in transactions.pending {
        log := log + [Completion(key, response, transactions.pending[key])];
      }
      var err := transactions.Complete(key, response);
      completed := err.None?;
    }

    // -------------------------------------------------------------- the write pump

    method Pop(fate: Fate) returns (e: nat)
      requires messages != [] && messages[0] < |envelopes|
      modifies this`messages, this`envelopes
      ensures e == old(messages)[0] && messages == old(messages)[1..]
      ensures envelopes == old(envelopes)[e := old(envelopes)[e].(fate := fate)]
    {
      e := messages[0];
      messages := messages[1..];
      envelopes := envelopes[e := envelopes[e].(fate := fate)];
    }

    /** A receive from the queue, in the loop. */
    method TakeMessage() returns (e: nat)
      requires Valid() && pump.Looping? && |messages| > 0 && messages[0] < |envelopes|
      modifies this
      ensures Valid() && Did(PumpTake) && e < |envelopes| && pump == Holding(e)
    {
      ghost var t := Apply(View(), PumpTake);
      LongerRun(run, trace, PumpTake);
      e := Pop(Taken);
      pump := Holding(e);
      assert View() == t;
      run, trace := run + [t], trace + [PumpTake];
    }

    /** A receive from the queue, in the deferred function. */
    method TakeUndeliverable() returns (e: nat)
      requires Valid() && pump.Draining? && |messages| > 0 && messages[0] < |envelopes|
      modifies this
      ensures Valid() && Did(PumpDrain) && e < |envelopes| && pump == Dropping(e)
    {
      ghost var t := Apply(View(), PumpDrain);
      LongerRun(run, trace, PumpDrain);
      e := Pop(Undeliverable);
      pump := Dropping(e);
      assert View() == t;
      run, trace := run + [t], trace + [PumpDrain];
    }

    /** Encoding and writing the frame, either of which may fail. */
    method Write(e: nat) returns (err: Option<IoError>)
      requires Valid() && pump == Holding(e) && e < |envelopes|
      modifies this
      ensures Valid() && Did(PumpWrite(err)) && pump == if err.Some? then Broke(e) else Wrote(e)
      ensures |envelopes| == |old(envelopes)| && (err.Some? ==> envelopes[e].io == Broken(err.value))
    {
      ghost var s := View();
      err := WriteNow(e);
      ghost var t := Apply(s, PumpWrite(err));
      LongerRun(run, trace, PumpWrite(err));
      assert View() == t;
      run, trace := run + [t], trace + [PumpWrite(err)];
    }

    method WriteNow(e: nat) returns (err: Option<IoError>)
      requires pump == Holding(e) && e < |envelopes|
      modifies this`envelopes, this`pump
      ensures View() == Apply(old(View()), PumpWrite(err)) && pump == if err.Some? then Broke(e) else Wrote(e)
      ensures |envelopes| == |old(envelopes)| && (err.Some? ==> envelopes[e].io == Broken(err.value))
    {
      err := *;
      envelopes := envelopes[e := envelopes[e].(io := if err.Some? then Broken(err.value) else Written)];
      pump := if err.Some? then Broke(e) else Wrote(e);
    }

    method Report(e: nat, err: IoError)
      requires Valid() && pump == Broke(e) && e < |envelopes| && envelopes[e].io == Broken(err)
      modifies this
      ensures Valid() && Did(PumpReport) && pump == Reported(e) && |envelopes| == |old(envelopes)|
    {
      ghost var t := Apply(View(), PumpReport);
      LongerRun(run, trace, PumpReport);
      envelopes := envelopes[e := envelopes[e].(complete := Put(envelopes[e].complete, err))];
      pump := Reported(e);
      assert View() == t;
      run, trace := run + [t], trace + [PumpReport];
    }

    method CloseComplete(e: nat, ok: bool)
      requires Valid() && pump == (if ok then Wrote(e) else Reported(e)) && e < |envelopes|
      modifies this
      ensures Valid() && Did(PumpComplete) && pump == Finished(e, ok) && |envelopes| == |old(envelopes)|
    {
      ghost var t := Apply(View(), PumpComplete);
      LongerRun(run, trace, PumpComplete);
      var v := envelopes[e];
      envelopes := envelopes[e := v.(complete := Shut(v.complete), fate := Completed)];
      pump := Finished(e, ok);
      assert View() == t;
      run, trace := run + [t], trace + [PumpComplete];
    }

    /** Telling the listeners what became of the envelope, and back to the loop or out of it. */
    method Dispatch(e: nat, ok: bool)
      requires Valid() && pump == Finished(e, ok) && e < |envelopes|
      modifies this
      ensures Valid() && Did(PumpDispatch) && pump == (if ok then Looping else Exiting(Some(e)))
      ensures |envelopes| == |old(envelopes)|
    {
      ghost var t := Apply(View(), PumpDispatch);
      LongerRun(run, trace, PumpDispatch);
      var v := envelopes[e];
      envelopes := envelopes[e := v.(events := v.events + [if ok then MessageSent else MessageFailed])];
      pump := if ok then Looping else Exiting(Some(e));
      assert View() == t;
      run, trace := run + [t], trace + [PumpDispatch];
    }

    /** One message of the loop: write it, report an error to the waiting caller, and tell the listeners. */
    method Deliver(e: nat) returns (err: Option<IoError>)
      requires Valid() && pump == Holding(e) && e < |envelopes|
      modifies this, transactions
      ensures Valid() && old(trace) <= trace && e < |envelopes|
      ensures pump == if err.Some? then Exiting(Some(e)) else Looping
    {
      err := WriteAndReport(e);
      Interfere(WritePump);
      CloseComplete(e, err.None?);
      Interfere(WritePump);
      Dispatch(e, err.None?);
    }

    method WriteAndReport(e: nat) returns (err: Option<IoError>)
      requires Valid() && pump == Holding(e) && e < |envelopes|
      modifies this, transactions
      ensures Valid() && old(trace) <= trace && e < |envelopes|
      ensures pump == if err.Some? then Reported(e) else Wrote(e)
    {
      Interfere(WritePump);
      err := Write(e);
      Interfere(WritePump);
      if err.Some? {
        Report(e, err.value);
      }
    }

    /** The deferred function announces the envelope that just failed, for the second time, and then drains. */
    method Unwind(envelope: Option<nat>)
      requires Valid() && pump == Exiting(envelope) && (envelope.Some? ==> envelope.value < |envelopes|)
      modifies this
      ensures Valid() && Did(PumpUnwind) && pump == Draining
    {
      ghost var t := Apply(View(), PumpUnwind);
      LongerRun(run, trace, PumpUnwind);
      if envelope.Some? {
        var v := envelopes[envelope.value];
        envelopes := envelopes[envelope.value := v.(events := v.events + [MessageFailed])];
      }
      pump := Draining;
      assert View() == t;
      run, trace := run + [t], trace + [PumpUnwind];
    }

    method Drop(e: nat)
      requires Valid() && pump == Dropping(e) && e < |envelopes|
      modifies this
      ensures Valid() && Did(PumpDrop) && pump == Draining
    {
      ghost var t := Apply(View(), PumpDrop);
      LongerRun(run, trace, PumpDrop);
      var v := envelopes[e];
      envelopes := envelopes[e := v.(events := v.events + [MessageFailed])];
      pump := Draining;
      assert View() == t;
      run, trace := run + [t], trace + [PumpDrop];
    }

    /** One turn of the draining loop, which ends when a receive would block. */
    method DrainOne() returns (stopped: bool)
      requires Valid() && pump == Draining
      modifies this, transactions
      ensures Valid() && old(trace) <= trace && pump == (if stopped then Stopped else Draining)
      ensures stopped ==> messages == []
    {
      Interfere(WritePump);
      stopped := messages == [];
      if stopped {
        Stop();
      } else {
        QueueAgrees(run, trace);
        var e := TakeUndeliverable();
        Interfere(WritePump);
        Drop(e);
      }
    }

    method Stop()
      requires Valid() && pump == Draining && messages == []
      modifies this
      ensures Valid() && Did(PumpStop) && pump == Stopped && messages == []
    {
      ghost var t := Apply(View(), PumpStop);
      LongerRun(run, trace, PumpStop);
      pump := Stopped;
      assert View() == t;
      run, trace := run + [t], trace + [PumpStop];
    }

    method Exit()
      requires Valid() && pump == Looping
      modifies this
      ensures Valid() && Did(PumpExit) && pump == Exiting(None)
    {
      ghost var t := Apply(View(), PumpExit);
      LongerRun(run, trace, PumpExit);
      pump := Exiting(None);
      assert View() == t;
      run, trace := run + [t], trace + [PumpExit];
    }

    /** One turn of the pump's loop: nothing, a message, a ping, or the end of the loop. */
    method Turn() returns (exiting: bool, envelope: Option<nat>)
      requires Valid() && pump == Looping
      modifies this, transactions
      ensures Valid() && old(trace) <= trace && (envelope.Some? ==> envelope.value < |envelopes|)
      ensures pump == if exiting then Exiting(envelope) else Looping
    {
      Interfere(WritePump);
      exiting, envelope := false, None;
      var choice: nat, pingFailed: bool := *, *;
      if choice == 0 && |messages| > 0 {
        QueueAgrees(run, trace);
        var e := TakeMessage();
        var err := Deliver(e);
        if err.Some? {
          exiting, envelope := true, Some(e);
        }
      } else if shutdown || pingFailed {
        Exit();
        exiting := true;
      }
    }

    /**
     The write pump, watched for so many turns of its two loops: it is still in one of them, or it has stopped with
     the queue empty.  It takes only steps of the protocol, whatever the other goroutines do.
     */
    method RunWritePump(turns: nat)
      requires Valid() && pump == Looping
      modifies this, transactions
      ensures Valid() && old(trace) <= trace
      ensures pump == Looping || pump == Draining || (pump == Stopped && messages == [])
    {
      var n, exiting := turns, false;
      var envelope: Option<nat> := None;
      while n > 0 && !exiting
        invariant Valid() && old(trace) <= trace && (envelope.Some? ==> envelope.value < |envelopes|)
        invariant pump == if exiting then Exiting(envelope) else Looping
      {
        exiting, envelope := Turn();
        n := n - 1;
      }
      if !exiting {
        return;
      }
      Interfere(WritePump);
      Unwind(envelope);
      var stopped := false;
      while n > 0 && !stopped
        invariant Valid() && old(trace) <= trace
        invariant pump == if stopped then Stopped else Draining
        invariant stopped ==> messages == []
      {
        stopped := DrainOne();
        n := n - 1;
      }
    }
  }
}
