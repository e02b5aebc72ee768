/** What every interleaving on one device keeps, and what Send and the write pump therefore promise. */
module DeviceProofs {
  import opened Options
  import opened DeviceProtocol
  import T = Transactions

  // ---------------------------------------------------------------- envelopes and write pump

  /** Steps that leave the queue, the pump and the envelopes alone keep their part of the invariant. */
  lemma EnvelopesFrame(s: State, t: State)
    requires EnvelopesOk(s)
    requires t.envelopes == s.envelopes && t.queue == s.queue && t.queueSize == s.queueSize && t.pump == s.pump
    requires |s.senders| <= |t.senders|
    requires forall p :: 0 <= p < |s.senders| ==> t.senders[p].envelope == s.senders[p].envelope
    ensures EnvelopesOk(t)
  {
    forall e | 0 <= e < |t.envelopes| ensures EnvelopeOk(t, e) {
      assert EnvelopeOk(s, e);
    }
  }

  lemma EnqueueKeepsEnvelopes(s: State, p: nat)
    requires Inv(s) && Enabled(s, Enqueue(p))
    ensures EnvelopesOk(Enqueued(s, p))
  {
    var t := Enqueued(s, p);
    var n := |s.envelopes|;
    assert SenderOk(s, p);
    forall e | 0 <= e < |t.envelopes| ensures EnvelopeOk(t, e) {
      if e < n {
        assert EnvelopeOk(s, e);
        assert t.envelopes[e] == s.envelopes[e];
        assert s.envelopes[e].sender != p;
        assert e in t.queue <==> e in s.queue;
      } else {
        assert t.queue[|s.queue|] == n;
        assert !Holds(s.pump, n);
      }
    }
  }

  lemma TakeResultKeepsEnvelopes(s: State, p: nat)
    requires Inv(s) && Enabled(s, TakeResult(p))
    ensures EnvelopesOk(ResultTaken(s, p))
  {
    var t := ResultTaken(s, p);
    var d := s.senders[p].envelope.value;
    forall e | 0 <= e < |t.envelopes| ensures EnvelopeOk(t, e) {
      assert EnvelopeOk(s, e);
    }
  }

  /** The pump takes an envelope out of the queue, to write it or to drop it. */
  lemma DequeueKeepsEnvelopes(s: State, step: Step)
    requires EnvelopesOk(s) && Enabled(s, step) && (step.PumpTake? || step.PumpDrain?)
    ensures EnvelopesOk(Apply(s, step))
  {
    var t := Apply(s, step);
    var head := s.queue[0];
    assert head in s.queue;
    forall e | 0 <= e < |t.envelopes| ensures EnvelopeOk(t, e) {
      assert EnvelopeOk(s, e);
      assert e != head ==> (e in t.queue <==> e in s.queue) by {
        assert s.queue == [head] + t.queue;
      }
    }
  }

  /** The pump writes the envelope in its hand, and reports the error if any. */
  lemma WorkKeepsEnvelopes(s: State, step: Step)
    requires EnvelopesOk(s) && Enabled(s, step) && (step.PumpWrite? || step.PumpReport?)
    ensures EnvelopesOk(Apply(s, step))
  {
    var t := Apply(s, step);
    assert EnvelopeOk(s, s.pump.e);
    forall e | 0 <= e < |t.envelopes| ensures EnvelopeOk(t, e) {
      assert EnvelopeOk(s, e);
    }
  }

  lemma CompleteKeepsEnvelopes(s: State)
    requires EnvelopesOk(s) && Enabled(s, PumpComplete)
    ensures EnvelopesOk(Apply(s, PumpComplete))
  {
    var t := Apply(s, PumpComplete);
    assert EnvelopeOk(s, s.pump.e);
    forall e | 0 <= e < |t.envelopes| ensures EnvelopeOk(t, e) {
      assert EnvelopeOk(s, e);
    }
  }

  /** The pump dispatches the event of the envelope it is done with. */
  lemma DispatchKeepsEnvelopes(s: State, step: Step)
    requires EnvelopesOk(s) && Enabled(s, step) && (step.PumpDispatch? || step.PumpDrop?)
    ensures EnvelopesOk(Apply(s, step))
  {
    var t := Apply(s, step);
    assert EnvelopeOk(s, s.pump.e);
    forall e | 0 <= e < |t.envelopes| ensures EnvelopeOk(t, e) {
      assert EnvelopeOk(s, e);
    }
  }

  /** The pump leaves its loop, unwinds or stops, with no envelope behind it. */
  lemma IdleKeepsEnvelopes(s: State, step: Step)
    requires EnvelopesOk(s) && Enabled(s, step)
    requires step.PumpExit? || step.PumpStop? || (step.PumpUnwind? && s.pump.last.None?)
    ensures EnvelopesOk(Apply(s, step))
  {
    forall e | 0 <= e < |s.envelopes| ensures EnvelopeOk(Apply(s, step), e) {
      assert EnvelopeOk(s, e);
    }
  }

  /** The pump unwinds: the envelope whose write broke gets its second event. */
  lemma UnwindKeepsEnvelopes(s: State)
    requires EnvelopesOk(s) && Enabled(s, PumpUnwind) && s.pump.last.Some?
    ensures EnvelopesOk(Apply(s, PumpUnwind))
  {
    forall e | 0 <= e < |s.envelopes| ensures EnvelopeOk(Apply(s, PumpUnwind), e) {
      assert EnvelopeOk(s, e);
    }
  }

  // ---------------------------------------------------------------- senders and transactions

  /**
   Steps that leave the channels alone, let the log grow, and move the envelopes only forward keep the senders'
   part of the invariant, for the senders they leave alone.
   */
  lemma SenderFrame(s: State, t: State, p: nat)
    requires p < |s.senders| && SenderOk(s, p)
    requires p < |t.senders| && t.senders[p] == s.senders[p]
    requires ForwardOnly(s, t)
    requires s.senders[p].chan.Some? ==> ChanForward(s, t, s.senders[p].chan.value, s.senders[p].pc)
    requires s.senders[p].envelope.Some? ==> EnvelopeForward(s, t, s.senders[p].envelope.value)
    ensures SenderOk(t, p)
  {
  }

  /** Senders keep their keys, the log only grows, a device does not reopen. */
  ghost predicate ForwardOnly(s: State, t: State) {
    && s.log <= t.log
    && |s.senders| <= |t.senders|
    && (forall q :: 0 <= q < |s.senders| ==> t.senders[q].key == s.senders[q].key)
    && (!s.stage.Open? ==> !t.stage.Open?) && (s.stage.TxClosed? ==> t.stage.TxClosed?)
    && |s.tx.chans| <= |t.tx.chans| && |t.tx.keys| == |t.tx.chans| && s.tx.keys <= t.tx.keys
  }

  predicate ChanForward(s: State, t: State, c: nat, pc: Pc) {
    && c < |s.tx.chans| && c < |t.tx.chans|
    && (s.tx.chans[c].closed ==> t.tx.chans[c].closed)
    && (InSelect(pc) && |s.tx.chans[c].buffer| == s.tx.chans[c].sends ==>
          |t.tx.chans[c].buffer| == t.tx.chans[c].sends)
  }

  predicate EnvelopeForward(s: State, t: State, e: nat) {
    && e < |s.envelopes| && e < |t.envelopes|
    && t.envelopes[e].sender == s.envelopes[e].sender
    && (!s.envelopes[e].io.Untried? ==> t.envelopes[e].io == s.envelopes[e].io)
    && (|s.envelopes[e].complete.buffer| == s.envelopes[e].complete.sends ==>
          |t.envelopes[e].complete.buffer| == t.envelopes[e].complete.sends)
  }

  lemma OutcomeFrame(s: State, t: State, p: nat, x: Sender, o: Outcome)
    requires OutcomeOk(s, p, x, o) && ForwardOnly(s, t)
    requires x.envelope.Some? ==> EnvelopeForward(s, t, x.envelope.value)
    ensures OutcomeOk(t, p, x, o)
  {
  }

  lemma CancelledFrame(s: State, t: State, p: nat, key: T.Key, c: T.ChanId)
    requires CancelledByOther(s, p, key, c) && ForwardOnly(s, t)
    ensures CancelledByOther(t, p, key, c)
  {
  }

  /** A channel a step leaves alone, or only receives from, still has its owner and its history. */
  lemma ChanFrame(s: State, t: State, c: nat)
    requires |s.owners| == |s.tx.chans| && c < |s.tx.chans| && ChanOk(s, c)
    requires |t.owners| == |t.tx.chans| && s.owners <= t.owners && c < |t.tx.chans| && ForwardOnly(s, t)
    requires forall r :: r in t.tx.chans[c].buffer ==> r in s.tx.chans[c].buffer
    requires t.tx.chans[c].closed && t.tx.chans[c].sends == 0 ==> s.tx.chans[c].closed && s.tx.chans[c].sends == 0
    requires var p := s.owners[c];
             t.senders[p].chan == Some(c) && t.senders[p].at == s.senders[p].at
             && (s.senders[p].pc.Returned? ==> t.senders[p].pc.Returned?)
    ensures ChanOk(t, c)
  {
  }

  /** Steps of the write pump and of requestClose up to the transactions, and a new call. */
  lemma QuietKeepsSenders(s: State, t: State)
    requires SendersOk(s)
    requires t.tx == s.tx && t.owners == s.owners && t.log == s.log && s.senders <= t.senders && ForwardOnly(s, t)
    requires s.stage.TxClosed? <==> t.stage.TxClosed?
    requires forall e :: 0 <= e < |s.envelopes| ==> EnvelopeForward(s, t, e)
    requires forall p :: |s.senders| <= p < |t.senders| ==> SenderOk(t, p) && t.senders[p].chan.None?
    ensures SendersOk(t)
  {
    forall p | 0 <= p < |t.senders| ensures SenderOk(t, p) {
      if p < |s.senders| {
        assert SenderOk(s, p);
        SenderFrame(s, t, p);
      }
    }
    forall c | 0 <= c < |t.tx.chans| ensures ChanOk(t, c) {
      assert ChanOk(s, c);
      ChanFrame(s, t, c);
    }
  }

  /** A step of sender p that touches neither channels nor log. */
  lemma MoveKeepsSenders(s: State, t: State, p: nat)
    requires SendersOk(s) && p < |s.senders| == |t.senders|
    requires t.tx == s.tx && t.owners == s.owners && t.log == s.log && t.stage == s.stage
    requires forall q :: 0 <= q < |s.senders| && q != p ==> t.senders[q] == s.senders[q]
    requires forall e :: 0 <= e < |s.envelopes| && s.envelopes[e].sender != p ==> EnvelopeForward(s, t, e)
    requires t.senders[p].key == s.senders[p].key && t.senders[p].chan == s.senders[p].chan
    requires t.senders[p].at == s.senders[p].at && !s.senders[p].pc.Returned?
    requires SenderOk(t, p)
    ensures SendersOk(t)
  {
    forall q | 0 <= q < |t.senders| ensures SenderOk(t, q) {
      if q != p {
        assert SenderOk(s, q);
        SenderFrame(s, t, q);
      }
    }
    forall c | 0 <= c < |t.tx.chans| ensures ChanOk(t, c) {
      assert ChanOk(s, c);
      ChanFrame(s, t, c);
    }
  }

  lemma EnterKeepsSenders(s: State, p: nat)
    requires SendersOk(s) && Enabled(s, Enter(p))
    ensures SendersOk(Entered(s, p))
  {
    assert SenderOk(s, p);
    MoveKeepsSenders(s, Entered(s, p), p);
  }

  lemma EnqueueKeepsSenders(s: State, p: nat)
    requires SendersOk(s) && Enabled(s, Enqueue(p))
    ensures SendersOk(Enqueued(s, p))
  {
    assert SenderOk(s, p);
    MoveKeepsSenders(s, Enqueued(s, p), p);
  }

  lemma DepartKeepsSenders(s: State, p: nat, failure: Failure)
    requires SendersOk(s) && p < |s.senders| && InSelect(s.senders[p].pc)
    requires failure == ContextDone || (failure == DeviceClosed && ShutdownClosed(s))
    ensures SendersOk(SetSender(s, p, Depart(s.senders[p], Failed(failure))))
  {
    assert SenderOk(s, p);
    MoveKeepsSenders(s, SetSender(s, p, Depart(s.senders[p], Failed(failure))), p);
  }

  lemma TakeResultKeepsSenders(s: State, p: nat)
    requires Inv(s) && Enabled(s, TakeResult(p))
    ensures SendersOk(ResultTaken(s, p))
  {
    var t := ResultTaken(s, p);
    assert SenderOk(s, p);
    assert EnvelopeOk(s, s.senders[p].envelope.value);
    MoveKeepsSenders(s, t, p);
  }

  lemma TakeResponseKeepsSenders(s: State, p: nat)
    requires SendersOk(s) && Enabled(s, TakeResponse(p))
    ensures SendersOk(ResponseTaken(s, p))
  {
    var t := ResponseTaken(s, p);
    var d := s.senders[p].chan.value;
    T.ReceivedKeepsInv(s.tx, d);
    assert SenderOk(s, p) && ChanOk(s, d) && T.OneShot(s.tx.chans[d]);
    forall q | 0 <= q < |t.senders| ensures SenderOk(t, q) {
      if q != p {
        assert SenderOk(s, q);
        SenderFrame(s, t, q);
      } else {
        TakenResponseOutcome(s, p);
      }
    }
    forall c | 0 <= c < |t.tx.chans| ensures ChanOk(t, c) {
      assert ChanOk(s, c);
      ChanFrame(s, t, c);
    }
  }

  lemma TakenResponseOutcome(s: State, p: nat)
    requires SendersOk(s) && Enabled(s, TakeResponse(p))
    ensures SenderOk(ResponseTaken(s, p), p)
  {
    var d := s.senders[p].chan.value;
    assert SenderOk(s, p) && ChanOk(s, d) && T.OneShot(s.tx.chans[d]);
    if |s.tx.chans[d].buffer| == 0 && !s.stage.TxClosed? {
      CancelledFrame(s, ResponseTaken(s, p), p, s.senders[p].key.value, d);
    }
  }

  lemma RegisterKeepsSenders(s: State, p: nat)
    requires SendersOk(s) && Enabled(s, Register(p))
    ensures SendersOk(AfterRegister(s, p))
  {
    assert SenderOk(s, p);
    if T.RegisterError(s.tx, s.senders[p].key.value).Some? {
      MoveKeepsSenders(s, AfterRegister(s, p), p);
    } else {
      AcceptedKeepsSenders(s, p);
    }
  }

  /** Register gave the sender a new channel. */
  lemma AcceptedKeepsSenders(s: State, p: nat)
    requires SendersOk(s) && Enabled(s, Register(p)) && SenderOk(s, p)
    requires T.RegisterError(s.tx, s.senders[p].key.value).None?
    ensures SendersOk(AfterRegister(s, p))
  {
    var t := AfterRegister(s, p);
    T.RegisteredKeepsInv(s.tx, s.senders[p].key.value);
    forall q | 0 <= q < |t.senders| ensures SenderOk(t, q) {
      AcceptedSenderOk(s, p, q);
    }
    forall c | 0 <= c < |t.tx.chans| ensures ChanOk(t, c) {
      if c < |s.tx.chans| {
        assert ChanOk(s, c);
        ChanFrame(s, t, c);
      }
    }
  }

  lemma AcceptedSenderOk(s: State, p: nat, q: nat)
    requires SendersOk(s) && Enabled(s, Register(p)) && SenderOk(s, p) && q < |s.senders|
    requires T.RegisterError(s.tx, s.senders[p].key.value).None?
    ensures q < |AfterRegister(s, p).senders| && SenderOk(AfterRegister(s, p), q)
  {
    if q != p {
      assert SenderOk(s, q);
      SenderFrame(s, AfterRegister(s, p), q);
    }
  }

  /** A change to channel d alone keeps every other sender and channel as it was. */
  lemma OthersKept(s: State, t: State, d: nat)
    requires SendersOk(s) && d < |s.tx.chans| == |t.tx.chans| && t.tx.keys == s.tx.keys
    requires forall c :: 0 <= c < |s.tx.chans| && c != d ==> t.tx.chans[c] == s.tx.chans[c]
    requires t.owners == s.owners && t.envelopes == s.envelopes && ForwardOnly(s, t) && |t.senders| == |s.senders|
    requires ChanForward(s, t, d, AwaitingResponse)
    requires forall q :: 0 <= q < |s.senders| ==>
               || t.senders[q] == s.senders[q]
               || (t.senders[q] == s.senders[q].(pc := t.senders[q].pc) && !s.senders[q].pc.Returned?)
    ensures forall q :: 0 <= q < |t.senders| && t.senders[q] == s.senders[q] ==> SenderOk(t, q)
    ensures forall c :: 0 <= c < |t.tx.chans| && c != d ==> ChanOk(t, c)
  {
    forall q | 0 <= q < |t.senders| && t.senders[q] == s.senders[q] ensures SenderOk(t, q) {
      assert SenderOk(s, q);
      SenderFrame(s, t, q);
    }
    forall c | 0 <= c < |t.tx.chans| && c != d ensures ChanOk(t, c) {
      assert ChanOk(s, c);
      ChanFrame(s, t, c);
    }
  }

  lemma ReadKeepsSenders(s: State, key: T.Key, r: T.Response)
    requires SendersOk(s)
    ensures SendersOk(MessageRead(s, key, r))
  {
    var t := MessageRead(s, key, r);
    if T.CompleteError(s.tx, key).None? {
      var d := s.tx.pending[key];
      T.CompletedKeepsInv(s.tx, key, r);
      assert T.Pending(s.tx, d) && T.OneShot(s.tx.chans[d]);
      OthersKept(s, t, d);
      assert ChanOk(s, d);
      assert SenderOk(s, s.owners[d]);
      assert t.log[|s.log|] == Completion(key, r, d);
    }
  }

  /** Once a sender's deferred Cancel has run, its channel is closed. */
  lemma LeaveClosesChannel(s: State, p: nat)
    requires SendersOk(s) && Enabled(s, Leave(p))
    ensures s.senders[p].chan.Some? && s.senders[p].chan.value < |T.Cancelled(s.tx, s.senders[p].key.value).chans|
    ensures T.Cancelled(s.tx, s.senders[p].key.value).chans[s.senders[p].chan.value].closed
  {
    assert SenderOk(s, p);
    var c := s.senders[p].chan.value;
    assert !s.tx.chans[c].closed <==> T.Pending(s.tx, c);
  }

  /** The channel that is cancelled is the leaving sender's own, or the log says who cancelled it. */
  lemma LeaveKeepsChan(s: State, p: nat, d: nat)
    requires SendersOk(s) && Enabled(s, Leave(p)) && !s.tx.closed
    requires s.senders[p].key.value in s.tx.pending && s.tx.pending[s.senders[p].key.value] == d
    ensures |Left(s, p).owners| == |Left(s, p).tx.chans| && d < |Left(s, p).tx.chans| && ChanOk(Left(s, p), d)
  {
    var t := Left(s, p);
    assert T.Pending(s.tx, d) && T.OneShot(s.tx.chans[d]);
    assert ChanOk(s, d);
    assert SenderOk(s, s.owners[d]);
    assert t.log[|s.log|] == Cancellation(p, d);
  }

  /** The call that leaves returns the outcome it had, with its channel closed. */
  lemma LeaverOk(s: State, p: nat)
    requires SendersOk(s) && Enabled(s, Leave(p))
    ensures ForwardOnly(s, Left(s, p)) && SenderOk(Left(s, p), p)
  {
    var t := Left(s, p);
    assert SenderOk(s, p);
    LeaveClosesChannel(s, p);
    OutcomeFrame(s, t, p, t.senders[p], t.senders[p].pc.outcome);
  }

  lemma LeaveKeepsSenders(s: State, p: nat)
    requires SendersOk(s) && Enabled(s, Leave(p))
    ensures SendersOk(Left(s, p))
  {
    var key := s.senders[p].key.value;
    LeaverOk(s, p);
    if !s.tx.closed && key in s.tx.pending {
      LeaveHitKeepsSenders(s, p, s.tx.pending[key]);
    } else {
      MoveKeepsSenders(s, Left(s, p), p);
    }
  }

  /** The Cancel of the call that leaves finds channel d. */
  lemma LeaveHitKeepsSenders(s: State, p: nat, d: nat)
    requires SendersOk(s) && Enabled(s, Leave(p)) && !s.tx.closed
    requires s.senders[p].key.value in s.tx.pending && s.tx.pending[s.senders[p].key.value] == d
    requires ForwardOnly(s, Left(s, p)) && SenderOk(Left(s, p), p)
    ensures SendersOk(Left(s, p))
  {
    T.CancelledKeepsInv(s.tx, s.senders[p].key.value);
    assert T.Pending(s.tx, d) && T.OneShot(s.tx.chans[d]);
    OthersKept(s, Left(s, p), d);
    LeaveKeepsChan(s, p, d);
  }

  lemma CloseKeepsSenders(s: State)
    requires SendersOk(s) && Enabled(s, CloseTransactions)
    ensures SendersOk(Apply(s, CloseTransactions))
  {
    var t := Apply(s, CloseTransactions);
    T.ClosedKeepsInv(s.tx);
    forall q | 0 <= q < |t.senders| ensures SenderOk(t, q) {
      assert SenderOk(s, q);
      SenderFrame(s, t, q);
    }
    forall c | 0 <= c < |t.tx.chans| ensures ChanOk(t, c) {
      assert ChanOk(s, c);
    }
  }

  // ---------------------------------------------------------------- every run

  predicate IsSenderStep(step: Step) {
    step.Enter? || step.Register? || step.Enqueue? || step.TakeResult? || step.TakeResponse? || step.GiveUp?
    || step.SeeShutdown? || step.Leave?
  }

  lemma SenderStepKeepsInv(s: State, step: Step)
    requires Inv(s) && Enabled(s, step) && IsSenderStep(step)
    ensures Inv(Apply(s, step))
  {
    SenderStepKeepsSenders(s, step);
    if step.Enqueue? {
      EnqueueKeepsEnvelopes(s, step.p);
    } else if step.TakeResult? {
      TakeResultKeepsEnvelopes(s, step.p);
    } else {
      EnvelopesFrame(s, Apply(s, step));
    }
  }

  lemma SenderStepKeepsSenders(s: State, step: Step)
    requires Inv(s) && Enabled(s, step) && IsSenderStep(step)
    ensures SendersOk(Apply(s, step))
  {
    match step
    case Enter(p) => EnterKeepsSenders(s, p);
    case Register(p) => RegisterKeepsSenders(s, p);
    case Enqueue(p) => EnqueueKeepsSenders(s, p);
    case TakeResult(p) => TakeResultKeepsSenders(s, p);
    case TakeResponse(p) => TakeResponseKeepsSenders(s, p);
    case GiveUp(p) => DepartKeepsSenders(s, p, ContextDone);
    case SeeShutdown(p) => DepartKeepsSenders(s, p, DeviceClosed);
    case Leave(p) => LeaveKeepsSenders(s, p);
  }

  predicate IsPumpStep(step: Step) {
    step.PumpExit? || step.PumpTake? || step.PumpWrite? || step.PumpReport? || step.PumpComplete?
    || step.PumpDispatch? || step.PumpUnwind? || step.PumpDrain? || step.PumpDrop? || step.PumpStop?
  }

  lemma PumpStepKeepsEnvelopes(s: State, step: Step)
    requires EnvelopesOk(s) && Enabled(s, step) && IsPumpStep(step)
    ensures EnvelopesOk(Apply(s, step))
  {
    if step.PumpTake? || step.PumpDrain? {
      DequeueKeepsEnvelopes(s, step);
    } else if step.PumpWrite? || step.PumpReport? {
      WorkKeepsEnvelopes(s, step);
    } else if step.PumpComplete? {
      CompleteKeepsEnvelopes(s);
    } else if step.PumpDispatch? || step.PumpDrop? {
      DispatchKeepsEnvelopes(s, step);
    } else if step.PumpUnwind? && s.pump.last.Some? {
      UnwindKeepsEnvelopes(s);
    } else {
      IdleKeepsEnvelopes(s, step);
    }
  }

  lemma PumpStepKeepsInv(s: State, step: Step)
    requires Inv(s) && Enabled(s, step) && IsPumpStep(step)
    ensures Inv(Apply(s, step))
  {
    PumpStepKeepsEnvelopes(s, step);
    PumpMovesForward(s, step);
    QuietKeepsSenders(s, Apply(s, step));
  }

  /** The pump does not change the outcome of a write, or take back what it put into a completion channel. */
  lemma PumpMovesForward(s: State, step: Step)
    requires EnvelopesOk(s) && Enabled(s, step) && IsPumpStep(step)
    ensures forall e :: 0 <= e < |s.envelopes| ==> EnvelopeForward(s, Apply(s, step), e)
  {
    forall e | 0 <= e < |s.envelopes| ensures EnvelopeForward(s, Apply(s, step), e) {
      assert EnvelopeOk(s, e);
    }
  }

  lemma OtherStepKeepsInv(s: State, step: Step)
    requires Inv(s) && Enabled(s, step) && !IsSenderStep(step) && !IsPumpStep(step)
    ensures Inv(Apply(s, step))
  {
    var t := Apply(s, step);
    EnvelopesFrame(s, t);
    match step
    case Call(_) => QuietKeepsSenders(s, t);
    case ReadMessage(key, r) => ReadKeepsSenders(s, key, r);
    case SwapState => QuietKeepsSenders(s, t);
    case CloseShutdown => QuietKeepsSenders(s, t);
    case CloseTransactions => CloseKeepsSenders(s);
  }

  lemma StepKeepsInv(s: State, step: Step)
    requires Inv(s) && Enabled(s, step)
    ensures Inv(Apply(s, step))
  {
    if IsSenderStep(step) {
      SenderStepKeepsInv(s, step);
    } else if IsPumpStep(step) {
      PumpStepKeepsInv(s, step);
    } else {
      OtherStepKeepsInv(s, step);
    }
  }

  /** The invariant holds in every state of every interleaving. */
  lemma {:induction false} RunKeepsInv(run: seq<State>, steps: seq<Step>, i: nat)
    requires IsRun(run, steps) && i < |run|
    ensures Inv(run[i])
  {
    if i > 0 {
      RunKeepsInv(run, steps, i - 1);
      assert StepAt(run, steps, i - 1);
      NextOk(run[i - 1], steps[i - 1], run[i]);
    }
  }

  lemma NextOk(s: State, step: Step, t: State)
    requires Inv(s) && Enabled(s, step) && t == Apply(s, step)
    ensures Inv(t)
  {
    StepKeepsInv(s, step);
  }
}
