/**
 One device as its goroutines see it: any number of callers of Send, the read pump, the write pump and the
 callers of requestClose, interleaved in any order.  A step is one lock-protected section, one channel
 operation, one atomic operation or one frame write.
 */
module DeviceProtocol {
  import opened Options
  import opened Channels
  import T = Transactions

  datatype IoError = IoError(code: nat)

  datatype Failure =
    | DeviceClosed
    | ContextDone
    | TransactionRefused(tx: T.TxError)
    | TransactionCancelled
    | WriteBroken(io: IoError)

  /** What Send returns: no response and no error, a response, or an error. */
  datatype Outcome = Sent | Answered(response: T.Response) | Failed(failure: Failure)

  datatype Pc =
    | Entering
    | Registering
    | Enqueueing
    | AwaitingWrite
    | AwaitingResponse
    | Leaving(outcome: Outcome)
    | Returned(outcome: Outcome)

  /**
   One call of Send.  `key` is the transaction key when the request is part of a transaction, `chan` what Register
   returned for it and `at` where the log has that registration.
   */
  datatype Sender = Sender(key: Option<T.Key>, chan: Option<T.ChanId>, at: nat, envelope: Option<nat>, pc: Pc)

  datatype Io = Untried | Written | Broken(error: IoError)
  datatype EventType = MessageSent | MessageFailed
  datatype Fate = Queued | Taken | Completed | Undeliverable

  datatype Envelope = Envelope(sender: nat, complete: Chan<IoError>, io: Io, events: seq<EventType>, fate: Fate)

  datatype Pump =
    | Looping
    | Holding(e: nat)
    | Wrote(e: nat)
    | Broke(e: nat)
    | Reported(e: nat)
    | Finished(e: nat, ok: bool)
    | Exiting(last: Option<nat>)
    | Draining
    | Dropping(e: nat)
    | Stopped

  /** How far the one successful requestClose has got. */
  datatype Stage = Open | Swapped | ShutDown | TxClosed

  datatype Event =
    | Registration(sender: nat, key: T.Key, chan: T.ChanId)
    | Completion(key: T.Key, response: T.Response, chan: T.ChanId)
    | Cancellation(sender: nat, chan: T.ChanId)

  /** `owners` (who registered each channel) and `log` are history: no step's effect depends on them. */
  datatype State = State(
    stage: Stage,
    tx: T.State,
    senders: seq<Sender>,
    envelopes: seq<Envelope>,
    queue: seq<nat>,
    queueSize: nat,
    pump: Pump,
    owners: seq<nat>,
    log: seq<Event>)

  function Init(queueSize: nat): State {
    State(Open, T.Empty, [], [], [], queueSize, Looping, [], [])
  }

  datatype Step =
    | Call(key: Option<T.Key>)
    | Enter(p: nat)
    | Register(p: nat)
    | Enqueue(p: nat)
    | TakeResult(p: nat)
    | TakeResponse(p: nat)
    | GiveUp(p: nat)
    | SeeShutdown(p: nat)
    | Leave(p: nat)
    | ReadMessage(txKey: T.Key, response: T.Response)
    | SwapState
    | CloseShutdown
    | CloseTransactions
    | PumpExit
    | PumpTake
    | PumpWrite(error: Option<IoError>)
    | PumpReport
    | PumpComplete
    | PumpDispatch
    | PumpUnwind
    | PumpDrain
    | PumpDrop
    | PumpStop

  // ---------------------------------------------------------------- which steps can be taken

  predicate At(s: State, p: nat, pc: Pc) {
    p < |s.senders| && s.senders[p].pc == pc
  }

  predicate InSelect(pc: Pc) {
    pc.Enqueueing? || pc.AwaitingWrite? || pc.AwaitingResponse?
  }

  predicate ShutdownClosed(s: State) {
    s.stage.ShutDown? || s.stage.TxClosed?
  }

  predicate Holds(pump: Pump, e: nat) {
    (pump.Holding? || pump.Wrote? || pump.Broke? || pump.Reported?) && pump.e == e
  }

  predicate Enabled(s: State, step: Step) {
    match step
    case Call(_) => true
    case Enter(p) => At(s, p, Entering)
    case Register(p) => At(s, p, Registering) && s.senders[p].key.Some?
    case Enqueue(p) => At(s, p, Enqueueing) && |s.queue| < s.queueSize
    case TakeResult(p) =>
      && At(s, p, AwaitingWrite) && s.senders[p].envelope.Some? && s.senders[p].envelope.value < |s.envelopes|
      && Ready(s.envelopes[s.senders[p].envelope.value].complete)
    case TakeResponse(p) =>
      && At(s, p, AwaitingResponse) && s.senders[p].chan.Some? && s.senders[p].chan.value < |s.tx.chans|
      && Ready(s.tx.chans[s.senders[p].chan.value])
    case GiveUp(p) => p < |s.senders| && InSelect(s.senders[p].pc)
    case SeeShutdown(p) => p < |s.senders| && InSelect(s.senders[p].pc) && ShutdownClosed(s)
    case Leave(p) => p < |s.senders| && s.senders[p].pc.Leaving? && s.senders[p].key.Some?
    case ReadMessage(_, _) => true
    case SwapState => s.stage.Open?
    case CloseShutdown => s.stage.Swapped?
    case CloseTransactions => s.stage.ShutDown?
    case PumpExit => s.pump.Looping?  // the shutdown channel was closed, or a ping failed
    case PumpTake => s.pump.Looping? && |s.queue| > 0 && s.queue[0] < |s.envelopes|
    case PumpWrite(_) => s.pump.Holding? && s.pump.e < |s.envelopes|
    case PumpReport => s.pump.Broke? && s.pump.e < |s.envelopes| && s.envelopes[s.pump.e].io.Broken?
    case PumpComplete => (s.pump.Wrote? || s.pump.Reported?) && s.pump.e < |s.envelopes|
    case PumpDispatch => s.pump.Finished? && s.pump.e < |s.envelopes|
    case PumpUnwind => s.pump.Exiting? && (s.pump.last.Some? ==> s.pump.last.value < |s.envelopes|)
    case PumpDrain => s.pump.Draining? && |s.queue| > 0 && s.queue[0] < |s.envelopes|
    case PumpDrop => s.pump.Dropping? && s.pump.e < |s.envelopes|
    case PumpStop => s.pump.Draining? && s.queue == []
  }

  // ---------------------------------------------------------------- what they do

  /** Leaving a select with an outcome: the deferred Cancel comes first when there is a transaction. */
  function Depart(x: Sender, o: Outcome): Sender {
    x.(pc := if x.key.Some? then Leaving(o) else Returned(o))
  }

  function SetSender(s: State, p: nat, x: Sender): State
    requires p < |s.senders|
  {
    s.(senders := s.senders[p := x])
  }

  function SetEnvelope(s: State, e: nat, v: Envelope): State
    requires e < |s.envelopes|
  {
    s.(envelopes := s.envelopes[e := v])
  }

  function Entered(s: State, p: nat): State
    requires p < |s.senders|
  {
    var x := s.senders[p];
    SetSender(s, p, x.(pc := if !s.stage.Open? then Returned(Failed(DeviceClosed))
                             else if x.key.Some? then Registering else Enqueueing))
  }

  function AfterRegister(s: State, p: nat): State
    requires p < |s.senders| && s.senders[p].key.Some?
  {
    var x := s.senders[p];
    var key := x.key.value;
    var error := T.RegisterError(s.tx, key);
    if error.Some? then SetSender(s, p, x.(pc := Returned(Failed(TransactionRefused(error.value)))))
    else
      var c := |s.tx.chans|;
      SetSender(s, p, x.(pc := Enqueueing, chan := Some(c), at := |s.log|))
        .(tx := T.Registered(s.tx, key), owners := s.owners + [p], log := s.log + [Registration(p, key, c)])
  }

  function Enqueued(s: State, p: nat): State
    requires p < |s.senders|
  {
    var e := |s.envelopes|;
    SetSender(s, p, s.senders[p].(pc := AwaitingWrite, envelope := Some(e)))
      .(envelopes := s.envelopes + [Envelope(p, Make(1), Untried, [], Queued)], queue := s.queue + [e])
  }

  function ResultTaken(s: State, p: nat): State
    requires Enabled(s, TakeResult(p))
  {
    var x := s.senders[p];
    var e := x.envelope.value;
    var v := s.envelopes[e];
    var error := Front(v.complete);
    SetEnvelope(SetSender(s, p,
        if error.Some? then Depart(x, Failed(WriteBroken(error.value)))
        else if x.chan.None? then Depart(x, Sent)
        else x.(pc := AwaitingResponse)),
      e, v.(complete := Take(v.complete)))
  }

  function ResponseTaken(s: State, p: nat): State
    requires Enabled(s, TakeResponse(p))
  {
    var x := s.senders[p];
    var c := x.chan.value;
    var response := Front(s.tx.chans[c]);
    SetSender(s, p, Depart(x, if response.Some? then Answered(response.value) else Failed(TransactionCancelled)))
      .(tx := T.Received(s.tx, c))
  }

  function Left(s: State, p: nat): State
    requires Enabled(s, Leave(p))
  {
    var x := s.senders[p];
    var key := x.key.value;
    var hit := !s.tx.closed && key in s.tx.pending;
    SetSender(s, p, x.(pc := Returned(x.pc.outcome)))
      .(tx := T.Cancelled(s.tx, key),
        log := if hit then s.log + [Cancellation(p, s.tx.pending[key])] else s.log)
  }

  function MessageRead(s: State, key: T.Key, r: T.Response): State {
    if T.CompleteError(s.tx, key).Some? then s
    else s.(tx := T.Completed(s.tx, key, r), log := s.log + [Completion(key, r, s.tx.pending[key])])
  }

  function WriteTried(s: State, error: Option<IoError>): State
    requires Enabled(s, PumpWrite(error))
  {
    var e := s.pump.e;
    SetEnvelope(s, e, s.envelopes[e].(io := if error.Some? then Broken(error.value) else Written))
      .(pump := if error.Some? then Broke(e) else Wrote(e))
  }

  function Apply(s: State, step: Step): State
    requires Enabled(s, step)
  {
    match step
    case Call(key) => s.(senders := s.senders + [Sender(key, None, 0, None, Entering)])
    case Enter(p) => Entered(s, p)
    case Register(p) => AfterRegister(s, p)
    case Enqueue(p) => Enqueued(s, p)
    case TakeResult(p) => ResultTaken(s, p)
    case TakeResponse(p) => ResponseTaken(s, p)
    case GiveUp(p) => SetSender(s, p, Depart(s.senders[p], Failed(ContextDone)))
    case SeeShutdown(p) => SetSender(s, p, Depart(s.senders[p], Failed(DeviceClosed)))
    case Leave(p) => Left(s, p)
    case ReadMessage(key, r) => MessageRead(s, key, r)
    case SwapState => s.(stage := Swapped)
    case CloseShutdown => s.(stage := ShutDown)
    case CloseTransactions => s.(stage := TxClosed, tx := T.Closed(s.tx))
    case PumpExit => s.(pump := Exiting(None))
    case PumpTake =>
      var e := s.queue[0];
      SetEnvelope(s, e, s.envelopes[e].(fate := Taken)).(queue := s.queue[1..], pump := Holding(e))
    case PumpWrite(error) => WriteTried(s, error)
    case PumpReport =>
      var v := s.envelopes[s.pump.e];
      SetEnvelope(s, s.pump.e, v.(complete := Put(v.complete, v.io.error))).(pump := Reported(s.pump.e))
    case PumpComplete =>
      var v := s.envelopes[s.pump.e];
      SetEnvelope(s, s.pump.e, v.(complete := Shut(v.complete), fate := Completed))
        .(pump := Finished(s.pump.e, s.pump.Wrote?))
    case PumpDispatch =>
      var v := s.envelopes[s.pump.e];
      SetEnvelope(s, s.pump.e, v.(events := v.events + [if s.pump.ok then MessageSent else MessageFailed]))
        .(pump := if s.pump.ok then Looping else Exiting(Some(s.pump.e)))
    case PumpUnwind =>
      if s.pump.last.None? then s.(pump := Draining)
      else
        var v := s.envelopes[s.pump.last.value];
        SetEnvelope(s, s.pump.last.value, v.(events := v.events + [MessageFailed])).(pump := Draining)
    case PumpDrain =>
      var e := s.queue[0];
      SetEnvelope(s, e, s.envelopes[e].(fate := Undeliverable)).(queue := s.queue[1..], pump := Dropping(e))
    case PumpDrop =>
      var v := s.envelopes[s.pump.e];
      SetEnvelope(s, s.pump.e, v.(events := v.events + [MessageFailed])).(pump := Draining)
    case PumpStop => s.(pump := Stopped)
  }

  /** Step number i of a run: it could be taken, and it led to the next state. */
  ghost predicate StepAt(run: seq<State>, steps: seq<Step>, i: nat) {
    i < |steps| && i + 1 < |run| && Enabled(run[i], steps[i]) && run[i + 1] == Apply(run[i], steps[i])
  }

  /** Every finite interleaving from a new device. */
  ghost predicate IsRun(run: seq<State>, steps: seq<Step>) {
    && |run| == |steps| + 1
    && run[0] == Init(run[0].queueSize)
    && (forall i: nat :: i < |steps| ==> StepAt(run, steps, i))
  }

  lemma LongerRun(run: seq<State>, steps: seq<Step>, step: Step)
    requires IsRun(run, steps) && Enabled(run[|steps|], step)
    ensures IsRun(run + [Apply(run[|steps|], step)], steps + [step])
  {
    var run', steps' := run + [Apply(run[|steps|], step)], steps + [step];
    forall i: nat | i < |steps'| ensures StepAt(run', steps', i) {
      if i < |steps| {
        assert StepAt(run, steps, i);
        assert run'[i] == run[i] && steps'[i] == steps[i] && run'[i + 1] == run[i + 1];
      } else {
        assert run'[i] == run[i] && steps'[i] == step && run'[i + 1] == Apply(run[i], step);
      }
    }
  }

  // ---------------------------------------------------------------- the invariant: envelopes and write pump

  /** The events an envelope has had, given where the pump is. */
  predicate EventsOk(pump: Pump, e: nat, v: Envelope) {
    match v.fate
    case Queued => v.events == []
    case Taken => v.events == []
    case Completed =>
      if v.io.Written? then v.events == (if pump == Finished(e, true) then [] else [MessageSent])
      else if pump == Finished(e, false) then v.events == []
      else if pump == Exiting(Some(e)) then v.events == [MessageFailed]
      else v.events == [MessageFailed, MessageFailed]
    case Undeliverable => v.events == if pump == Dropping(e) then [] else [MessageFailed]
  }

  predicate CompleteOk(pump: Pump, v: Envelope) {
    var c := v.complete;
    && c.cap == 1 && c.faults == 0
    && match v.fate
       case Queued => c == Make(1) && v.io.Untried?
       case Undeliverable => c == Make(1) && v.io.Untried?
       case Taken =>
         if pump.Holding? then c == Make(1) && v.io.Untried?
         else if pump.Wrote? then c == Make(1) && v.io.Written?
         else if pump.Broke? then c == Make(1) && v.io.Broken?
         else !c.closed && v.io.Broken? && c.sends == 1 && (c.buffer == [] || c.buffer == [v.io.error])
       case Completed =>
         && c.closed
         && (v.io.Written? ==> c.sends == 0 && c.buffer == [])
         && (v.io.Broken? ==> c.sends == 1 && (c.buffer == [] || c.buffer == [v.io.error]))
         && !v.io.Untried?
  }

  ghost predicate EnvelopeOk(s: State, e: nat)
    requires e < |s.envelopes|
  {
    var v := s.envelopes[e];
    && v.sender < |s.senders| && s.senders[v.sender].envelope == Some(e)
    && CompleteOk(s.pump, v) && EventsOk(s.pump, e, v)
    && (v.fate == Queued <==> e in s.queue)
    && (v.fate == Taken <==> Holds(s.pump, e))
  }

  ghost predicate PumpOk(s: State) {
    && (s.pump.Holding? || s.pump.Wrote? || s.pump.Broke? || s.pump.Reported? || s.pump.Dropping? || s.pump.Finished?
        ==> s.pump.e < |s.envelopes|)
    && (s.pump.Dropping? ==> s.envelopes[s.pump.e].fate == Undeliverable)
    && (s.pump.Finished? ==>
          s.envelopes[s.pump.e].fate == Completed && (s.pump.ok <==> s.envelopes[s.pump.e].io.Written?))
    && (s.pump.Exiting? && s.pump.last.Some? ==>
          s.pump.last.value < |s.envelopes| && s.envelopes[s.pump.last.value].fate == Completed
          && s.envelopes[s.pump.last.value].io.Broken?)
  }

  ghost predicate QueueOk(s: State) {
    && |s.queue| <= s.queueSize
    && (forall i :: 0 <= i < |s.queue| ==> s.queue[i] < |s.envelopes|)
    && (forall i, j :: 0 <= i < j < |s.queue| ==> s.queue[i] != s.queue[j])
  }

  ghost predicate EnvelopesOk(s: State) {
    && (forall e :: 0 <= e < |s.envelopes| ==> EnvelopeOk(s, e))
    && PumpOk(s) && QueueOk(s)
  }

  // ---------------------------------------------------------------- the invariant: senders and transactions

  predicate WasWritten(s: State, x: Sender) {
    x.envelope.Some? && x.envelope.value < |s.envelopes| && s.envelopes[x.envelope.value].io.Written?
  }

  /** The log has, after the registration at `at`, a Complete call that delivered r to channel c. */
  ghost predicate Delivered(log: seq<Event>, at: nat, key: T.Key, r: T.Response, c: T.ChanId) {
    exists j :: at < j < |log| && log[j] == Completion(key, r, c)
  }

  /** Some other call of Send with this key cancelled channel c on its way out. */
  ghost predicate CancelledByOther(s: State, p: nat, key: T.Key, c: T.ChanId) {
    exists j :: 0 <= j < |s.log| && s.log[j].Cancellation? && s.log[j].chan == c
      && s.log[j].sender != p && s.log[j].sender < |s.senders| && s.senders[s.log[j].sender].key == Some(key)
  }

  ghost predicate OutcomeOk(s: State, p: nat, x: Sender, o: Outcome) {
    match o
    case Sent => x.key.None? && WasWritten(s, x)
    case Answered(r) =>
      WasWritten(s, x) && x.key.Some? && x.chan.Some? && Delivered(s.log, x.at, x.key.value, r, x.chan.value)
    case Failed(DeviceClosed) => !s.stage.Open?
    case Failed(TransactionCancelled) =>
      && WasWritten(s, x) && x.key.Some? && x.chan.Some?
      && (s.stage.TxClosed? || CancelledByOther(s, p, x.key.value, x.chan.value))
    case Failed(WriteBroken(err)) =>
      x.envelope.Some? && x.envelope.value < |s.envelopes| && s.envelopes[x.envelope.value].io == Broken(err)
    case Failed(_) => true
  }

  /** The registration the sender holds is the one the log has for it. */
  ghost predicate RegistrationOk(s: State, p: nat, x: Sender) {
    x.chan.Some? ==>
      && x.key.Some? && x.chan.value < |s.tx.chans| && |s.tx.keys| == |s.tx.chans|
      && s.tx.keys[x.chan.value] == x.key.value
      && x.at < |s.log| && s.log[x.at] == Registration(p, x.key.value, x.chan.value)
  }

  ghost predicate SenderOk(s: State, p: nat)
    requires p < |s.senders|
  {
    var x := s.senders[p];
    && RegistrationOk(s, p, x)
    && (x.envelope.Some? ==> x.envelope.value < |s.envelopes| && s.envelopes[x.envelope.value].sender == p)
    && match x.pc
       case Entering => x.chan.None? && x.envelope.None?
       case Registering => x.key.Some? && x.chan.None? && x.envelope.None?
       case Enqueueing => (x.key.Some? <==> x.chan.Some?) && x.envelope.None? && Untouched(s, x)
       case AwaitingWrite => (x.key.Some? <==> x.chan.Some?) && x.envelope.Some? && Unread(s, x) && Untouched(s, x)
       case AwaitingResponse => x.key.Some? && x.chan.Some? && WasWritten(s, x) && Untouched(s, x)
       case Leaving(o) => x.key.Some? && x.chan.Some? && OutcomeOk(s, p, x, o)
       case Returned(o) => OutcomeOk(s, p, x, o) && (x.chan.Some? ==> s.tx.chans[x.chan.value].closed)
  }

  /** Nothing has been received yet from the sender's completion channel. */
  predicate Unread(s: State, x: Sender) {
    x.envelope.Some? && x.envelope.value < |s.envelopes| &&
    var c := s.envelopes[x.envelope.value].complete; |c.buffer| == c.sends
  }

  /** Nothing has been received yet from the sender's response channel. */
  predicate Untouched(s: State, x: Sender) {
    x.chan.Some? ==> x.chan.value < |s.tx.chans| && |s.tx.chans[x.chan.value].buffer| == s.tx.chans[x.chan.value].sends
  }

  /** Channel c belongs to its registrant, and what happened to it is in the log. */
  ghost predicate ChanOk(s: State, c: nat)
    requires c < |s.tx.chans| && |s.owners| == |s.tx.chans|
  {
    var p := s.owners[c];
    && p < |s.senders| && s.senders[p].chan == Some(c) && s.senders[p].key.Some?
    && (forall r :: r in s.tx.chans[c].buffer ==> Delivered(s.log, s.senders[p].at, s.senders[p].key.value, r, c))
    && (s.tx.chans[c].closed && s.tx.chans[c].sends == 0 ==>
          || s.stage.TxClosed? || s.senders[p].pc.Returned?
          || CancelledByOther(s, p, s.senders[p].key.value, c))
  }

  ghost predicate SendersOk(s: State) {
    && T.Inv(s.tx) && |s.owners| == |s.tx.chans|
    && (s.tx.closed <==> s.stage.TxClosed?)
    && (forall p :: 0 <= p < |s.senders| ==> SenderOk(s, p))
    && (forall p :: 0 <= p < |s.senders| && s.senders[p].chan.Some? ==>
          s.senders[p].chan.value < |s.owners| && s.owners[s.senders[p].chan.value] == p)
    && (forall c :: 0 <= c < |s.tx.chans| ==> ChanOk(s, c))
  }

  ghost predicate Inv(s: State) {
    EnvelopesOk(s) && SendersOk(s)
  }
}
