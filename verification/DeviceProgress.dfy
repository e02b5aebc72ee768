/** What comes of a call of Send: where its outcome is decided, and that results and responses reach it. */
module DeviceProgress {
  import opened Options
  import opened Channels
  import opened DeviceProtocol
  import opened DeviceProofs
  import T = Transactions

  // ---------------------------------------------------------------- where an outcome is decided

  function Decided(pc: Pc): Option<Outcome> {
    match pc
    case Leaving(o) => Some(o)
    case Returned(o) => Some(o)
    case _ => None
  }

  /** Why a key is refused, if it is. */
  function Refusal(tx: T.State, key: T.Key): Option<T.TxError> {
    if key == "" then Some(T.InvalidTransactionKey)
    else if tx.closed then Some(T.TransactionsClosed)
    else if key in tx.pending then Some(T.TransactionAlreadyRegistered)
    else None
  }

  /** Each outcome is decided by the one kind of step that calls for it. */
  ghost predicate CallsFor(s: State, step: Step, p: nat, o: Outcome) {
    && p < |s.senders|
    && match o
       case Sent => step == TakeResult(p) && s.senders[p].key.None?
       case Answered(_) => step == TakeResponse(p)
       case Failed(DeviceClosed) =>
         (step == Enter(p) && !s.stage.Open?) || (step == SeeShutdown(p) && ShutdownClosed(s))
       case Failed(ContextDone) => step == GiveUp(p)
       case Failed(TransactionRefused(err)) =>
         && step == Register(p) && s.senders[p].key.Some?
         && Refusal(s.tx, s.senders[p].key.value) == Some(err)
       case Failed(TransactionCancelled) => step == TakeResponse(p)
       case Failed(WriteBroken(_)) => step == TakeResult(p)
  }

  lemma DecidingStep(s: State, step: Step, p: nat)
    requires Enabled(s, step) && p < |s.senders| && SenderOk(s, p) && Decided(s.senders[p].pc).None?
    requires Decided(Apply(s, step).senders[p].pc).Some?
    ensures CallsFor(s, step, p, Decided(Apply(s, step).senders[p].pc).value)
  {
    MoverOf(s, step, p);
    OwnStepDecides(s, step, p);
  }

  lemma OwnStepDecides(s: State, step: Step, p: nat)
    requires Enabled(s, step) && IsSenderStep(step) && step.p == p
    requires SenderOk(s, p) && Decided(s.senders[p].pc).None? && Decided(Apply(s, step).senders[p].pc).Some?
    ensures CallsFor(s, step, p, Decided(Apply(s, step).senders[p].pc).value)
  {
  }

  /** Only its own steps move a call. */
  lemma MoverOf(s: State, step: Step, p: nat)
    requires Enabled(s, step) && p < |s.senders|
    ensures p < |Apply(s, step).senders|
    ensures Apply(s, step).senders[p] != s.senders[p] ==> IsSenderStep(step) && step.p == p
  {
  }

  lemma DecisionStays(s: State, step: Step, p: nat)
    requires Enabled(s, step) && p < |s.senders| && Decided(s.senders[p].pc).Some?
    ensures p < |Apply(s, step).senders| && Decided(Apply(s, step).senders[p].pc) == Decided(s.senders[p].pc)
  {
    MoverOf(s, step, p);
  }

  lemma NewCallIsUndecided(s: State, step: Step, p: nat)
    requires Enabled(s, step) && |s.senders| <= p < |Apply(s, step).senders|
    ensures Decided(Apply(s, step).senders[p].pc).None?
  {
  }

  /** In every interleaving the outcome of a call was decided, once, by a step that calls for it. */
  lemma {:induction false} OutcomeIsDecided(run: seq<State>, steps: seq<Step>, n: nat, p: nat) returns (i: nat)
    requires IsRun(run, steps) && n < |run| && p < |run[n].senders| && Decided(run[n].senders[p].pc).Some?
    ensures i < n && CallsFor(run[i], steps[i], p, Decided(run[n].senders[p].pc).value)
  {
    assert StepAt(run, steps, n - 1);
    var s, step := run[n - 1], steps[n - 1];
    if p >= |s.senders| {
      NewCallIsUndecided(s, step, p);
    } else if Decided(s.senders[p].pc).Some? {
      DecisionStays(s, step, p);
      i := OutcomeIsDecided(run, steps, n - 1, p);
    } else {
      RunKeepsInv(run, steps, n - 1);
      assert SenderOk(s, p);
      DecidingStep(s, step, p);
      i := n - 1;
    }
  }

  // ---------------------------------------------------------------- a closed device takes no calls

  lemma {:induction false} StaysClosed(run: seq<State>, steps: seq<Step>, i: nat, n: nat)
    requires IsRun(run, steps) && i <= n < |run| && !run[i].stage.Open?
    ensures !run[n].stage.Open?
    decreases n
  {
    if i < n {
      StaysClosed(run, steps, i, n - 1);
      assert StepAt(run, steps, n - 1);
      NoReopening(run[n - 1], steps[n - 1]);
    }
  }

  lemma NoReopening(s: State, step: Step)
    requires Enabled(s, step) && !s.stage.Open?
    ensures !Apply(s, step).stage.Open?
  {
  }

  lemma ReturnedStays(s: State, step: Step, p: nat)
    requires Enabled(s, step) && p < |s.senders| && s.senders[p].pc.Returned?
    ensures p < |Apply(s, step).senders| && Apply(s, step).senders[p] == s.senders[p]
  {
    MoverOf(s, step, p);
  }

  /** A call that enters after the close began returns at once: it registers nothing and puts nothing in the queue. */
  lemma {:induction false} ClosedTakesNoCalls(run: seq<State>, steps: seq<Step>, k: nat, i: nat, n: nat, p: nat)
    requires IsRun(run, steps) && k < i < n < |run| && steps[k] == SwapState && steps[i] == Enter(p)
    ensures p < |run[n].senders|
    ensures var x := run[n].senders[p]; x.pc == Returned(Failed(DeviceClosed)) && x.envelope.None? && x.chan.None?
    decreases n
  {
    assert StepAt(run, steps, n - 1);
    if i == n - 1 {
      assert StepAt(run, steps, k);
      StaysClosed(run, steps, k + 1, i);
      RunKeepsInv(run, steps, i);
      assert SenderOk(run[i], p);
    } else {
      ClosedTakesNoCalls(run, steps, k, i, n - 1, p);
      ReturnedStays(run[n - 1], steps[n - 1], p);
    }
  }

  // ---------------------------------------------------------------- the result of the write arrives

  /**
   A call that waits for its write gets the result: it can go on once its envelope is completed, and whenever it does it
   gets the very error of its own write, or goes on as after a success of its own write.
   */
  lemma ResultArrives(run: seq<State>, steps: seq<Step>, n: nat, p: nat)
    requires IsRun(run, steps) && n < |run| && At(run[n], p, AwaitingWrite)
    ensures run[n].senders[p].envelope.Some? && run[n].senders[p].envelope.value < |run[n].envelopes|
    ensures var s, v := run[n], run[n].envelopes[run[n].senders[p].envelope.value];
            && (v.fate.Completed? ==> Enabled(s, TakeResult(p)))
            && (Enabled(s, TakeResult(p)) ==>
                  && !v.io.Untried?
                  && var x := Apply(s, TakeResult(p)).senders[p];
                  if v.io.Broken? then Decided(x.pc) == Some(Failed(WriteBroken(v.io.error)))
                  else if x.key.None? then x.pc == Returned(Sent) else x.pc == AwaitingResponse)
  {
    RunKeepsInv(run, steps, n);
    assert SenderOk(run[n], p);
    assert EnvelopeOk(run[n], run[n].senders[p].envelope.value);
  }

  // ---------------------------------------------------------------- the response arrives

  /** A closed channel is touched by nothing but the receive of the call that registered it. */
  lemma ClosedChannelStays(s: State, step: Step, c: nat)
    requires SendersOk(s) && Enabled(s, step) && c < |s.tx.chans| && s.tx.chans[c].closed
    requires step != TakeResponse(s.owners[c])
    ensures var t := Apply(s, step);
            c < |t.tx.chans| && t.tx.chans[c] == s.tx.chans[c] && c < |t.owners| && t.owners[c] == s.owners[c]
  {
    if UsesTransactions(step) {
      assert !T.Pending(s.tx, c);
      if step.TakeResponse? {
        OthersReceiveElsewhere(s, step.p, c);
      } else {
        NotPendingStays(s, step, c);
      }
    } else {
      OthersKeepTransactions(s, step);
    }
  }

  lemma OthersReceiveElsewhere(s: State, q: nat, c: nat)
    requires SendersOk(s) && Enabled(s, TakeResponse(q)) && c < |s.tx.chans| && q != s.owners[c]
    ensures var t := Apply(s, TakeResponse(q));
            |t.tx.chans| == |s.tx.chans| && t.tx.chans[c] == s.tx.chans[c] && t.owners == s.owners
  {
    assert SenderOk(s, q) && s.owners[s.senders[q].chan.value] == q;
  }

  lemma NotPendingStays(s: State, step: Step, c: nat)
    requires T.Inv(s.tx) && |s.owners| == |s.tx.chans| && c < |s.tx.chans| && !T.Pending(s.tx, c)
    requires Enabled(s, step) && (step.Register? || step.Leave? || step.ReadMessage? || step.CloseTransactions?)
    ensures var t := Apply(s, step);
            c < |t.tx.chans| && t.tx.chans[c] == s.tx.chans[c] && c < |t.owners| && t.owners[c] == s.owners[c]
  {
    assert c !in s.tx.pending.Values;
  }

  predicate UsesTransactions(step: Step) {
    step.Register? || step.TakeResponse? || step.Leave? || step.ReadMessage? || step.CloseTransactions?
  }

  lemma OthersKeepTransactions(s: State, step: Step)
    requires Enabled(s, step) && !UsesTransactions(step)
    ensures Apply(s, step).tx == s.tx && Apply(s, step).owners == s.owners
  {
  }

  lemma {:induction false} ResponseStays(run: seq<State>, steps: seq<Step>, i: nat, n: nat, p: nat, c: nat)
    requires IsRun(run, steps) && i <= n < |run| && c < |run[i].tx.chans| && run[i].tx.chans[c].closed
    requires c < |run[i].owners| && run[i].owners[c] == p
    requires forall k :: i <= k < n ==> steps[k] != TakeResponse(p)
    ensures c < |run[n].tx.chans| && run[n].tx.chans[c] == run[i].tx.chans[c]
    ensures c < |run[n].owners| && run[n].owners[c] == p
    decreases n
  {
    if i < n {
      ResponseStays(run, steps, i, n - 1, p, c);
      ClosedChannelKept(run, steps, n - 1, c);
    }
  }

  lemma ClosedChannelKept(run: seq<State>, steps: seq<Step>, n: nat, c: nat)
    requires IsRun(run, steps) && n < |steps| && c < |run[n].tx.chans| && run[n].tx.chans[c].closed
    requires c < |run[n].owners| && steps[n] != TakeResponse(run[n].owners[c])
    ensures c < |run[n + 1].tx.chans| && run[n + 1].tx.chans[c] == run[n].tx.chans[c]
    ensures c < |run[n + 1].owners| && run[n + 1].owners[c] == run[n].owners[c]
  {
    RunKeepsInv(run, steps, n);
    assert StepAt(run, steps, n);
    ClosedChannelStays(run[n], steps[n], c);
  }

  /** The read pump hands the response over in one step. */
  lemma ResponseSits(s: State, p: nat, key: T.Key, r: T.Response)
    requires Inv(s) && key in s.tx.pending && p < |s.senders| && s.senders[p].chan == Some(s.tx.pending[key])
    ensures var t, c := Apply(s, ReadMessage(key, r)), s.tx.pending[key];
            && c < |t.tx.chans| && t.tx.chans[c].closed && t.tx.chans[c].buffer == [r]
            && c < |t.owners| && t.owners[c] == p
  {
    var c := s.tx.pending[key];
    assert T.Pending(s.tx, c) && T.OneShot(s.tx.chans[c]) && SenderOk(s, p);
  }

  /**
   A response read for a key while it is pending on a call's channel is the one that the call gets: from then on, once
   the call waits for its response, it can take it, and then leaves with just this response, whatever else happens.
   */
  lemma ResponseArrives(run: seq<State>, steps: seq<Step>, i: nat, n: nat, p: nat, key: T.Key, r: T.Response)
    requires IsRun(run, steps) && i < n < |run| && steps[i] == ReadMessage(key, r)
    requires key in run[i].tx.pending && p < |run[i].senders| && run[i].senders[p].chan == Some(run[i].tx.pending[key])
    requires At(run[n], p, AwaitingResponse)
    requires forall k :: i < k < n ==> steps[k] != TakeResponse(p)
    ensures Enabled(run[n], TakeResponse(p))
    ensures Apply(run[n], TakeResponse(p)).senders[p].pc == Leaving(Answered(r))
  {
    RunKeepsInv(run, steps, i);
    RunKeepsInv(run, steps, n);
    assert StepAt(run, steps, i);
    var c := run[i].tx.pending[key];
    ResponseSits(run[i], p, key, r);
    ResponseStays(run, steps, i + 1, n, p, c);
    assert ChanOk(run[n], c) && SenderOk(run[n], p);
  }

  // ---------------------------------------------------------------- nothing is left behind

  /** When the pump stops, every envelope put into the queue until then was completed or reported undeliverable. */
  lemma StoppedIsDrained(run: seq<State>, steps: seq<Step>, n: nat, e: nat)
    requires IsRun(run, steps) && n < |steps| && steps[n].PumpStop? && e < |run[n].envelopes|
    ensures run[n].envelopes[e].fate.Completed? || run[n].envelopes[e].fate.Undeliverable?
    ensures run[n].envelopes[e].events != []
  {
    RunKeepsInv(run, steps, n);
    assert StepAt(run, steps, n);
    assert EnvelopeOk(run[n], e);
  }

  /** The pump has left its loop, or is about to because a write broke. */
  predicate Leaves(pump: Pump) {
    || pump.Broke? || pump.Reported? || (pump.Finished? && !pump.ok)
    || pump.Exiting? || pump.Draining? || pump.Dropping? || pump.Stopped?
  }

  predicate MakesPumpLeave(step: Step) {
    step.PumpExit? || (step.PumpWrite? && step.error.Some?)
  }

  lemma LeavesNow(s: State, step: Step)
    requires Enabled(s, step) && !Leaves(s.pump) && Leaves(Apply(s, step).pump)
    ensures MakesPumpLeave(step)
  {
  }

  lemma {:induction false} WhyThePumpLeft(run: seq<State>, steps: seq<Step>, n: nat) returns (i: nat)
    requires IsRun(run, steps) && n < |run| && Leaves(run[n].pump)
    ensures i < n && MakesPumpLeave(steps[i])
  {
    assert StepAt(run, steps, n - 1);
    if Leaves(run[n - 1].pump) {
      i := WhyThePumpLeft(run, steps, n - 1);
    } else {
      LeavesNow(run[n - 1], steps[n - 1]);
      i := n - 1;
    }
  }

  lemma DroppedNow(s: State, step: Step, e: nat)
    requires Enabled(s, step) && e < |Apply(s, step).envelopes| && Apply(s, step).envelopes[e].fate.Undeliverable?
    ensures s.pump.Draining? || (e < |s.envelopes| && s.envelopes[e].fate.Undeliverable?)
  {
  }

  /** No envelope is dropped unless the pump left its loop before: for a shutdown, a failed ping or a broken write. */
  lemma {:induction false} DroppedOnlyAfterExit(run: seq<State>, steps: seq<Step>, n: nat, e: nat) returns (i: nat)
    requires IsRun(run, steps) && n < |run| && e < |run[n].envelopes| && run[n].envelopes[e].fate.Undeliverable?
    ensures i < n && MakesPumpLeave(steps[i])
  {
    assert StepAt(run, steps, n - 1);
    DroppedNow(run[n - 1], steps[n - 1], e);
    if run[n - 1].pump.Draining? {
      i := WhyThePumpLeft(run, steps, n - 1);
    } else {
      i := DroppedOnlyAfterExit(run, steps, n - 1, e);
    }
  }

  /** What the pump takes out of the queue in its loop it tries to write before anything else. */
  lemma {:induction false} TakenIsWritten(run: seq<State>, steps: seq<Step>, i: nat, n: nat, e: nat)
    requires IsRun(run, steps) && i < n < |steps| && steps[i].PumpTake? && run[i + 1].pump == Holding(e)
    requires IsPumpStep(steps[n]) && forall k :: i < k < n ==> !IsPumpStep(steps[k])
    ensures steps[n].PumpWrite? && run[n].pump == Holding(e)
  {
    StillHolding(run, steps, i + 1, n, e);
    assert StepAt(run, steps, n);
  }

  lemma {:induction false} StillHolding(run: seq<State>, steps: seq<Step>, i: nat, n: nat, e: nat)
    requires IsRun(run, steps) && i <= n < |run| && run[i].pump == Holding(e)
    requires forall k :: i <= k < n ==> !IsPumpStep(steps[k])
    ensures run[n].pump == Holding(e)
    decreases n
  {
    if i < n {
      StillHolding(run, steps, i, n - 1, e);
      assert StepAt(run, steps, n - 1);
      OthersKeepPump(run[n - 1], steps[n - 1]);
    }
  }

  lemma OthersKeepPump(s: State, step: Step)
    requires Enabled(s, step) && !IsPumpStep(step)
    ensures Apply(s, step).pump == s.pump
  {
  }
}
