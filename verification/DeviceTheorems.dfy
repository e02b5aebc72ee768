/** The promises of Send and of the write pump, read off the steps of an arbitrary run. */
module DeviceTheorems {
  import opened Options
  import opened DeviceProtocol
  import opened DeviceProofs
  import opened Counting
  import T = Transactions

  // ---------------------------------------------------------------- history is what the steps did

  /** The step that was taken in s when the log got this entry. */
  ghost predicate Explains(s: State, step: Step, event: Event) {
    match event
    case Registration(p, key, c) =>
      step == Register(p) && p < |s.senders| && s.senders[p].key == Some(key) && c == |s.tx.chans|
    case Completion(key, r, c) => step == ReadMessage(key, r) && key in s.tx.pending && s.tx.pending[key] == c
    case Cancellation(p, c) =>
      step == Leave(p) && p < |s.senders| && s.senders[p].key.Some?
      && s.senders[p].key.value in s.tx.pending && s.tx.pending[s.senders[p].key.value] == c
  }

  lemma StepLogs(s: State, step: Step)
    requires Enabled(s, step)
    ensures var t := Apply(s, step);
            t.log == s.log || (|t.log| == |s.log| + 1 && t.log[..|s.log|] == s.log && Explains(s, step, t.log[|s.log|]))
  {
  }

  lemma {:induction false} LogEntry(run: seq<State>, steps: seq<Step>, n: nat, j: nat) returns (i: nat)
    requires IsRun(run, steps) && n < |run| && j < |run[n].log|
    ensures i < n && |run[i].log| == j && |run[i + 1].log| == j + 1 && Explains(run[i], steps[i], run[n].log[j])
  {
    assert StepAt(run, steps, n - 1);
    StepLogs(run[n - 1], steps[n - 1]);
    if j < |run[n - 1].log| {
      i := LogEntry(run, steps, n - 1, j);
    } else {
      i := n - 1;
    }
  }

  lemma {:induction false} LogGrows(run: seq<State>, steps: seq<Step>, i: nat, k: nat)
    requires IsRun(run, steps) && i <= k < |run|
    ensures |run[i].log| <= |run[k].log|
    decreases k - i
  {
    if i < k {
      assert StepAt(run, steps, i);
      StepLogs(run[i], steps[i]);
      LogGrows(run, steps, i + 1, k);
    }
  }

  /** Only the pump's write gives an envelope its outcome. */
  lemma {:induction false} WriteHappened(run: seq<State>, steps: seq<Step>, n: nat, e: nat) returns (i: nat)
    requires IsRun(run, steps) && n < |run| && e < |run[n].envelopes| && !run[n].envelopes[e].io.Untried?
    ensures i < n && run[i].pump == Holding(e)
    ensures steps[i] == PumpWrite(if run[n].envelopes[e].io.Written? then None else Some(run[n].envelopes[e].io.error))
  {
    assert StepAt(run, steps, n - 1);
    var now := WrittenNow(run[n - 1], steps[n - 1], e);
    if now {
      i := n - 1;
    } else {
      i := WriteHappened(run, steps, n - 1, e);
    }
  }

  /** An envelope with an outcome had it before the step, or the step is its write. */
  lemma WrittenNow(s: State, step: Step, e: nat) returns (now: bool)
    requires Enabled(s, step) && e < |Apply(s, step).envelopes| && !Apply(s, step).envelopes[e].io.Untried?
    ensures var io := Apply(s, step).envelopes[e].io;
            if now then s.pump == Holding(e) && step == PumpWrite(if io.Written? then None else Some(io.error))
            else e < |s.envelopes| && s.envelopes[e].io == io
  {
    OnlyWritesDecide(s, step, e);
    now := !(e < |s.envelopes| && s.envelopes[e].io == Apply(s, step).envelopes[e].io);
  }

  lemma OnlyWritesDecide(s: State, step: Step, e: nat)
    requires Enabled(s, step) && e < |Apply(s, step).envelopes|
    ensures var io := Apply(s, step).envelopes[e].io;
            !io.Untried? && (e < |s.envelopes| ==> s.envelopes[e].io != io) ==>
              s.pump == Holding(e) && step == PumpWrite(if io.Written? then None else Some(io.error))
  {
    if !step.PumpWrite? {
      OthersDoNotWrite(s, step, e);
    }
  }

  lemma OthersDoNotWrite(s: State, step: Step, e: nat)
    requires Enabled(s, step) && !step.PumpWrite? && e < |Apply(s, step).envelopes|
    ensures Apply(s, step).envelopes[e].io == if e < |s.envelopes| then s.envelopes[e].io else Untried
  {
    assert step.Enqueue? || |Apply(s, step).envelopes| == |s.envelopes|;
  }

  // ---------------------------------------------------------------- Send

  /**
   A response that Send returns was handed to Complete by the read pump, under Send's own key and while that key
   was pending on Send's own channel, after Send's own Register; and the request's frame was written before.
   */
  lemma AnsweredSend(run: seq<State>, steps: seq<Step>, n: nat, p: nat)
    requires IsRun(run, steps) && n < |run| && p < |run[n].senders|
    requires run[n].senders[p].pc.Returned? && run[n].senders[p].pc.outcome.Answered?
    ensures var x := run[n].senders[p];
            && x.key.Some? && x.chan.Some? && x.envelope.Some?
            && exists a, j, w :: 0 <= a < j < n && 0 <= w < n
                 && steps[a] == Register(p) && |run[a].tx.chans| == x.chan.value
                 && steps[j] == ReadMessage(x.key.value, x.pc.outcome.response)
                 && x.key.value in run[j].tx.pending && run[j].tx.pending[x.key.value] == x.chan.value
                 && steps[w] == PumpWrite(None) && run[w].pump == Holding(x.envelope.value)
  {
    RunKeepsInv(run, steps, n);
    assert SenderOk(run[n], p);
    var x := run[n].senders[p];
    var r := x.pc.outcome.response;
    var k :| x.at < k < |run[n].log| && run[n].log[k] == Completion(x.key.value, r, x.chan.value);
    var a := LogEntry(run, steps, n, x.at);
    var j := LogEntry(run, steps, n, k);
    if j <= a {
      LogGrows(run, steps, j, a);
      assert false;
    }
    var w := WriteHappened(run, steps, n, x.envelope.value);
  }

  /** Two calls of Send are never answered by the same call of Complete. */
  lemma DistinctAnswers(run: seq<State>, steps: seq<Step>, n: nat, p: nat, q: nat, i: nat, j: nat)
    requires IsRun(run, steps) && n < |run| && p < |run[n].senders| && q < |run[n].senders| && p != q
    requires i < n && j < n
    requires forall y :: y == p || y == q ==>
               run[n].senders[y].pc.Returned? && run[n].senders[y].pc.outcome.Answered? && run[n].senders[y].key.Some?
    requires var x := run[n].senders[p];
             steps[i] == ReadMessage(x.key.value, x.pc.outcome.response) && x.key.value in run[i].tx.pending
             && x.chan == Some(run[i].tx.pending[x.key.value])
    requires var y := run[n].senders[q];
             steps[j] == ReadMessage(y.key.value, y.pc.outcome.response) && y.key.value in run[j].tx.pending
             && y.chan == Some(run[j].tx.pending[y.key.value])
    ensures i != j
  {
    RunKeepsInv(run, steps, n);
    assert SenderOk(run[n], p) && SenderOk(run[n], q);
  }

  /** When Send returns, its transaction is not pending any more, under its key or any other. */
  lemma ReturnedIsNotPending(run: seq<State>, steps: seq<Step>, n: nat, p: nat)
    requires IsRun(run, steps) && n < |run| && p < |run[n].senders|
    requires run[n].senders[p].pc.Returned? && run[n].senders[p].chan.Some?
    ensures run[n].senders[p].chan.value !in run[n].tx.pending.Values
  {
    RunKeepsInv(run, steps, n);
    assert SenderOk(run[n], p);
    T.PendingAreValues(run[n].tx);
  }

  /** Send reports success, with or without a response, only for a frame that was written. */
  lemma SuccessMeansWritten(run: seq<State>, steps: seq<Step>, n: nat, p: nat)
    requires IsRun(run, steps) && n < |run| && p < |run[n].senders| && run[n].senders[p].pc.Returned?
    requires !run[n].senders[p].pc.outcome.Failed?
    ensures run[n].senders[p].envelope.Some?
    ensures exists w :: 0 <= w < n && steps[w] == PumpWrite(None)
                        && run[w].pump == Holding(run[n].senders[p].envelope.value)
  {
    RunKeepsInv(run, steps, n);
    assert SenderOk(run[n], p);
    var w := WriteHappened(run, steps, n, run[n].senders[p].envelope.value);
  }

  /** A write error that Send reports is the one the write pump got for this very envelope. */
  lemma WriteErrorIsGenuine(run: seq<State>, steps: seq<Step>, n: nat, p: nat)
    requires IsRun(run, steps) && n < |run| && p < |run[n].senders| && run[n].senders[p].pc.Returned?
    requires run[n].senders[p].pc.outcome.Failed? && run[n].senders[p].pc.outcome.failure.WriteBroken?
    ensures run[n].senders[p].envelope.Some?
    ensures exists w :: 0 <= w < n && run[w].pump == Holding(run[n].senders[p].envelope.value)
                        && steps[w] == PumpWrite(Some(run[n].senders[p].pc.outcome.failure.io))
  {
    RunKeepsInv(run, steps, n);
    assert SenderOk(run[n], p);
    var w := WriteHappened(run, steps, n, run[n].senders[p].envelope.value);
  }

  /** Send says the device is closed only after requestClose has begun. */
  lemma ClosedIsGenuine(run: seq<State>, steps: seq<Step>, n: nat, p: nat)
    requires IsRun(run, steps) && n < |run| && p < |run[n].senders|
    requires run[n].senders[p].pc == Returned(Failed(DeviceClosed))
    ensures exists i :: 0 <= i < n && steps[i] == SwapState
  {
    RunKeepsInv(run, steps, n);
    assert SenderOk(run[n], p);
    var i := Closing(run, steps, n);
  }

  lemma {:induction false} Closing(run: seq<State>, steps: seq<Step>, n: nat) returns (i: nat)
    requires IsRun(run, steps) && n < |run| && !run[n].stage.Open?
    ensures i < n && steps[i] == SwapState
  {
    assert StepAt(run, steps, n - 1);
    if run[n - 1].stage.Open? {
      i := n - 1;
    } else {
      i := Closing(run, steps, n - 1);
    }
  }

  /**
   A waiting Send is told that its transaction was cancelled only because the device closed its transactions, or
   because another Send that used the same key left after this one had registered it.
   */
  lemma CancelledSend(run: seq<State>, steps: seq<Step>, n: nat, p: nat)
    requires IsRun(run, steps) && n < |run| && p < |run[n].senders|
    requires run[n].senders[p].pc == Returned(Failed(TransactionCancelled))
    ensures run[n].senders[p].key.Some? && run[n].senders[p].chan.Some?
    ensures run[n].stage.TxClosed? ||
            exists i, q: nat :: 0 <= i < n && q != p && q < |run[n].senders| && steps[i] == Leave(q)
              && run[n].senders[q].key == run[n].senders[p].key
              && run[n].senders[p].key.value in run[i].tx.pending
              && run[i].tx.pending[run[n].senders[p].key.value] == run[n].senders[p].chan.value
  {
    RunKeepsInv(run, steps, n);
    var s := run[n];
    var x := s.senders[p];
    assert SenderOk(s, p);
    if !s.stage.TxClosed? {
      var k :| 0 <= k < |s.log| && s.log[k].Cancellation? && s.log[k].chan == x.chan.value
        && s.log[k].sender != p && s.log[k].sender < |s.senders| && s.senders[s.log[k].sender].key == x.key;
      var i := LogEntry(run, steps, n, k);
      KeysStay(run, steps, i, n, s.log[k].sender);
    }
  }

  lemma {:induction false} KeysStay(run: seq<State>, steps: seq<Step>, i: nat, n: nat, p: nat)
    requires IsRun(run, steps) && i <= n < |run| && p < |run[i].senders|
    ensures p < |run[n].senders| && run[n].senders[p].key == run[i].senders[p].key
    decreases n - i
  {
    if i < n {
      assert StepAt(run, steps, i);
      KeysStay(run, steps, i + 1, n, p);
    }
  }

  /** So when no two calls share a key, an open device never cancels a transaction behind its caller's back. */
  lemma UniqueKeysAreNotCancelled(run: seq<State>, steps: seq<Step>, n: nat, p: nat)
    requires IsRun(run, steps) && n < |run| && p < |run[n].senders|
    requires forall q :: 0 <= q < |run[n].senders| && q != p && run[n].senders[q].key.Some? ==>
               run[n].senders[q].key != run[n].senders[p].key
    requires run[n].senders[p].pc == Returned(Failed(TransactionCancelled))
    ensures run[n].stage.TxClosed?
  {
    CancelledSend(run, steps, n, p);
  }

  // ---------------------------------------------------------------- no Send hangs on a closed device

  /** How many steps of its own a call still needs at most. */
  function Rank(pc: Pc): nat {
    match pc
    case Entering => 4
    case Registering => 3
    case Enqueueing => 2
    case AwaitingWrite => 2
    case AwaitingResponse => 2
    case Leaving(_) => 1
    case Returned(_) => 0
  }

  function WayOut(p: nat, pc: Pc): Step {
    match pc
    case Entering => Enter(p)
    case Registering => Register(p)
    case Leaving(_) => Leave(p)
    case _ => SeeShutdown(p)
  }

  ghost predicate Leads(s: State, steps: seq<Step>, t: State)
    decreases |steps|
  {
    if steps == [] then s == t
    else Enabled(s, steps[0]) && Leads(Apply(s, steps[0]), steps[1..], t)
  }

  lemma NearerReturn(s: State, p: nat)
    requires Inv(s) && ShutdownClosed(s) && p < |s.senders| && !s.senders[p].pc.Returned?
    ensures var step := WayOut(p, s.senders[p].pc);
            && IsSenderStep(step) && step.p == p && Enabled(s, step)
            && ShutdownClosed(Apply(s, step)) && p < |Apply(s, step).senders|
            && Rank(Apply(s, step).senders[p].pc) < Rank(s.senders[p].pc)
  {
    assert SenderOk(s, p);
  }

  /** Once the shutdown channel is closed, every call can return by at most Rank steps of its own. */
  lemma {:induction false} CanReturn(s: State, p: nat) returns (steps: seq<Step>, t: State)
    requires Inv(s) && ShutdownClosed(s) && p < |s.senders|
    ensures |steps| <= Rank(s.senders[p].pc) && Leads(s, steps, t)
    ensures forall i :: 0 <= i < |steps| ==> IsSenderStep(steps[i]) && steps[i].p == p
    ensures p < |t.senders| && t.senders[p].pc.Returned?
    decreases Rank(s.senders[p].pc)
  {
    var pc := s.senders[p].pc;
    if pc.Returned? {
      steps, t := [], s;
    } else {
      var step := WayOut(p, pc);
      NearerReturn(s, p);
      SenderStepKeepsInv(s, step);
      var rest;
      rest, t := CanReturn(Apply(s, step), p);
      steps := [step] + rest;
      assert steps[1..] == rest;
    }
  }

  // ---------------------------------------------------------------- the write pump

  /**
   What the listeners and the caller learn about one envelope: its completion channel is used within the rules and
   gets at most one error, which is the write's; it never gets both MessageSent and MessageFailed; MessageSent means
   it was written, and MessageFailed that it was not; and it gets MessageFailed twice exactly when its write failed and
   the pump has got past its own event and past the deferred one.
   */
  lemma EnvelopeOutcome(run: seq<State>, steps: seq<Step>, n: nat, e: nat)
    requires IsRun(run, steps) && n < |run| && e < |run[n].envelopes|
    ensures var v := run[n].envelopes[e];
            && v.complete.faults == 0 && v.complete.sends <= 1
            && (forall err :: err in v.complete.buffer ==> v.io == Broken(err))
            && (MessageSent in v.events ==> v.io.Written? && MessageFailed !in v.events && |v.events| == 1)
            && (MessageFailed in v.events ==> !v.io.Written? && |v.events| <= 2)
            && (|v.events| == 2 <==>
                  && v.fate == Completed && v.io.Broken?
                  && run[n].pump != Finished(e, false) && run[n].pump != Exiting(Some(e)))
            && (v.complete.closed <==> v.fate == Completed)
            && (v.fate == Completed && v.io.Written? && run[n].pump != Finished(e, true) ==> v.events == [MessageSent])
            && (v.fate == Undeliverable && run[n].pump != Dropping(e) ==> v.events == [MessageFailed])
  {
    RunKeepsInv(run, steps, n);
    assert EnvelopeOk(run[n], e);
  }

  ghost function Having(s: State, fate: Fate): set<nat> {
    set e: nat | 0 <= e < |s.envelopes| && s.envelopes[e].fate == fate
  }

  /** Every envelope ever enqueued is completed, dropped as undeliverable, in the pump's hand or still queued. */
  lemma EnvelopeConservation(run: seq<State>, steps: seq<Step>, n: nat)
    requires IsRun(run, steps) && n < |run|
    ensures var s := run[n];
            && |s.envelopes| == |Having(s, Completed)| + |Having(s, Undeliverable)| + |Having(s, Taken)| + |s.queue|
            && |Having(s, Taken)| <= 1
            && (s.pump.Stopped? ==> Having(s, Taken) == {})
  {
    RunKeepsInv(run, steps, n);
    var s := run[n];
    QueueCount(s);
    TakenCount(s);
    FatesPartition(s);
  }

  lemma FatesPartition(s: State)
    ensures |s.envelopes| ==
            |Having(s, Completed)| + |Having(s, Undeliverable)| + |Having(s, Taken)| + |Having(s, Queued)|
  {
    var c, u, t, q := Having(s, Completed), Having(s, Undeliverable), Having(s, Taken), Having(s, Queued);
    forall e: nat ensures e in Below(|s.envelopes|) <==> e in c || e in u || e in t || e in q {
      if e < |s.envelopes| {
        var fate := s.envelopes[e].fate;
        assert fate == Completed || fate == Undeliverable || fate == Taken || fate == Queued;
      }
    }
    FourParts(Below(|s.envelopes|), c, u, t, q);
  }

  lemma TakenCount(s: State)
    requires EnvelopesOk(s)
    ensures |Having(s, Taken)| <= 1 && (s.pump.Stopped? ==> Having(s, Taken) == {})
  {
    forall e | e in Having(s, Taken) ensures Holds(s.pump, e) {
      assert EnvelopeOk(s, e);
    }
    if exists e :: e in Having(s, Taken) {
      var e :| e in Having(s, Taken);
      assert Having(s, Taken) == {e};
    }
  }

  lemma QueueCount(s: State)
    requires EnvelopesOk(s)
    ensures |Having(s, Queued)| == |s.queue|
  {
    forall e: nat ensures e in Elements(s.queue) <==> e in Having(s, Queued) {
      if e < |s.envelopes| {
        assert EnvelopeOk(s, e);
      }
    }
    assert Elements(s.queue) == Having(s, Queued);
    DistinctCount(s.queue);
  }

  // ---------------------------------------------------------------- first in, first out

  /** Step i is that of a call of Send which puts its envelope, number e, into the queue. */
  ghost predicate PutsIn(run: seq<State>, steps: seq<Step>, i: nat, e: nat) {
    && i < |steps| && i + 1 < |run| && steps[i].Enqueue?
    && |run[i].envelopes| == e && |run[i + 1].envelopes| == e + 1
    && steps[i].p < |run[i + 1].senders| && run[i + 1].senders[steps[i].p].envelope == Some(e)
  }

  /** The pump took envelope e out of the queue in step i, to write it or to drop it. */
  ghost predicate TakesOut(run: seq<State>, steps: seq<Step>, i: nat, e: nat) {
    && i < |steps| && i + 1 < |run|
    && (|| (steps[i].PumpTake? && run[i + 1].pump == Holding(e))
        || (steps[i].PumpDrain? && run[i + 1].pump == Dropping(e)))
  }

  /** How many envelopes have left the queue. */
  function Out(s: State): int {
    |s.envelopes| - |s.queue|
  }

  /** The queue holds the newest envelopes, oldest first, and what the pump has in hand is the last that left it. */
  ghost predicate InOrder(s: State) {
    && 0 <= Out(s)
    && (forall i :: 0 <= i < |s.queue| ==> s.queue[i] == Out(s) + i)
    && (s.pump.Holding? || s.pump.Dropping? ==> s.pump.e == Out(s) - 1)
  }

  lemma StepKeepsOrder(s: State, step: Step)
    requires InOrder(s) && Enabled(s, step)
    ensures InOrder(Apply(s, step)) && Out(s) <= Out(Apply(s, step)) <= Out(s) + 1
    ensures step.PumpTake? || step.PumpDrain? ==> Out(Apply(s, step)) == Out(s) + 1
  {
    if !step.PumpTake? && !step.PumpDrain? && !step.Enqueue? {
      OthersKeepQueue(s, step);
    }
  }

  lemma OthersKeepQueue(s: State, step: Step)
    requires Enabled(s, step) && !step.PumpTake? && !step.PumpDrain? && !step.Enqueue?
    ensures var t := Apply(s, step);
            && t.queue == s.queue && |t.envelopes| == |s.envelopes|
            && (t.pump.Holding? || t.pump.Dropping? ==> t.pump == s.pump)
  {
  }

  lemma {:induction false} QueueInOrder(run: seq<State>, steps: seq<Step>, n: nat)
    requires IsRun(run, steps) && n < |run|
    ensures InOrder(run[n])
  {
    if n > 0 {
      QueueInOrder(run, steps, n - 1);
      assert StepAt(run, steps, n - 1);
      StepKeepsOrder(run[n - 1], steps[n - 1]);
    }
  }

  lemma {:induction false} OutGrows(run: seq<State>, steps: seq<Step>, i: nat, n: nat)
    requires IsRun(run, steps) && i <= n < |run|
    ensures Out(run[i]) <= Out(run[n])
    decreases n
  {
    if i < n {
      OutGrows(run, steps, i, n - 1);
      QueueInOrder(run, steps, n - 1);
      assert StepAt(run, steps, n - 1);
      StepKeepsOrder(run[n - 1], steps[n - 1]);
    }
  }

  lemma OnlyEnqueueMakes(s: State, step: Step)
    requires Enabled(s, step) && |Apply(s, step).envelopes| != |s.envelopes|
    ensures step.Enqueue? && |Apply(s, step).envelopes| == |s.envelopes| + 1
    ensures step.p < |Apply(s, step).senders| && Apply(s, step).senders[step.p].envelope == Some(|s.envelopes|)
  {
  }

  /** Where an envelope comes from. */
  lemma {:induction false} WasPutIn(run: seq<State>, steps: seq<Step>, n: nat, e: nat) returns (i: nat)
    requires IsRun(run, steps) && n < |run| && e < |run[n].envelopes|
    ensures i < n && PutsIn(run, steps, i, e)
  {
    assert StepAt(run, steps, n - 1);
    if e < |run[n - 1].envelopes| {
      i := WasPutIn(run, steps, n - 1, e);
    } else {
      OnlyEnqueueMakes(run[n - 1], steps[n - 1]);
      i := n - 1;
    }
  }

  lemma {:induction false} EnvelopesGrow(run: seq<State>, steps: seq<Step>, i: nat, n: nat)
    requires IsRun(run, steps) && i <= n < |run|
    ensures |run[i].envelopes| <= |run[n].envelopes|
    decreases n
  {
    if i < n {
      EnvelopesGrow(run, steps, i, n - 1);
      assert StepAt(run, steps, n - 1);
      if |run[n].envelopes| != |run[n - 1].envelopes| {
        OnlyEnqueueMakes(run[n - 1], steps[n - 1]);
      }
    }
  }

  lemma OlderWasPutInBefore(run: seq<State>, steps: seq<Step>, a: nat, b: nat, e: nat, f: nat)
    requires IsRun(run, steps) && PutsIn(run, steps, a, e) && PutsIn(run, steps, b, f) && e < f
    ensures a < b
  {
    if b <= a {
      EnvelopesGrow(run, steps, b + 1, a + 1);
    }
  }

  lemma TakenIsOldest(run: seq<State>, steps: seq<Step>, i: nat, e: nat)
    requires IsRun(run, steps) && TakesOut(run, steps, i, e)
    ensures e == Out(run[i]) < |run[i].envelopes| && Out(run[i + 1]) == e + 1
  {
    QueueInOrder(run, steps, i);
    assert StepAt(run, steps, i);
    StepKeepsOrder(run[i], steps[i]);
  }

  /**
   In every interleaving envelopes leave the queue, to be written or dropped, in the order in which the calls of Send
   put them in.
   */
  lemma FirstInFirstOut(run: seq<State>, steps: seq<Step>, i: nat, j: nat, e: nat, f: nat) returns (a: nat, b: nat)
    requires IsRun(run, steps) && i < j && TakesOut(run, steps, i, e) && TakesOut(run, steps, j, f)
    ensures a < b && a < i && b < j && PutsIn(run, steps, a, e) && PutsIn(run, steps, b, f)
  {
    TakenIsOldest(run, steps, i, e);
    TakenIsOldest(run, steps, j, f);
    OutGrows(run, steps, i + 1, j);
    a := WasPutIn(run, steps, i, e);
    b := WasPutIn(run, steps, j, f);
    OlderWasPutInBefore(run, steps, a, b, e, f);
  }

  lemma {:induction false} OutcomeStays(run: seq<State>, steps: seq<Step>, i: nat, n: nat, e: nat)
    requires IsRun(run, steps) && i <= n < |run| && e < |run[i].envelopes| && !run[i].envelopes[e].io.Untried?
    ensures e < |run[n].envelopes| && !run[n].envelopes[e].io.Untried?
    decreases n
  {
    if i < n {
      OutcomeStays(run, steps, i, n - 1, e);
      assert StepAt(run, steps, n - 1);
      OutcomeStaysNow(run[n - 1], steps[n - 1], e);
    }
  }

  lemma OutcomeStaysNow(s: State, step: Step, e: nat)
    requires Enabled(s, step) && e < |s.envelopes| && !s.envelopes[e].io.Untried?
    ensures e < |Apply(s, step).envelopes| && !Apply(s, step).envelopes[e].io.Untried?
  {
    if |Apply(s, step).envelopes| != |s.envelopes| {
      OnlyEnqueueMakes(s, step);
    }
    if !step.PumpWrite? {
      OthersDoNotWrite(s, step, e);
    }
  }

  /** So are the frames written in that order. */
  lemma WritesInOrder(run: seq<State>, steps: seq<Step>, i: nat, j: nat, e: nat, f: nat) returns (a: nat, b: nat)
    requires IsRun(run, steps) && i < j < |steps| && steps[i].PumpWrite? && steps[j].PumpWrite?
    requires run[i].pump == Holding(e) && run[j].pump == Holding(f)
    ensures a < b && a < i && b < j && PutsIn(run, steps, a, e) && PutsIn(run, steps, b, f)
  {
    QueueInOrder(run, steps, i);
    QueueInOrder(run, steps, j);
    OutGrows(run, steps, i, j);
    assert StepAt(run, steps, i) && StepAt(run, steps, j);
    OutcomeStays(run, steps, i + 1, j, e);
    RunKeepsInv(run, steps, j);
    assert EnvelopeOk(run[j], f);
    a := WasPutIn(run, steps, i, e);
    b := WasPutIn(run, steps, j, f);
    OlderWasPutInBefore(run, steps, a, b, e, f);
  }
}
