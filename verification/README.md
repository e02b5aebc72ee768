# The concurrent core of webpa-common, in Dafny

webpa-common is the Go library under a device gateway: thousands of devices hold websocket connections to a process,
which registers them, sends them requests, matches responses to requests, and drains them away again.  This project
models the parts of it in which goroutines, locks, channels and counters have to fit together, and a few algorithms
beside them, and proves what they promise.

A concurrent component is modelled in two ways.  The *protocol* is a state machine on values whose step
is one lock-protected section, channel operation, atomic operation or frame write; an invariant is proved for every
step, and theorems are read off every finite interleaving.  The *object* is a class whose methods have the
branches, loops and order of updates of the source.  For the transactions, the device, the registry, drain control and
the capacitor, each method is proved to make exactly the steps of the protocol; between its steps, where it has
several, other goroutines may take theirs.  The caches have their objects run one call at a time, against the sections
that the protocol refines.  A Go channel is a value that counts its faults (a send when closed or full,
a second close); "never blocks" and "never panics" mean that no run has a fault.

- `Channels.dfy`, `Counting.dfy`, `Residues.dfy`: channels as values, cardinalities, arithmetic modulo n.
- `Transactions.dfy`: the pending transactions of a device, one-shot response channels under their keys.
- `DeviceProtocol.dfy`, `DeviceProofs.dfy`, `DeviceTheorems.dfy`: one device with any number of callers of Send, the
  read pump, the write pump and requestClose; its invariant; what follows for every run.  `DeviceProgress.dfy`: where
  outcomes are decided, and that results and responses arrive.  `DeviceCode.dfy`: the code of Send, requestClose and the
  pumps on an object that other goroutines change between any two operations.
- `Registry.dfy`, `RegistryTheorems.dfy`: the bounded registry of devices, cut at every lock, counter and close.
  `RegistryCode.dfy`: the code of its operations under interference.  `RegistryObject.dfy`: the same operations run one
  at a time, with the reasons of closing and the duplication statistics.  `RegistryCounters.dfy`: what each counter
  counts.
- `DrainControl.dfy`, `DrainLoop.dfy`: starting, cancelling and finishing drain jobs; the batching loops.
- `Capacitor.dfy`, `CapacitorCode.dfy`: the race of a timer, Submit, Discharge and Cancel; the code under interference.
- `RoundRobin.dfy`: the balancer that keeps the rank of each route in a map.
- `Pkcs1.dfy`: the comparison of a signature block with the EMSA-PKCS1-v1_5 encoding of section 9.2 of RFC 8017.
  `Pkcs1Der.dfy`: the hash prefixes as DER encodings.
- `MultiMap.dfy`, `MultiMapKeys.dfy`, `MultiMapCode.dfy`: nested configuration and when flattening it is exact; keys for
  which it always is; event multimaps and the code.
- `KeyCache.dfy`, `KeyCacheHeap.dfy`, `KeyCacheSingle.dfy`: the copy-on-write key cache, section by section and with its
  maps in memory; the cache of a single key.  `StoreCache.dfy`: the expiring cache.
- `DeviceId.dfy`: canonical device identifiers.

Some things one would like to rely on do not hold in the code.  The model keeps the code as it is, gives a run or an
input in which they fail, unless the condition names it, and states exactly when they hold:

- removeIf looks a second time by id, so it can unregister a newer device without closing it
  (`RegistryTheorems.RemoveIfCanDrop`; exactly when: `DropsExactly`).
- A Submit can be lost between the execution and the cleanup of a delayer (`Capacitor.SubmitCanBeLost`; exactly when:
  `SubmitIsHeard`).
- The remove by id with which the pumps of a replaced device end can unregister and close the newer device
  (`RegistryTheorems.LateRemoveCanHit`; exactly when: `LateRemove`).
- UpdateKeys can drop a key that was resolved meanwhile (`KeyCacheHeap.KeyCanDisappear`; exactly when: `KeyIsDropped`),
  and put an older pair back over a newer one (`PairCanGoBack`; exactly when: `PairGoesBack`).
- Job numbers wrap at 2^32, so a very old job can end a new one (`DrainControl.OldJobEndsNewer`; exactly when:
  `FinishClears`), and the 32-bit progress counters wrap at 2^31 (exactly when: `DrainLoop.Tracker.Progress`).
- A progress snapshot can have more drained than visited (`DrainLoop.OvertakenSnapshot`; by how much at most:
  `Tracker.Progress`).
- Keys that contain the separator can make two leaves claim one event type, and then the order of iteration can decide
  what is kept (`MultiMap.ClashExample`, `OrderMatters`; exactly when: `ExactIffCompatible`).
- Add and Remove of the balancer look and act under two acquisitions of its lock, so two Adds can break the ranks
  (`RoundRobin.TwoLateAdds`; exactly when: `LateAdd`), and two Removes can panic (`TwoLateRemoves`; exactly when:
  `Balancer.CloseGap`).

Where the code and its comments disagree the code is followed: the envelope whose write fails gets two MessageFailed
events.

## Model

| member | source | states |
|---|---|---|
| `Transactions.StepKeepsInv` | device/transactions.go:195-284 | any Register, Complete, Cancel, Close or receive, in any state that meets the invariant, keeps it: pending keys have different, open, empty channels; an issued channel is pending or closed; nothing is sent to a closed or full channel or closed twice; nothing is pending once closed |
| `Transactions.RunKeepsInv` | device/transactions.go:195-284 | the invariant holds after every sequence of these steps from an empty set |
| `Transactions.RunMovesForward` | device/transactions.go:189-253 | over any continuation of any run: a closed channel stays closed and gets nothing more, channels are only added, and after Close nothing is ever pending or issued again |
| `Transactions.RegisterThenComplete` | device/transactions.go:189-284 | Register and Complete are a hand-over: with any operations on other keys and channels between them, the response is in the very channel Register returned, and the key is free again |
| `Transactions.RegisterMany` | device/transactions.go:266-284 | after any run that did not close the set, registering any different new keys leaves all of them pending, each on its own new channel, beside those that were pending |
| `Transactions.PendingAreValues` | device/transactions.go:152-156 | a channel that some pending key maps to is exactly one that the map has for the key it was made for |
| `Transactions.Transactions.Keys` | device/transactions.go:172-187 | the pending keys, each once, whatever the order of the map |
| `Transactions.Transactions.Complete` | device/transactions.go:195-214 | succeeds exactly for a pending key, with the condition of each error; then the key is gone and its own channel, no other, holds the response and is closed; keeps the invariant |
| `Transactions.Transactions.Cancel` | device/transactions.go:222-235 | a pending key is gone and its own channel, no other, is closed and empty; anything else has no effect; keeps the invariant |
| `Transactions.Transactions.Close` | device/transactions.go:239-253 | afterwards nothing is pending and every channel is closed with what it held, whatever the order of the map; reports a second Close; keeps the invariant |
| `Transactions.Transactions.Register` | device/transactions.go:266-284 | succeeds exactly for a key that is not empty and not pending on an open set, with the condition of each of the three errors; an error has no effect, success is a new one-slot channel under the key; keeps the invariant |
| `DeviceProofs.StepKeepsInv` | device/manager.go:423-552 | every step of a caller of Send, the read pump, the write pump or requestClose keeps the joint invariant of envelopes, queue, pump, callers and transactions |
| `DeviceProofs.RunKeepsInv` | device/device.go:185-298 | the joint invariant holds in every state of every interleaving, for any number of calls |
| `DeviceTheorems.AnsweredSend` | device/device.go:251-298 | a response that Send returns was handed to Complete by the read pump under its own key, while that key was pending on its own channel, after its own Register, and its frame had been written |
| `DeviceTheorems.DistinctAnswers` | device/device.go:251-298 | no two calls of Send are answered by the same call of Complete |
| `DeviceTheorems.ReturnedIsNotPending` | device/device.go:266-298 | when Send returns its channel is not pending, under its key or any other |
| `DeviceTheorems.SuccessMeansWritten` | device/device.go:217-246 | Send and sendRequest report no error only for an envelope whose frame the pump wrote |
| `DeviceTheorems.WriteErrorIsGenuine` | device/device.go:235-246 | a write error returned is the one the pump got for this very envelope |
| `DeviceTheorems.ClosedIsGenuine` | device/device.go:217-298 | the closed-device error comes only after requestClose has swapped the state |
| `DeviceTheorems.CancelledSend` | device/device.go:251-264 | the cancelled-transaction error means that the device closed its transactions or that another call with the same key left while this one was pending |
| `DeviceTheorems.UniqueKeysAreNotCancelled` | device/device.go:251-264 | so with unshared keys it means that the device closed its transactions |
| `DeviceTheorems.CanReturn` | device/device.go:217-298 | once the shutdown channel is closed every call, wherever it waits, can return by at most four steps of its own |
| `DeviceTheorems.EnvelopeOutcome` | device/manager.go:465-552 | in every run an envelope gets at most one error, the one of its write, its channel is closed at most once and never used after; never both MessageSent and MessageFailed; MessageSent means written and MessageFailed not written; MessageFailed comes twice exactly when the write failed and the pump is past its own event and the deferred one |
| `DeviceTheorems.EnvelopeConservation` | device/manager.go:465-552 | in every state the envelopes ever enqueued are those completed, those drained as undeliverable, those queued and at most one in the hand of the pump, with none in its hand once it has stopped |
| `DeviceTheorems.FirstInFirstOut` | device/manager.go:487-552 | in every interleaving envelopes leave the queue, to be written or dropped, in the order in which the calls of Send put them in |
| `DeviceTheorems.WritesInOrder` | device/manager.go:514-552 | and frames are written in that order |
| `DeviceProgress.OutcomeIsDecided` | device/device.go:217-298 | the outcome of every call was decided by a step of its own that calls for it: a refusal by its Register with the key, set or pending key that is the reason, the context error by its context, the closed error by a closed device, the others by their receives |
| `DeviceProgress.ClosedTakesNoCalls` | device/device.go:266-298 | a call that enters after the state was swapped returns the closed error, with no key registered and nothing queued |
| `DeviceProgress.ResultArrives` | device/device.go:217-246 | a call that waits for its write can go on once its envelope is completed, with just the error or the success of its own write |
| `DeviceProgress.ResponseArrives` | device/device.go:251-264 | a response read while its key is pending on the channel of a call is the one that call takes, whatever happens in between |
| `DeviceProgress.StoppedIsDrained` | device/manager.go:465-500 | when the write pump stops every envelope queued until then was completed or reported undeliverable |
| `DeviceProgress.DroppedOnlyAfterExit` | device/manager.go:465-515 | no envelope is dropped unless the pump had left its loop, for a shutdown, a failed ping or a broken write |
| `DeviceProgress.TakenIsWritten` | device/manager.go:514-552 | what the pump takes in its loop it tries to write before it does anything else |
| `DeviceTheorems.OnlyWritesDecide` | device/manager.go:514-528 | no step but the write of this envelope decides what became of it |
| `DeviceCode.Device.Send` | device/device.go:266-298 | the code of Send, with any steps of other goroutines between its operations, takes only steps of the protocol, and on return its response, its frame and its transaction are as promised |
| `DeviceCode.Device.SendRequest` | device/device.go:217-246 | its two selects: the envelope is enqueued and its result taken, or it ends with the error of the case taken |
| `DeviceCode.Device.AwaitResponse` | device/device.go:251-264 | its select: the response, the cancelled-transaction error for a closed channel, or the error of the other two cases |
| `DeviceCode.Device.Transact` | device/device.go:276-289 | Register, exchange and deferred Cancel: no return without the Cancel once registered |
| `DeviceCode.Device.RequestClose` | device/device.go:185-198 | only the caller that swaps the state closes the channel, which is open then, and the transactions, after which nothing is pending; for any other caller nothing changes |
| `DeviceCode.Device.ReadMessage` | device/manager.go:423-442 | the transaction part of the read pump is the step of the protocol, and it reports completion exactly for a pending, non-empty key |
| `DeviceCode.Device.Deliver` | device/manager.go:514-546 | one message of the write loop, with interference between its operations: back to the loop after a success, out of it after a failure |
| `DeviceCode.Device.RunWritePump` | device/manager.go:450-552 | the whole pump, deferred function included, watched for any number of turns: only steps of the protocol, and when it stops the queue is empty |
| `DeviceCode.Promises` | device/device.go:217-298 | what a returned call promises, in any state of any run in which it has returned |
| `RegistryProtocol.AddKeepsInv` | device/registry.go:65-93 | the write-locked part of add, refused or not, keeps the registry invariant, counters still owed included |
| `RegistryProtocol.RemoveKeepsInv` | device/registry.go:95-111 | so does that of remove |
| `RegistryProtocol.RemoveIfKeepsInv` | device/registry.go:113-131 | so does the read-locked scan of removeIf, for any choice of matching devices |
| `RegistryProtocol.BargeKeepsInv` | device/registry.go:133-149 | so does each second look of removeIf, even when the id is by then held by another device |
| `RegistryProtocol.RemoveAllKeepsInv` | device/registry.go:160-174 | so does that of removeAll, for any order of the map |
| `RegistryProtocol.CloseKeepsInv` | device/device.go:185-198 | so does each requestClose |
| `RegistryProtocol.ContinueKeepsBalance` | device/registry.go:65-174 | every later step of a call moves a counter by what that call then owes less |
| `RegistryProtocol.RunKeepsInv` | device/registry.go:65-174 | the invariant holds in every state of every interleaving of the four operations, cut at every lock, counter and close |
| `RegistryTheorems.RegistrySafety` | device/registry.go:65-174 | in every state of every interleaving a registered device is open and stored under its own id, a positive limit is respected, the gauge is the size, and no shutdown channel is closed twice |
| `RegistryTheorems.MetricConservation` | device/registry.go:65-174 | whenever no call is running, connect + limitReached - disconnect is the number of registered devices |
| `RegistryTheorems.MetricBalance` | device/registry.go:65-174 | at any other time the difference is exactly what the running calls have still to count |
| `RegistryTheorems.DropsExactly` | device/registry.go:133-149 | a step leaves an added device open, unregistered and with nobody about to close it exactly when it is the second look of removeIf for a device whose id another device holds by then, and then it is that other device |
| `RegistryTheorems.RescuedExactly` | device/registry.go:133-149 | such a device is about to be closed again exactly when a removeIf that had matched it comes to its own second look for it and finds some device under its id |
| `RegistryTheorems.DroppedByBarge` | device/registry.go:113-158 | in every run, whenever a device is in that condition, some earlier second look for another device found it |
| `RegistryTheorems.NothingDropped` | device/registry.go:65-174 | without removeIf every added device is registered, closed or about to be closed, and when no call is running it is registered exactly when it is open |
| `RegistryTheorems.RemoveIfCanDrop` | device/registry.go:113-158 | a run in which removeIf does drop an open device |
| `RegistryTheorems.LateRemove` | device/manager.go:288-290 | the remove by id with which the pumps of a device end unregisters another device exactly when its own is not registered and its id is, and what it unregisters is about to be closed |
| `RegistryTheorems.NewerWasAdded` | device/registry.go:65-111 | in every run that other device was added after the first one was registered |
| `RegistryTheorems.LateRemoveCanHit` | device/manager.go:288-290 | a run in which it does unregister a newer device |
| `RegistryTheorems.AddAdmits` | device/registry.go:65-82 | a device is let in exactly when its id is registered already, the limit is not positive, or there are fewer devices than it; otherwise the map is as it was |
| `RegistryTheorems.LimitIsReached` | device/registry.go:70 | for every positive limit there is a run with just as many devices registered |
| `RegistryCounters.CountersAgree` | device/registry.go:65-93 | in every state of every interleaving each of the connect, limit and duplicate counters is the number of devices let in, refused, or let in over another, less what running calls have still to count |
| `RegistryCounters.CountersAreExact` | device/registry.go:65-93 | so each of them is exact whenever no call is running |
| `RegistryObject.Registry.constructor` | device/registry.go:36-52 | an empty registry with the given limit meets the invariant |
| `RegistryObject.Registry.Add` | device/registry.go:65-93 | let in exactly when the id is registered, there is no limit, or there is room; refused, the newcomer is closed for that reason; otherwise registered, a device of the same id closed as a duplicate and its duplications carried over; no other device touched; every counter moves by what happened; keeps the invariant |
| `RegistryObject.Registry.Remove` | device/registry.go:95-111 | the device of this id is unregistered, returned, closed once with this reason and counted; no other touched; keeps the invariant and the balance |
| `RegistryObject.Registry.RemoveIf` | device/registry.go:113-158 | run alone, exactly the matching devices are unregistered and closed once, each with its own reason, and counted; no other touched |
| `RegistryObject.Registry.Matching` | device/registry.go:114-125 | the scan yields each matching device once, with its reason, whatever the order of the map |
| `RegistryObject.Registry.RemoveAll` | device/registry.go:160-174 | every device is unregistered, closed once with this reason, and counted |
| `RegistryObject.Device.RequestClose` | device/device.go:185-198 | the first call closes and records its reason, "unknown" for an empty text; any later call changes nothing |
| `RegistryCode.Registry.Add` | device/registry.go:65-93 | the code of add, with any steps of other goroutines between its section, counters and close, takes just the steps of the protocol; it refuses exactly a new id where there is a limit and no room; a refused device, or the one replaced, is closed when it returns |
| `RegistryCode.Registry.Remove` | device/registry.go:95-111 | the same for remove: the device it took out is closed when it returns |
| `RegistryCode.Registry.Scan` | device/registry.go:118-125 | the read-locked scan yields each registered device that matches, once, whatever the order of the map |
| `RegistryCode.Registry.RemoveIf` | device/registry.go:113-158 | the same for removeIf: it matches just the registered devices the predicate accepts; the count it returns is the number of its second looks, in the trace, that found some device, and the match of each of these is closed when it returns |
| `RegistryCode.Registry.BargeOne` | device/registry.go:137-149 | the second look as written: by id, whatever device is there |
| `RegistryCode.Registry.RemoveAll` | device/registry.go:160-174 | the same for removeAll: every device that was registered is closed when it returns |
| `DrainControl.FinishClears` | device/drain/drainer.go:341-361 | a finishing job clears the active flag exactly when the drainer is active and the number of jobs started since is a multiple of 2^32 |
| `DrainControl.OldJobEndsNewer` | device/drain/drainer.go:341-361 | a run of 2^32 + 1 jobs in which the first job, still running, ends the activity of the newest, which goes on running |
| `DrainControl.DrainSafety` | device/drain/drainer.go:341-482 | over every run of at most 2^32 jobs: active exactly while the newest job is neither cancelled nor past its finish section, the gauge agrees, and at most one job runs uncancelled, the newest |
| `DrainControl.ChannelsClosedOnce` | device/drain/drainer.go:341-482 | over runs of any length no cancel or done channel is closed twice, and an active drainer has a current job |
| `DrainControl.StaleFinish` | device/drain/drainer.go:341-361 | a job that finishes after a newer one was started leaves the newer one active |
| `DrainControl.NormalizedJob` | device/drain/drainer.go:157-172 | a job is a fixed point of its defaults; the count is the percentage, else the given one, else all devices; a rate is kept, with the given tick or one second; without a rate there is no tick |
| `DrainControl.Drainer.Start` | device/drain/drainer.go:420-454 | refused exactly while active; otherwise the newest job, numbered modulo 2^32, is the current one, as normalized |
| `DrainControl.Drainer.Cancel` | device/drain/drainer.go:470-482 | refused exactly while inactive; otherwise the current job is cancelled and its done channel is the one to wait for |
| `DrainControl.Drainer.JobFinished` | device/drain/drainer.go:341-361 | the finish section of a job refines its step |
| `DrainControl.Drainer.CloseDone` | device/drain/drainer.go:341-361 | the done channel of a finished job is closed in a step of its own, which refines the step of the protocol |
| `DrainControl.Drainer.Status` | device/drain/drainer.go:456-468 | whether a job is active, and the newest job if there ever was one |
| `DrainLoop.Tracker.AddVisited` | device/drain/tracker.go:51-53 | the 32-bit counter stays the true number modulo 2^32 |
| `DrainLoop.Tracker.AddDrained` | device/drain/tracker.go:55-58 | so does this one, and the metric counter is exact |
| `DrainLoop.Tracker.Progress` | device/drain/tracker.go:37-49 | whatever the job counts between the two loads: each number is the true one of its own load exactly as long as that is below 2^31, and a snapshot has more drained than visited by at most what was visited in between |
| `DrainLoop.OvertakenSnapshot` | device/drain/tracker.go:37-41 | a snapshot with more drained than visited |
| `DrainLoop.DrainBatch` | device/drain/drainer.go:310-330 | a batch is counted as visited before what was drained of it is, and left alone all of it is drained |
| `DrainLoop.FillBatch` | device/drain/drainer.go:283-304 | for any visit order the batch takes different devices the filter does not allow, as many as there are or as fit; it ends early only if cancelled; what it skips is allowed |
| `DrainLoop.EmptyBatch` | device/drain/drainer.go:313-326 | disconnects only what the batch held, once each, until it is empty or cancelled |
| `DrainLoop.NextBatch` | device/drain/drainer.go:280-339 | takes at most the batch size, drains no more than it visits, and goes on only with an empty batch and some progress; left alone it disconnects min(size, number of targets) targets |
| `DrainLoop.SkippedAll` | device/drain/drainer.go:386-390 | when as many were skipped as are left, no target is left: the early stop is never premature |
| `DrainLoop.TakenAreFresh` | device/drain/drainer.go:364-418 | batches never overlap, and a batch that is empty, or that skipped all that is left, means all targets are done |
| `DrainLoop.Drain` | device/drain/drainer.go:364-396 | a rated job ends under any interference, visits at most rate devices a tick and Count in all, disconnects none that the filter allows, and drained <= visited; left alone it disconnects exactly min(Count, number of targets) targets, just rate of them at every tick but the last, and stops short of Count only when every device left is allowed |
| `DrainLoop.Disconnect` | device/drain/drainer.go:33-35 | the same for a job without a rate, in batches of 1000; a batch that is followed by another is whole |
| `DrainLoop.DisconnectBy` | device/drain/drainer.go:399-418 | the loop, for any batch size |
| `Capacitor.StepKeepsInv` | capacitor/capacitor.go:79-179 | every step of Submit, Discharge, Cancel, the timer, the delayer and its cleanup keeps the invariant of delayers and their one-slot channels |
| `Capacitor.OneVerdictOneCall` | capacitor/capacitor.go:79-117 | in every run a delayer gets at most one terminate value, for which there is room, and calls at most one function |
| `Capacitor.InChargeUntil` | capacitor/capacitor.go:127-179 | over any stretch of any run a delayer in charge stays in charge exactly until a Discharge, a Cancel or its own cleanup, and never comes back: the cleanups of older delayers, however late, do not touch it |
| `Capacitor.CurrentIsLast` | capacitor/capacitor.go:127-159 | the delayer in charge holds the last function submitted |
| `Capacitor.SubmitTakesEffect` | capacitor/capacitor.go:127-159 | after a Submit there is a delayer in charge, and it holds the function |
| `Capacitor.CallsTheLast` | capacitor/capacitor.go:87-91 | a delayer calls what it holds when it executes: the last function submitted, if it is still in charge |
| `Capacitor.CancelInTime` | capacitor/capacitor.go:171-179 | a Cancel before the decision means that this delayer never calls anything |
| `Capacitor.DischargeInTime` | capacitor/capacitor.go:161-169 | a Discharge before the decision means that it calls exactly the last function submitted before, once |
| `Capacitor.SubmitIsHeard` | capacitor/capacitor.go:127-159 | a submitted function can still be called by the delayer in charge if and only if that delayer has not loaded its function yet |
| `Capacitor.SubmitCanBeLost` | capacitor/capacitor.go:87-155 | a run that reaches the state in which a Submit is lost |
| `CapacitorCode.Capacitor.Submit` | capacitor/capacitor.go:127-159 | takes just the step of the protocol: a new delayer, or a new function for the one in charge |
| `CapacitorCode.Capacitor.Terminate` | capacitor/capacitor.go:161-179 | Discharge and Cancel: the one slot is free, so the send under the lock never blocks |
| `CapacitorCode.Capacitor.Cleanup` | capacitor/capacitor.go:143-150 | takes just the step of the protocol, after which the delayer is not in charge |
| `CapacitorCode.Capacitor.Decide` | capacitor/capacitor.go:98-116 | the two selects of run, with interference: a termination trumps the timer, and what is received decides |
| `CapacitorCode.Capacitor.Run` | capacitor/capacitor.go:95-117 | the goroutine of a delayer, with interference: only steps of the protocol, at most one call, and not in charge when it is over |
| `RoundRobin.RunFollows` | xresolver/types.go:139-241 | after any sequence of Add, Remove, Update and rotation the map of ranks represents the list that the same operations on a list make |
| `RoundRobin.RanksArePermutation` | xresolver/types.go:139-241 | so the stored ranks are a permutation of 0..n-1 |
| `RoundRobin.LateAdd` | xresolver/types.go:149-153 | the unguarded second half of Add keeps the ranks a permutation if and only if the key is not there by then |
| `RoundRobin.TwoLateAdds` | xresolver/types.go:139-156 | two Adds of one route that both saw it missing leave ranks that are no permutation |
| `RoundRobin.Balancer.Insert` | xresolver/types.go:149-154 | the second half of Add, on whatever table it finds by then |
| `RoundRobin.Balancer.CloseGap` | xresolver/types.go:166-184 | the second half of Remove, on whatever table it finds by then: it panics exactly when the key is gone and the table is not empty, and otherwise takes the route out and closes the gap |
| `RoundRobin.TwoLateRemoves` | xresolver/types.go:158-187 | of two Removes of one route that both saw it, the second panics exactly when there was another route |
| `RoundRobin.RemoveFollows` | xresolver/types.go:158-187 | closing the gap of a removed rank is removal from the list, so the others keep their order |
| `RoundRobin.RemovedAt` | xresolver/types.go:158-187 | removal takes out just the entry with the key |
| `RoundRobin.UpdateFollows` | xresolver/types.go:189-206 | Update ranks its input by first occurrences |
| `RoundRobin.UpdateKeepsKeys` | xresolver/types.go:189-206 | the list after Update has exactly the keys of the input |
| `RoundRobin.UpdateKeepsOrder` | xresolver/types.go:189-206 | a first occurrence is listed right after the first occurrences before it, whatever duplicates come between |
| `RoundRobin.UpdateLength` | xresolver/types.go:189-206 | and nothing else is listed |
| `RoundRobin.Balancer.GetMany` | xresolver/types.go:208-241 | any number of Gets in a row return the rotations of the list, one after another |
| `RoundRobin.KthGet` | xresolver/types.go:208-241 | of Gets in a row, the k-th returns the routes of the first turned left by k modulo their number |
| `RoundRobin.EveryoneLeads` | xresolver/types.go:208-241 | in any n results in a row every route comes first |
| `RoundRobin.NobodyLeadsTwice` | xresolver/types.go:208-241 | and, whatever operations made the rotation, none twice |
| `RoundRobin.OrderRestored` | xresolver/types.go:208-241 | results n apart are the same |
| `RoundRobin.PortsTellApart` | xresolver/types.go:115-121 | for one scheme and host two routes have the same text exactly when they have the same port |
| `RoundRobin.DigitsDenote` | xresolver/types.go:118 | the port is written as the decimal digits that denote it |
| `RoundRobin.Balancer.Add` | xresolver/types.go:139-156 | appends a route whose text is not listed, and reports one that is |
| `RoundRobin.Balancer.Remove` | xresolver/types.go:158-187 | removes the route with the text, keeps the order of the rest, and reports one that is not listed |
| `RoundRobin.Balancer.Update` | xresolver/types.go:189-206 | replaces the rotation by the first occurrences of the input |
| `RoundRobin.Balancer.Records` | xresolver/types.go:228-240 | every slot of the result array is written, within bounds: the routes in their order, or the error when there are none |
| `RoundRobin.Balancer.Rotate` | xresolver/types.go:212-226 | decrementing every rank modulo n is a rotation of the list |
| `RoundRobin.Balancer.Get` | xresolver/types.go:208-241 | returns the list and leaves it rotated by one |
| `Pkcs1.ConstantTimeByteEq` | webhook/aws/verify.go:106-121 | 1 exactly for equal bytes |
| `Pkcs1.ConstantTimeCompare` | webhook/aws/verify.go:123-136 | 1 exactly for equal slices, of whatever lengths |
| `Pkcs1.LeftPad` | webhook/aws/verify.go:19-27 | zeros in front of an input that is too short, and the first `size` bytes of one that is too long |
| `Pkcs1Der.PrefixLengths` | webhook/aws/verify.go:35-44 | in every DER prefix the length bytes agree with the prefix and the size of its hash |
| `Pkcs1Der.PrefixIsDer` | webhook/aws/verify.go:35-44 | each prefix is the DER encoding, up to the digest, of a DigestInfo with the object identifier of the hash, built from its arcs |
| `Pkcs1Der.PrefixIsTable` | webhook/aws/verify.go:35-44 | the bytes compared are these numbers |
| `Pkcs1.EncodedBytes` | webhook/aws/verify.go:80-98 | byte by byte, which blocks are the encoding of a payload by section 9.2 of RFC 8017 |
| `Pkcs1.EncodedForm` | webhook/aws/verify.go:72-104 | the encodings of a payload are exactly 00 01 FF.. 00 and the payload, with eight FF or more |
| `Pkcs1.CheckBlock` | webhook/aws/verify.go:82-98 | the accumulated comparisons are 1 exactly when the block is that encoding |
| `Pkcs1.Verify` | webhook/aws/verify.go:64-104 | accepts exactly when the padded block is the encoding of the prefix and the hash, with at least 8 padding bytes; otherwise the error of hashInfo or of the verification |
| `Pkcs1.PaddingKeepsValue` | webhook/aws/verify.go:19-27 | padding does not change the number |
| `Pkcs1.AcceptsTheNumber` | webhook/aws/verify.go:64-104 | so for a number that fits the modulus the block is accepted exactly when it is the number the encoding denotes |
| `Pkcs1.EncodingIsInjective` | webhook/aws/verify.go:80-98 | no block is the encoding of two payloads |
| `MultiMapCode.EventMap.Add` | event/multimap.go:12-18 | appends values, and does nothing without any |
| `MultiMapCode.EventMap.Set` | event/multimap.go:22-31 | replaces values, and removes the event type without any |
| `MultiMapCode.EventMap.Get` | event/multimap.go:35-44 | the values of the first of the given event types that is there |
| `MultiMapCode.FlattenMap` | event/multimap.go:65-106 | for any order of visiting: fails exactly when some leaf below is not valid, and otherwise writes every leaf, in that order |
| `MultiMapCode.FlattenValue` | event/multimap.go:74-102 | the same for each kind of value: a text or a list of texts replaces what is there, elements are appended to it, and the error says which kind was not valid |
| `MultiMapCode.FlattenLists` | event/multimap.go:94-97 | each list of a map of lists is set under its own key, whatever the order |
| `MultiMapCode.NestedToMultiMap` | event/multimap.go:51-62 | fails exactly for an empty separator or an invalid leaf; for compatible leaves the result has exactly the leaves with values; for a one-character separator and non-empty keys without it, it maps exactly each joined root-to-leaf path to the values of its leaf |
| `MultiMap.ExactIsUnique` | event/multimap.go:65-106 | only one map is right, so the order of iteration makes no difference |
| `MultiMap.TextsInOrder` | event/multimap.go:84-92 | the values of a list of elements are their texts, in their order |
| `MultiMap.ValidEverywhere` | event/multimap.go:83-101 | what can be flattened is exactly what has, at every path, a value of a known type, with all elements of lists texts |
| `MultiMapKeys.JoinIsInjective` | event/multimap.go:67-71 | joining proper keys with the separator is injective |
| `MultiMapKeys.ProperKeysDoNotClash` | event/multimap.go:51-106 | so no two leaves get the same event type |
| `MultiMapKeys.FlatteningKeepsMeaning` | event/multimap.go:51-106 | and the flat map has exactly the leaves of the nested one, path by path |
| `MultiMap.ExactIffCompatible` | event/multimap.go:65-106 | flattening gives exactly the leaves that have values, for every order of visiting, if and only if any two leaves with one event type both set the same values or one of them is an empty element list |
| `MultiMap.CompatibleIsExact` | event/multimap.go:65-106 | the one half, from any map that has none of the event types |
| `MultiMap.IncompatibleIsNot` | event/multimap.go:65-106 | the other half: an order of visiting that gives something else |
| `MultiMap.PathsAreLeaves` | event/multimap.go:65-106 | a visit in any order comes to every leaf and to nothing else |
| `MultiMap.LastVisited` | event/multimap.go:65-106 | any leaf can be the last one visited |
| `MultiMap.OrderMatters` | event/multimap.go:65-106 | an empty list under a key that looks nested erases the nested leaf in one order and not in the other |
| `MultiMap.ClashIsFatal` | event/multimap.go:65-106 | two leaves with different values, neither without any, and one event type leave no right result at all |
| `MultiMap.ClashExample` | event/multimap.go:65-106 | which happens with a key that contains the separator |
| `KeyCacheHeap.PublishedPairsAreGenuine` | secure/key/cache.go:111-182 | in every interleaving a pair in a published map was returned by the delegate for its key in an earlier step |
| `KeyCacheHeap.ResolvedPairsAreGenuine` | secure/key/cache.go:136-154 | so was each pair that ResolveKey returned |
| `KeyCacheHeap.PublishedMapsStay` | secure/key/cache.go:100-107 | with maps written in place, one entry a step: in every interleaving a map whose reference has been stored is never written again |
| `KeyCacheHeap.ReadersSeeFinishedMaps` | secure/key/cache.go:111-182 | no call ever holds for reading a map that any call is filling, then or later; what it reads later is what was there when it got the reference |
| `KeyCacheHeap.OneWriter` | secure/key/cache.go:55-59 | at most one call fills a map at a time, and it has the lock |
| `KeyCacheHeap.StoresOnlyAnswers` | secure/key/cache.go:170-178 | an UpdateKeys without any answer stores nothing |
| `KeyCacheHeap.StepKeepsInv` | secure/key/cache.go:111-182 | every load, read, write, store, lock and release keeps the invariant of references, lock and half-filled maps |
| `KeyCacheHeap.RunsAreAtomic` | secure/key/cache.go:111-182 | every interleaving of these steps has the calls, results and cached maps of one in which each section is a single step on map values |
| `KeyCacheHeap.KeyIsDropped` | secure/key/cache.go:156-182 | a step drops a key exactly when it is the store of an UpdateKeys whose base map, read before the lock, did not have the key |
| `KeyCacheHeap.SerialKeepsKeys` | secure/key/cache.go:111-182 | when calls do not overlap no key ever disappears |
| `KeyCacheHeap.KeyCanDisappear` | secure/key/cache.go:156-182 | a reachable state and step in which one does |
| `KeyCacheHeap.PairGoesBack` | secure/key/cache.go:156-182 | a step replaces a cached pair without an answer for its key exactly when it is the store of an UpdateKeys for which the delegate failed on that key and whose base map, read before the lock, had another pair for it |
| `KeyCacheHeap.SerialGoesNotBack` | secure/key/cache.go:111-182 | when calls do not overlap a cached pair is only ever replaced by an answer for its key |
| `KeyCacheHeap.PairCanGoBack` | secure/key/cache.go:156-182 | a reachable state and step in which a pair goes back to an older one |
| `KeyCache.MultiCache.ResolveKey` | secure/key/cache.go:136-154 | a cached key costs nothing and changes nothing; another is asked for once and cached if the answer is good; no key is lost |
| `KeyCache.MultiCache.CopyPairs` | secure/key/cache.go:122-134 | a new map with the cached pairs, empty when there are none |
| `KeyCache.MultiCache.UpdateKeys` | secure/key/cache.go:156-182 | one attempt for each cached key, in some order; a failed key keeps its pair and counts as an error; if all fail nothing is stored; no key comes or goes |
| `KeyCache.SingleCache.ResolveKey` | secure/key/cache.go:67-83 | the cached pair whatever the key, or the answer of the delegate, cached if good |
| `KeyCache.SingleCache.UpdateKeys` | secure/key/cache.go:85-98 | one attempt, with the empty key; a failure keeps the pair |
| `KeyCacheSingle.CachedIsLast` | secure/key/cache.go:67-98 | for the single-key cache: in every interleaving, whenever the lock is free, the cached pair is the last one the delegate returned |
| `KeyCacheSingle.AskedWhenEmpty` | secure/key/cache.go:67-98 | a ResolveKey asks the delegate only while nothing is cached, with its own key; an update asks with the empty key |
| `KeyCacheSingle.StaysCached` | secure/key/cache.go:67-83 | once there is a pair there always is one, and a ResolveKey that begins then returns it without asking |
| `KeyCacheSingle.ReturnedIsGenuine` | secure/key/cache.go:67-83 | what a ResolveKey returns the delegate has returned |
| `StoreCache.CachedIsLatest` | store/cache.go:52-117 | in every interleaving the cached value is the latest successful load of the source, in lock order |
| `StoreCache.LoadYieldsLatest` | store/cache.go:80-117 | a Load that returns yields the latest successful load, and fails only when there was none |
| `StoreCache.LoadNeverFailsAgain` | store/cache.go:80-117 | after the first success no Load fails, whatever the source does |
| `StoreCache.NextConsultation` | store/cache.go:80-117 | with Load alone, a consultation after the first success is for a time more than a period after the one before |
| `StoreCache.ConsultationsAreSpaced` | store/cache.go:80-117 | so m consultations apart is more than m periods apart, failures included |
| `StoreCache.ExpiresAfterPeriod` | store/cache.go:52-117 | in every interleaving of Loads and Refreshes the entry expires a period after the time for which it was last renewed, by a success or by a Load that failed |
| `StoreCache.ConsultsExactly` | store/cache.go:80-117 | a Load takes the lock exactly when the value is out of date as it begins, and consults the source exactly when it still is in the section |
| `StoreCache.ServedIsFresh` | store/cache.go:80-117 | no Load serves an expired value: what it returns for a time was renewed for one at most a period before |
| `StoreCache.Cache.New` | store/cache.go:37-46 | refuses exactly a period that is not positive |
| `StoreCache.Cache.Load` | store/cache.go:80-117 | consults the source exactly when there is no entry or its expiry is before now; then a value, or the old value after an error, is good for a period from now; fails only with neither |
| `StoreCache.Cache.Refresh` | store/cache.go:52-70 | a value is good for a period from now; an error is reported and leaves the entry, with its expiry, as it was |
| `DeviceId.ParseID` | device/id.go:44-78 | the reading of a name as prefix, id and ignored service; a method with the closure of the source |
| `DeviceId.MapMac` | device/id.go:56-70 | keeps the hexadecimal digits in lower case, drops delimiters, and notes anything else |
| `DeviceId.OnlyOnePrefix` | device/id.go:19-34 | a name has at most one of the four prefixes |
| `DeviceId.TakenApart` | device/id.go:44-78 | a prefix, an id without slashes and a service are taken apart into just these |
| `DeviceId.ParsingIsIdempotent` | device/id.go:44-78 | parsing a canonical identifier yields it again |
| `DeviceId.ServiceIsIgnored` | device/id.go:44-78 | everything from the first slash on is ignored |
| `DeviceId.MacForm` | device/id.go:55-77 | a MAC name is valid exactly with digits and delimiters only and twelve digits, and its identifier is these digits |
| `DeviceId.PrefixInAnyCase` | device/id.go:32 | the prefix may be in any case |
| `DeviceId.NothingElseParses` | device/id.go:32 | a name that parses starts with one of the four prefixes and a colon |
| `DeviceId.OtherIdsAreKept` | device/id.go:44-78 | an id that is no MAC is kept as it is |
| `DeviceId.EmptyIdIsRefused` | device/id.go:44-48 | a name without an id is invalid |
| `DeviceId.DelimitersAreDropped` | device/id.go:21 | a colon, hyphen, point or comma anywhere in a MAC makes no difference |
| `DeviceId.OthersAreRefused` | device/id.go:56-72 | any other character that is no digit makes a MAC invalid |
| `DeviceId.DigitsAreLowered` | device/id.go:56-77 | twelve digits, in either case, are the MAC, in lower case |
| `DeviceId.MacDependsOnDigits` | device/id.go:55-77 | two such names have the same identifier, or none, exactly when their lower-cased digits agree or neither has twelve |
| `DeviceId.IntegersParse` | device/id.go:39-41 | the identifier of an integer parses to itself |
| `DeviceId.SameIdentifier` | device/id.go:39-41 | two integers have the same identifier exactly when they are equal modulo 2^48 |
| `DeviceId.HexAt` | device/id.go:39-41 | each digit of the identifier is the one of its place value |
| `DeviceId.EveryMacIsAnInteger` | device/id.go:39-78 | every valid MAC name is the identifier of the integer its digits denote |

## Left out

- Websocket upgrade, WRP encoding, convey headers, HTTP handlers: a read or a write is a step that succeeds or fails.
- The ping ticker and pong callbacks: a failed ping is one more reason for which the write pump may leave its loop.
- pumpClose beyond its remove by id, on which see RegistryTheorems.LateRemove: the Disconnect event and the closing of
  the connection are not modelled.
- Event contents and the error that an event carries: only event types are modelled.
- Infinite runs and fairness: theorems are about every finite run and about steps that can be taken.
- Go's memory model, real time and the scheduler: steps are atomic and interleave in any order; clocks are arbitrary.
- DeviceCode.Device.RunWritePump: says nothing of how long the pump takes, since pings and arriving messages can keep it
  in its loops for ever.
- DeviceCode.Device.Send: says what holds when it returns; that it can return is `DeviceTheorems.CanReturn`.
- RegistryObject.Registry.Add: the device is a new, open one, as the connection handler, its only caller, makes it.
- RegistryObject.Registry.RemoveIf: run alone; the interleaved one is RegistryCode.Registry.RemoveIf, whose registry has
  no reasons of closing and no duplication statistics.
- RegistryCode.Registry.RemoveAll: the order in which the devices are closed is fixed when the map is swapped; any is
  possible.
- MultiMapCode.FlattenMap: the order of iteration is a parameter, fixed before the call.
- RoundRobin.Balancer.Add: its two halves with nothing in between; what the gap can do is RoundRobin.LateAdd, about the
  second half, Insert, on any table.
- RoundRobin.Balancer.Remove: likewise; its second half on any table is RoundRobin.Balancer.CloseGap.
- RoundRobin route parsing (NormalizeRoute, CreateRoute): thin wrappers over URL parsing.
- DrainControl.Drainer.Status: the progress of the job, which is DrainLoop.Tracker.Progress, is not part of the result.
- DrainControl.NormalizedJob: what the floating-point percentage of the device count comes to is a parameter.
- DrainLoop.Tracker.Progress: what the job counts between the two loads is a parameter.
- DrainLoop.Drain: the filter depends on the id alone, the ticker is a choice of the environment, and the
  start and finish times of a job are not modelled.
- Pkcs1.Verify: RSA exponentiation is not modelled; the recovered bytes are arbitrary.
- KeyCache.SingleCache.ResolveKey: the object runs one call at a time; interleaved calls are in KeyCacheSingle.
- KeyCache.MultiCache.UpdateKeys: the object runs one call at a time; interleaved calls are in KeyCacheHeap.
- StoreCache.ConsultationsAreSpaced: for runs that use Load alone, since Refresh consults the source at any time.
- DeviceId.ParseID: names are ASCII; case folding of other characters, such as the long s, is not modelled.
- Consistent hashing, Consul, Zookeeper, SNS and Argus clients, viper configuration, logging, metrics libraries, JWT
  validation: wrappers over libraries that are not part of this model.
- Semaphores, gates, connection limiters, middleware and option defaults: they would add only easy members.
