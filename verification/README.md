# Skygo verification

A Dafny model of the hand-written state machines inside skygo (an actor runtime,
its cluster transport and its timers), with proofs of what they promise for
every run. `dafny verify dfyconfig.toml` checks everything.

Concurrent components are step machines: an action is one atomic step of one
goroutine (a locked section, or a rendezvous on a channel), and a theorem speaks
of every state of every finite run. Timeouts, cancellations, clocks and write
outcomes are free choices of the run, so a theorem holds however they fall.
Where the source changes fields in place there is also a class whose methods do
the same, each proved to do to its fields exactly what the machine's function
of that step says.

| file | what it models |
|---|---|
| `ServiceRuntime.dfy`, `RuntimeExact.dfy`, `ServiceLoop.dfy` | the event loop of one service (current, ready, suspended, slots, segments) and the handlers it schedules; what a run's history says of both; the loop as imperative code |
| `CallSessions.dfy` | the session table raced by completion, timeout, cancel and stop, in product with the service runtime |
| `CallChain.dfy` | call paths, the call-cycle check and NoYield, locally and across nodes |
| `Drain.dfy`, `DrainService.dfy` | the drain tracker: envelopes, permits, the zero channel, Drain itself; the tracker beside a running service |
| `Admission.dfy`, `Delivery.dfy`, `DeliveryExact.dfy` | the admission watermark; lanes, wire, read loop, shards, mailbox admission, barrier and FlushOutgoing; what a run's history says about barriers, decisions and requests |
| `FlushAll.dfy`, `EndToEnd.dfy` | FlushOutgoing over all nodes; a network and a service side by side |
| `PeerClose.dfy` | enqueuers, write loop and close of one peer, and its request table |
| `DelayQueue.dfy`, `TimingWheel.dfy`, `IdGenerator.dfy` | the indexed heap with its dedup window, the 3600-slot wheel, the id generator |
| `Ledger.dfy` | the Redis timer ledger's scripts and pipelines |
| `WaitGraph.dfy`, `Retrier.dfy`, `Framing.dfy` | the wait-for monitor, the multi-level retrier, length-prefixed frames |
| `Basics.dfy` | shared vocabulary |

Four promises turn out not to hold in general; each has a concrete
counterexample and the exact condition under which it does hold.

- Adding to the timing wheel is documented to replace an earlier schedule. With
  a deadline in the past it fires at once and leaves the earlier entry in its
  slot (`PastDeadlineFiresTwice`); it replaces if and only if the delay is
  positive or the id was not scheduled (`AddReplacesIff`).
- A still-pending ledger record is documented to have no claimant. A timer added
  again after it was claimed keeps the old claim's metadata, so only the old
  owner can complete it (`StaleClaimBlocksCompletion`, `PendingCompletesIff`).
- Adding a timer is documented to remove the previous timer of its business id.
  It removes whatever the index names, and a timer added again under another
  business id leaves its old index entry behind, so a later Add can throw out
  the active timer of a different business id (`AddDropsOtherBusiness`);
  `AddReplacesOwnBusinessIff` says when an Add does what it should, and
  `IndexExactIff` which runs never get there.
- The call-cycle check is meant for calls that cannot make progress. It looks at
  the path alone, so it also refuses a call back into a NoInterleave handler that
  no longer waits: one that sent instead of calling (`RefusedAfterSend`), or one
  whose call timed out while the called handler runs on (`RefusedAfterTimeout`).
  `RefusalExact` says exactly when a refusal was not needed: when the target is
  on the path only before the handlers that at that moment still wait, call by
  call, for the answer.

## Model

| member | source | states |
|---|---|---|
| ServiceRuntime.SchedulerSafety | actor/system_runtime.go:151-380 | In every state of every run a live activation is in exactly one of current, ready and suspended and any other id in none, ready has no duplicates, handler code runs only for the current activation, the suspended set stays within its bound, and the loop has returned only when nothing is live |
| ServiceRuntime.DefensiveBranchesDead | actor/system_runtime.go:164-371 | In no run is a yield refused for not running, a waiting handler shown a closed done channel, an unstarted activation met by the scheduler after Stop, or the loop blocked on a grant or on taking slots back, of which Stop finds one for each envelope it drops |
| ServiceRuntime.InterleavingExact | actor/system_runtime.go:83-94 | A mark taken and queried while the activation holds its turn reports interleaving if and only if another activation's segment began in between; never on a NoInterleave service |
| ServiceRuntime.MarkRun | actor/system_runtime.go:298-371 | What a mark means in every later state, in turn or out of it, through yields, resumes and Stop |
| ServiceRuntime.StartsInMailboxOrder | actor/system_runtime.go:286-347 | Handlers start in the order the mailbox accepted their envelopes, none skipped |
| ServiceRuntime.BoundedOvertaking | actor/system_runtime.go:286-347 | The activation at position k of ready has its turn among the next k + 1 segments of any run, unless Stop dropped it unstarted |
| ServiceRuntime.SlotConservation | actor/system_runtime.go:439-497 | Slot occupancy is exactly the number of envelopes being admitted or waiting unstarted, and never exceeds the mailbox size |
| ServiceRuntime.SlotReleasedOnce | actor/system_runtime.go:272-301 | A slot once given up is never held, so never released, again, on any path including Stop |
| ServiceRuntime.DroppedAnsweredOnce | actor/system_runtime.go:272-347 | In every run the envelopes the loop itself has answered are exactly the dropped ones, each answered once, none started and none holding a slot |
| ServiceRuntime.FullInvRun | actor/system_runtime.go:315-380 | The invariant tying the loop's variables to handler phases, slots, mailbox order and segments holds in every state of every run |
| ServiceRuntime.StopEffect | actor/system_runtime.go:321-335 | Stop answers each unstarted ready envelope once and returns its slot, and keeps the started ones in order |
| ServiceRuntime.YieldAcceptedIff | actor/system_runtime.go:348-365 | In every run a yield is accepted if and only if fewer than MaxSuspended activations are waiting or coming back; otherwise its handler goes on running |
| ServiceRuntime.EnqueueAcceptedIff | actor/system_runtime.go:338-347 | An envelope handed to the loop is queued if and only if no Stop came before, and dropped otherwise |
| ServiceRuntime.StopDropsExactly | actor/system_runtime.go:321-335 | Stop drops exactly the envelopes that are queued and not started, and changes no other activation |
| ServiceRuntime.ReturnsIff | actor/system_runtime.go:315-319 | At the top of the loop it returns if and only if a Stop has come and no activation is live |
| ServiceRuntime.WorkConserving | actor/system_runtime.go:286-319 | Whenever the loop waits for events and no activation has the turn, none is waiting for one; and whoever has the turn runs, has finished or finds its grant ready |
| ServiceRuntime.SlotFreeIff | actor/system_runtime.go:439-497 | A slot can be taken if and only if fewer envelopes than the mailbox holds are being admitted or queued |
| RuntimeExact.EventsExact | actor/system_runtime.go:252-380 | Told from the history, which events the loop can receive and when: one between two passes of its top, Stop only once, nothing after it has returned; then, and only then, an envelope still being admitted sees it gone |
| RuntimeExact.PcIff | actor/system_runtime.go:315-380 | The loop waits at its select if and only if it has passed its top without returning since the last event, and has returned if and only if a pass found Stop come and nothing live |
| RuntimeExact.PhaseToldByHistory | actor/system_runtime.go:151-437 | In every state the phase of an activation is what the last action about it left it in |
| ServiceLoop.EventLoop.constructor | actor/system_runtime.go:261-271 | The loop starts with nothing current, ready or suspended |
| ServiceLoop.EventLoop.AnswerPending | actor/system_runtime.go:272-284 | Records an unstarted envelope as answered and gives back its slot if it holds one, without blocking |
| ServiceLoop.EventLoop.GiveTurn | actor/system_runtime.go:298-312 | Gives the turn: slot back, version bumped exactly when a segment began since the yield, a new segment, the handler started once |
| ServiceLoop.EventLoop.DoSchedule | actor/system_runtime.go:286-313 | The scheduling pass on the loop's fields is the machine's scheduling function |
| ServiceLoop.EventLoop.HandleStop | actor/system_runtime.go:321-335 | The in-place Stop, two loops over ready, is the machine's stop function |
| ServiceLoop.EventLoop.HandleEnqueue | actor/system_runtime.go:338-347 | An envelope is queued at the tail, or answered when stopping |
| ServiceLoop.EventLoop.HandleYield | actor/system_runtime.go:348-365 | A yield is accepted or refused for the machine's reason, and only an accepted one changes the loop; when it is accepted, told from the run, is `ServiceRuntime.YieldAcceptedIff` |
| ServiceLoop.EventLoop.HandleResume | actor/system_runtime.go:366-371 | A suspended activation moves to the tail of ready; any other resume changes nothing |
| ServiceLoop.EventLoop.HandleDone | actor/system_runtime.go:372-376 | A finished activation leaves current and suspended |
| ServiceLoop.EventLoop.AdmitterStep | actor/system_runtime.go:439-497 | An admitter takes a slot, or returns it when the loop is gone |
| ServiceLoop.EventLoop.Run | actor/system_runtime.go:315-380 | The whole imperative loop, over any script of events with admitters coming and going, computes what the loop function computes and returns when it may |
| ServiceLoop.LoopSimulation | actor/system_runtime.go:261-380 | In every state of every run of the machine, its loop is where the loop alone gets on the inputs projected from the run: at the top, past its scheduling pass, or returned |
| ServiceLoop.RunAllIsTheMachine | actor/system_runtime.go:261-380 | The loop alone, run on the inputs of any run, ends with the machine's variables and returns exactly when the machine's loop has |
| ServiceLoop.RunAllSafe | actor/system_runtime.go:261-380 | So scheduler safety, slot conservation, mailbox order and single answers hold of the loop's own variables |
| ServiceLoop.RunService | actor/system_runtime.go:261-380 | A new event loop object, run on the inputs of any run, has fields with those properties, and has returned only when no handler is live |
| CallSessions.ExactlyOnceSettlement | actor/system_runtime.go:499-541 | In every state a registered call is pending, completed or cancelled and only one of them, its channel gets at most one value and is empty when it does, a caller whose cancel failed has a value coming, and one that gave up never gets any |
| CallSessions.SettlementIsFinal | actor/system.go:305-328 | A call settled by completion or by cancellation stays so |
| CallSessions.UnknownCountsAbandonedCalls | actor/system.go:316-328 | Once admitted work is answered, the unknown-response count equals the number of admitted calls given up first |
| CallSessions.AnswersExactly | actor/system_runtime.go:272-284 | Over all paths, an envelope is answered exactly at the step in which it becomes over, so once |
| CallSessions.AnswersAreFailed | actor/system_runtime.go:272-284 | Besides a handler's own answer, the envelopes an action answers are exactly those the loop's record gains |
| CallSessions.SessionTable.RegisterSession | actor/system.go:307-309 | Registers a session with an empty one-place channel, as the session machine does |
| CallSessions.SessionTable.CancelSession | actor/system.go:311-314 | Cancel succeeds exactly when the session is still pending, and does what the session machine's cancel does |
| CallSessions.SessionTable.CompleteSession | actor/system.go:316-328 | Completion does what the machine's completion and delivery do: the only value on a pending session's channel, without blocking, or an unknown response counted |
| CallChain.NoSelfBlockingChain | actor/system.go:558-575 | Along any chain of nested requests of any reachable state, a handler reached by a call never runs in a NoInterleave service of an earlier handler of the chain |
| CallChain.PathIsAncestry | actor/system_runtime.go:104-110 | The path a handler's context carries is exactly the frames of its ancestors and itself, through calls and sends, local or encoded, under way and decoded |
| CallChain.CounterIsOpenSections | actor/system_runtime.go:112-125 | In every run the counter a handler is checked by is the number of NoYield sections its history entered and has not left |
| CallChain.NoYieldNeverDispatches | actor/system_runtime.go:112-163 | While the history has any NoYield section of a handler open, nested or not, no call of it is dispatched locally or sent to another node |
| CallChain.CallDispatchedIff | actor/system.go:558-575 | Of every call: it is dispatched, or sent to another node, if and only if the history has no NoYield section of its handler open, a local target is not a NoInterleave service that the handler or an ancestor runs in, and neither the suspend limit, the mailbox nor the transport refused it |
| CallChain.ArrivalAdmittedIff | actor/remote.go:157-179 | Of every remote request that arrives: it gets a handler if and only if, for a call, its target is not a NoInterleave service that its sender or an ancestor runs in, and the mailbox did not refuse it |
| CallChain.FlightsExact | actor/remote.go:157-179 | The requests under way to another node are exactly those the history sent there and has seen neither arrive nor get lost, each as it was made |
| CallChain.HandlersExact | actor/system_runtime.go:104-110 | Every handler runs the target of the request made for it, and its record says who made it and whether by call or by send |
| CallChain.DoingExact | actor/system_runtime.go:499-541 | A handler waits for a request from its call until the answer or until it gives up, and counts as returned if and only if it returned |
| CallChain.AnswersAreDue | actor/system_runtime.go:499-541 | An answer comes only when the request is no longer under way and the handler it reached, if any, has returned |
| CallChain.ReturnsOutsideSections | actor/system_runtime.go:112-125 | No handler returns from inside a NoYield section |
| CallChain.RefusalExact | actor/remote.go:160-163 | Of every cycle check of every run, at the caller or at the receiver: it refuses every request that would wait for itself, and refuses one without need if and only if the NoInterleave target is on the path only before the handlers that still wait, call by call, for the answer, through timeouts, cancellations and requests still under way |
| CallChain.RefusedAfterSend | actor/system_runtime.go:391-396 | The concrete refusal nobody needed: Send to a service whose handler calls back |
| CallChain.RefusedAfterTimeout | actor/system_runtime.go:524-540 | The same without any Send: a call that timed out, and whose handler, still running, calls back |
| CallChain.CallPathContains | actor/system_runtime.go:48-55 | Finds a frame of the given node and service if and only if the path has one |
| CallChain.ToWirePath | cluster/node.go:455-461 | One wire frame per frame, in order, with node, service and protocol |
| CallChain.FromWirePath | cluster/node.go:463-469 | One frame per wire frame, in order |
| CallChain.WireRoundTrip | cluster/node.go:455-469 | A path sent over the wire arrives unchanged |
| Drain.AccountingExact | actor/drain.go:36-140 | In every state pending is the number of unfinished tracked envelopes plus active permits, the zero channel is closed if and only if pending is 0, live activations are tracked, and the failure count is not negative |
| Drain.NeverClosedTwice | actor/drain.go:101-140 | Pending never goes below 0, and whenever it reaches 0 the channel being closed is still open |
| Drain.DrainStable | actor/drain.go:36-87 | Closed with nothing pending stays closed with nothing pending, and refuses every admission and reservation, until ResumeAdmission or MaintenanceWork |
| Drain.CapturedChannelStays | actor/drain.go:145-176 | The channel a Drain captured is the tracker's own for as long as nothing reopens admission |
| Drain.DrainReturnMeansDrained | actor/drain.go:145-176 | When Drain's wait ends, nothing is tracked, live or reserved, and it reports no failure if and only if no step since the Drain call that closed admission finished tracked work with an error and no step ever finished an active reservation with one |
| Drain.BooksExact | actor/drain.go:36-212 | The tracker's books as a function of the history: closed if and only if a Drain came after the last ResumeAdmission; an envelope is let in if and only if admission is open or its context carries a live activation or an active permit, and is tracked from then until its first finish; who is alive and which permits are active |
| Drain.ReportExact | actor/drain.go:101-178 | The failures a drain state reports are the failed finishes of tracked work since admission was last closed or reopened plus all failed reservations, counted from the history |
| Drain.DrainReturnsIff | actor/drain.go:145-166 | While nothing reopens admission, a Drain call can return if and only if every tracked envelope is finished and every permit given back |
| Drain.CallsAllowed | actor/drain.go:119-212 | A tracked envelope can be handed to its mailbox exactly once; admission can be reopened at any time and a Drain call begun whenever it is not under way |
| DrainService.TrackedExactly | actor/system_runtime.go:422-470 | With tracker and service running side by side, an envelope past its admission is tracked if and only if it has not been answered, and its activation counts as alive for just as long |
| DrainService.IdleAfterDrain | actor/drain.go:145-176 | When Drain returns and nothing reopened admission, no envelope of the service is being admitted, queued, running, waiting, resuming or parked, and none is again until admission is reopened |
| DrainService.FailuresExact | actor/system_runtime.go:272-284 | The failures the tracker has counted are exactly the envelopes the loop dropped, each once, plus the tracked work that ended with an error |
| DrainService.MineIff | actor/system_runtime.go:439-442 | The envelopes that may ask the service for a slot are exactly those whose tracking the run began |
| DrainService.ServiceRuns | actor/system_runtime.go:261-497 | The service's part of a run is a run of the service machine, so its theorems hold beside the tracker |
| DrainService.TrackerRuns | actor/drain.go:36-212 | The tracker's part of a run is a run of the tracker machine: the service does nothing to it that it does not allow |
| Drain.DrainTracker.constructor | actor/drain.go:31-35 | A new tracker is open, with nothing pending and its zero channel closed |
| Drain.DrainTracker.Track | actor/drain.go:36-61 | Admits and counts an envelope, or refuses it, as the machine does |
| Drain.DrainTracker.FinishEnvelope | actor/drain.go:119-140 | Uncounts a tracked envelope once, counts its failure if it failed, and closes the zero channel when it was the last; which failures count is `Drain.ReportExact` |
| Drain.DrainTracker.ReservePermit | actor/drain.go:72-87 | Hands out and counts a permit, or refuses it |
| Drain.DrainTracker.FinishPermit | actor/drain.go:101-118 | Uncounts a permit the first time only |
| Drain.DrainTracker.EnterMaintenance | actor/drain.go:180-191 | Maintenance holds a permit without asking whether admission is closed |
| Drain.DrainTracker.Reopen | actor/drain.go:203-212 | Reopens admission |
| Drain.DrainTracker.Close | actor/drain.go:145-156 | Closes admission and captures a channel that is closed if and only if nothing is in flight |
| Admission.Advance | cluster/drain.go:31-34 | The watermark moves over exactly the finished run that follows it |
| Admission.WatermarkIsLargest | cluster/drain.go:24-37 | The watermark is the largest k with 1..k all finished |
| Admission.AdmissionCounters.BeginAdmission | cluster/drain.go:12-23 | Hands out the next sequence, never one already finished |
| Admission.AdmissionCounters.FinishAdmission | cluster/drain.go:24-37 | The in-place loop leaves the watermark of everything finished so far, also when a sequence is finished again |
| Delivery.BarrierSoundness | cluster/drain.go:38-72 | In every run, a barrier reply received for a marker means every call and send enqueued on that lane before the marker has had its admission decided, whatever order the shards finish in; the other direction is `DeliveryExact.BarrierAnswerableIff` |
| Delivery.FlushSoundness | cluster/drain.go:74-118 | Whenever a flush of one receiving node has succeeded, first or later, every call and send enqueued on any of its lanes before it began has had its admission decided |
| FlushAll.EveryNodeFlushed | cluster/drain.go:74-118 | When FlushOutgoing has walked all nodes while all go on running, every call and send any lane of any node held at the move at which it began has had its admission decided, however earlier flushes ended |
| FlushAll.DoneWasBegun | cluster/drain.go:74-118 | A flush under way or through was begun by an earlier move, after which no other began |
| FlushAll.WalkGoesOn | cluster/drain.go:74-118 | In every state FlushOutgoing can begin when it is not under way, marks one lane after the other held up only by a full send queue or a missing reply, passes on to the next node as soon as one is flushed, and is through after the last |
| Delivery.WatermarkExact | cluster/drain.go:24-37 | In every run, 1..k are all finished if and only if k is at most admissionDone |
| Delivery.MailboxKeepsEnqueueOrder | cluster/dispatcher.go:42-78 | A sender's frames for one target reach the mailbox in the order they were enqueued on their one lane, whatever other senders' connections bring to the same shards |
| EndToEnd.StartsInSenderOrder | actor/remote.go:168-179 | With network and service running side by side, of two remote requests of one target whose handlers have started, the one enqueued first on their one lane started first |
| EndToEnd.NetRuns | cluster/dispatcher.go:42-162 | The network's part of a run is a run of the network machine, so its theorems hold beside the service |
| EndToEnd.ServiceRuns | actor/remote.go:168-179 | The service's part of a run is a run of the service machine |
| Delivery.SlotMeansRoom | cluster/dispatcher.go:42-71 | A job is accepted if and only if it has a target, a shard and a free slot: slots count the jobs queued or taken and not yet freed, so a shard's queue never refuses a job that got a slot |
| Delivery.PongMeans | cluster/inbound.go:97-127 | Why a reply suffices: the marker's sequence covers everything read before it, and reading is in enqueue order |
| Delivery.InvRun | cluster/inbound.go:85-130 | Nothing is lost or reordered between queue, wire and read loop, every job in a shard stands for an unfinished sequence, and slots count queued jobs, in every state of every run |
| DeliveryExact.BarrierAnswerableIff | cluster/drain.go:38-72 | In every run, a pending barrier can be answered if and only if every sequence handed to a request read before its marker is finished; later requests never hold it up |
| DeliveryExact.BarrierNeverStuck | cluster/dispatcher.go:63-162 | Whenever a pending barrier cannot be answered yet, some shard can take its next step on a job it has |
| DeliveryExact.MarkerFate | cluster/drain.go:38-72 | Every marker that was read has its barrier pending, its reply on the way or its reply received, unless it was read while another barrier was pending or its barrier expired |
| DeliveryExact.DecidedIff | cluster/inbound.go:97-127 | The admission of a request counts as decided if and only if a worker decided it or the read loop refused it at some step of the run |
| DeliveryExact.ReplyMeansDecided | cluster/drain.go:38-72 | Once a sender holds the reply for a marker, an earlier step of the run decided every call and send enqueued before it |
| DeliveryExact.FlushMeansDecided | cluster/drain.go:74-118 | When a flush has succeeded, an earlier step of the run decided every call and send its lanes held at the step at which it began |
| DeliveryExact.FlushToldByHistory | cluster/drain.go:74-118 | A flush marks the sender's lanes one after the other, each when the one before is answered, and has succeeded exactly when all of them are |
| DeliveryExact.SendQueueBounded | cluster/peer.go:111-134 | No send queue ever holds more than its capacity |
| DeliveryExact.MailboxExact | cluster/dispatcher.go:77-162 | The mailboxes have received exactly the jobs the workers admitted, in that order |
| DeliveryExact.RequestsKept | cluster/dispatcher.go:42-162 | No request that was read is lost: it is finished, or some shard has its job, under the sequence that counts the requests before it |
| Delivery.InboundDispatcher.Submit | cluster/dispatcher.go:42-62 | Queues the job at the tail of its target's shard and takes a slot, refusing only without target, shard or slot |
| Delivery.InboundDispatcher.TakeJob | cluster/dispatcher.go:64-70 | A worker takes the head of its queue, which keeps its slot |
| Delivery.InboundDispatcher.FreeSlot | cluster/dispatcher.go:71-72 | The worker then frees that slot, without blocking |
| PeerClose.NotificationFate | cluster/peer.go:111-262 | In every run a notification is written or reported at most once in total, a refused one neither, after close with the writer done every accepted one exactly once, and nothing but notifications is ever reported |
| PeerClose.FateIsFinal | cluster/peer.go:111-262 | A fate once reached never changes and an accepted item stays accounted for |
| PeerClose.CountsExact | cluster/peer.go:179-262 | An item counts as written once per write of it that succeeded, and a notification as reported once per write of it that failed and per time close's drain took it |
| PeerClose.DoorExact | cluster/peer.go:111-144 | An enqueuer is turned away at the door if and only if close has begun, and otherwise accepted or refused as its select went |
| PeerClose.WaitEndsIff | cluster/peer.go:136-197 | Close's wait can end if and only if close has begun it and no enqueuer is inside |
| PeerClose.QueueInOrder | cluster/peer.go:111-262 | What enqueue accepted is, in order, what the writer and close's drain took followed by what is still queued |
| PeerClose.NotificationsInOrder | cluster/peer.go:179-213 | The notifications of a queue are those of any front followed by those of the rest, a single item being one exactly if it is marked so |
| PeerClose.AtMostOneResult | cluster/peer.go:155-204 | However responses, removals and close interleave, a request's channel gets at most one result and is empty when it does |
| PeerClose.RequestsExact | cluster/peer.go:155-204 | The table told from the calls made on it: which requests are in it, which are about to get a result, how many results each got, and how many responses came late |
| PeerClose.EveryRequestSettled | cluster/peer.go:155-204 | Every request added is still registered, taken for an answer, answered by exactly one result or removed unanswered, and only one of these; so a response or close that finds a request does get it its result |
| PeerClose.SendQueue.ReportAll | cluster/peer.go:205-213 | Close empties the send queue and reports each notification in it once, in order |
| PeerClose.PendingTable.AddPending | cluster/peer.go:155-159 | Registers a new request |
| PeerClose.PendingTable.RemovePending | cluster/peer.go:161-165 | Forgets a request |
| PeerClose.PendingTable.Complete | cluster/peer.go:167-177 | Delivers a response to a pending request, or counts it late |
| PeerClose.PendingTable.FailAll | cluster/peer.go:198-204 | Close takes every pending request out and answers each once |
| DelayQueue.IndexedTaskHeap.Swap | timer/delay_queue.go:200-204 | Swapping two tasks and their index entries keeps the index the exact inverse and the deadlines the same |
| DelayQueue.IndexedTaskHeap.Push | timer/delay_queue.go:207-211 | Pushing adds exactly one id with its deadline and keeps heap order and index |
| DelayQueue.IndexedTaskHeap.DropLast | timer/delay_queue.go:214-222 | Dropping the last task drops exactly its id |
| DelayQueue.IndexedTaskHeap.Settle | timer/delay_queue.go:89-101 | Fixing one changed position restores heap order and keeps every deadline |
| DelayQueue.IndexedTaskHeap.RemoveAt | timer/delay_queue.go:76-86 | Removing at a position removes exactly that task and restores heap order |
| DelayQueue.RootIsEarliest | timer/delay_queue.go:180-222 | In a heap nothing is due before the root |
| DelayQueue.DelayQueue.Add | timer/delay_queue.go:63-73 | The queue is a map from id to deadline: Add sets one entry |
| DelayQueue.DelayQueue.Remove | timer/delay_queue.go:76-86 | Remove deletes one deadline and its memory of firing |
| DelayQueue.DelayQueue.Reschedule | timer/delay_queue.go:89-101 | Reschedule sets one deadline and deletes its memory of firing |
| DelayQueue.DelayQueue.CheckExpired | timer/delay_queue.go:126-146 | Pops exactly the ids due at or before now, in nondecreasing deadline order, and fires exactly those not suppressed; which those are over a run is `DelayQueue.FiresIff` |
| DelayQueue.DelayQueue.IsDeduped | timer/delay_queue.go:154-166 | Suppresses exactly an id recorded as fired less than the window ago, and records a fire otherwise; what the records mean is `DelayQueue.FiresIff` and `DelayQueue.RecordsExact` |
| DelayQueue.DelayQueue.CleanLastFired | timer/delay_queue.go:168-177 | Forgets exactly the fires that can no longer suppress anything |
| DelayQueue.FiresAWindowApart | timer/delay_queue.go:126-177 | In every run under a monotone clock, two fires of one id without Remove or Reschedule between them are at least the window apart |
| DelayQueue.FiresIff | timer/delay_queue.go:126-177 | From a queue without records and under a monotone clock, an id due at a check fires if and only if no earlier check fired it less than a window before, with no Remove or Reschedule of it in between |
| DelayQueue.RecordsExact | timer/delay_queue.go:154-177 | After a check the queue remembers exactly the fires less than a window old and not forgotten, and none without a window |
| DelayQueue.DeadlineIff | timer/delay_queue.go:63-146 | An id is due at t if and only if some Add or Reschedule said so and no later operation on it, nor a check at t or later, came after |
| TimingWheel.ReleasedOnTheTick | timer/timing_wheel.go:79-188 | In every run, an id added with a delay in (0, 1h] and not touched since is released on a tick if and only if it is the slotsAhead(delay)-th |
| TimingWheel.ReleasedIff | timer/timing_wheel.go:79-188 | From an empty wheel, a tick releases an id if and only if its last schedule, not removed since, was for that tick; an Add with a past deadline or one above the hour never makes the wheel release anything |
| TimingWheel.ScheduleHolds | timer/timing_wheel.go:79-134 | Until that tick the id stays scheduled for the same absolute tick, and afterwards it is gone |
| TimingWheel.SlotsAheadRange | timer/timing_wheel.go:79-88 | A delay in (0, 1h] lies between 1 and 3600 slots ahead, less than a second from the delay: not after it from one second on, after it below |
| TimingWheel.SlotIsReleased | timer/timing_wheel.go:183-188 | The slot the tick reaches holds exactly the ids due at that tick, 3600 ahead included |
| TimingWheel.AddReplacesIff | timer/timing_wheel.go:90-108 | Adding leaves the new schedule as the only one if and only if the delay is positive or the id was not scheduled |
| TimingWheel.PastDeadlineFiresTwice | timer/timing_wheel.go:95-100 | A concrete past-deadline Add that fires at once and again from the old entry |
| TimingWheel.TimingWheel.Add | timer/timing_wheel.go:90-108 | The slots after Add are those of the map from id to absolute due tick; a delay of at most zero fires at once, one above the hour is out of range, and both leave the wheel as it was |
| TimingWheel.TimingWheel.RemoveFromSlots | timer/timing_wheel.go:125-134 | Removing the first occurrence removes the id, because every id occurs at most once |
| TimingWheel.TimingWheel.Tick | timer/timing_wheel.go:183-188 | A tick returns exactly the ids due at it, each once |
| IdGenerator.IDGenerator.constructor | timer/id_generator.go:35-49 | The stored node id is the given one reduced to its field |
| IdGenerator.IDGenerator.NextID | timer/id_generator.go:64-102 | The loop over clock readings returns what the specification of one call returns, errors included |
| IdGenerator.AwaitLater | timer/id_generator.go:86-91 | Reads the clock until it is past the last millisecond used, and takes that reading |
| IdGenerator.IdsStrictlyIncrease | timer/id_generator.go:64-102 | Under any clock, ids of successful calls strictly increase while elapsed time fits its 42 bits |
| IdGenerator.StampMovesForward | timer/id_generator.go:64-102 | Every call that takes a stamp moves (millisecond, sequence) forward, and a clock moved back changes nothing |
| IdGenerator.ClockMovedBackIff | timer/id_generator.go:71-82 | A call fails because the clock moved back if and only if its first reading is more than five milliseconds behind the last time used, for any step back whose nanoseconds fit 64 bits |
| IdGenerator.HugeStepBackGoesUnnoticed | timer/id_generator.go:72-76 | Beyond that the nanoseconds wrap: a concrete step back of 584 years is not reported |
| IdGenerator.StampExact | timer/id_generator.go:64-97 | A call that does not fail stamps a new millisecond with sequence 0, the last one with the next sequence, and once that is used up the first later reading with 0; it returns an id if and only if that time is not before the epoch |
| IdGenerator.SequenceCounts | timer/id_generator.go:64-102 | In every run the sequence of an id is the number of ids returned before it for the same millisecond |
| IdGenerator.PackDecodes | timer/id_generator.go:10-17 | An id decodes to its elapsed time, node and sequence |
| IdGenerator.WordIsPack | timer/id_generator.go:98-102 | The bitwise or of the shifted fields, cut to 64 bits, is the sum that the specification of an id uses |
| IdGenerator.IdsDecode | timer/id_generator.go:64-102 | Every id a run returns decodes to the millisecond and sequence of its call and to the stored node id |
| IdGenerator.NodesNeverCollide | timer/id_generator.go:35-102 | Two generators with different stored node ids never return the same id, in any runs |
| Ledger.LedgerPartition | timer/redisqueue/queue.go:44-154 | In every run a data record is in exactly one of Pending and Processing, each Processing entry has metadata with its deadline, and a business id belongs to one record |
| Ledger.ClaimsAreExclusive | timer/redisqueue/queue.go:44-113 | Two successful claims of one timer are separated by a fresh Add or by a requeue no earlier than the first claim's deadline |
| Ledger.OnlyTheOwnerCompletes | timer/redisqueue/queue.go:58-87 | While a claim stands, completion succeeds if and only if the record exists and the owner asks |
| Ledger.PendingCompletesIff | timer/redisqueue/queue.go:62-71 | A pending timer can be completed by an owner if and only if no claim metadata of another owner is left |
| Ledger.StaleClaimBlocksCompletion | timer/redisqueue/queue.go:68-70 | A concrete pending timer that nobody but its former claimant can complete |
| Ledger.PruningIsIdle | timer/redisqueue/queue.go:313-318 | The clean-up on load never finds anything to remove |
| Ledger.AddReplacesExactly | timer/redisqueue/queue.go:128-154 | In every reachable store an Add takes out another record if and only if the index leads from its business id to it, and leaves all others as they were |
| Ledger.FiledAsAdded | timer/redisqueue/queue.go:119-154 | In every run a timer in the ledger has the due time and business id of its last Add, and while pending it is filed under that due time |
| Ledger.PlacesExact | timer/redisqueue/queue.go:44-206 | Of every step of every run, exactly which timers it leaves recorded and pending: an Add makes its timer pending, a claim takes a pending one and always succeeds on one, a requeue brings one back whose deadline has passed, and nothing else changes place |
| Ledger.ClaimsExact | timer/redisqueue/queue.go:44-154 | The metadata of a claim is kept if and only if the claim was made and no completion by its owner, replacing Add, requeue after its deadline or new claim cleared it since |
| Ledger.OthersUntouched | timer/redisqueue/queue.go:44-206 | An operation leaves every other timer that it does not take out exactly as it was |
| Ledger.AddReplacesOwnBusinessIff | timer/redisqueue/queue.go:128-144 | An Add takes out the active timer of its own business id and no other if and only if its index entry is not stale, or names the timer being added |
| Ledger.AddDropsOtherBusiness | timer/redisqueue/queue.go:130-137 | The concrete failure: a timer moved from one business id to another is thrown out by a new timer of the first |
| Ledger.IndexExactIff | timer/redisqueue/queue.go:147-151 | Over a run, every index entry leads to the record of its business id if and only if no Add ever filed a timer still in the ledger under another business id |
| Ledger.RedisLedger.AddTimer | timer/redisqueue/queue.go:119-154 | The lookup and two pipelines of Add do to the five stores what the machine's Add does; what that files is `Ledger.FiledAsAdded` and `Ledger.PlacesExact` |
| Ledger.RedisLedger.RemoveByTimerID | timer/redisqueue/queue.go:186-206 | Removes the record from every set and its index entry |
| Ledger.RedisLedger.ClaimForProcessing | timer/redisqueue/queue.go:44-56 | Moves a pending timer to Processing with its metadata, or fails |
| Ledger.RedisLedger.CompleteProcessing | timer/redisqueue/queue.go:58-87 | Removes a record its claimant completes, or fails |
| Ledger.RedisLedger.RequeueTimer | timer/redisqueue/queue.go:89-113 | Moves an expired claim back to Pending at its record's own due time, or fails |
| Ledger.RedisLedger.RequeueExpired | timer/redisqueue/queue.go:246-266 | For any list of ids, however stale, the loop is one requeue after another and counts those that moved their timer |
| Ledger.RequeueAllExact | timer/redisqueue/queue.go:246-266 | From a listing of expired claims, every listed timer and no other goes back to pending at its own due time, and all are counted |
| WaitGraph.EdgeClosesCycleIff | observe/waitgraph/monitor.go:27-39 | In an acyclic graph an edge, even one that overwrites another, closes a cycle if and only if its end reaches its start |
| WaitGraph.AlwaysAcyclic | observe/waitgraph/monitor.go:27-63 | Every sequence of BeginWait, EndWait and Reset leaves the graph acyclic |
| WaitGraph.EdgesExact | observe/waitgraph/monitor.go:27-63 | The graph has an edge if and only if some BeginWait for it was granted, being between different nonzero ids and closing no cycle, and no EndWait of it, Reset or other granted wait of the same waiter came since |
| WaitGraph.RemovalKeepsAcyclic | observe/waitgraph/monitor.go:42-52 | Removing an edge closes no cycle |
| WaitGraph.Monitor.CanReach | observe/waitgraph/monitor.go:65-79 | The walk ends, and decides reachability |
| WaitGraph.Monitor.BeginWait | observe/waitgraph/monitor.go:27-39 | Refuses a nonzero non-self edge if and only if recording it would close a cycle, and then records nothing |
| WaitGraph.Monitor.EndWait | observe/waitgraph/monitor.go:42-52 | Removes the edge only if it is the registered one |
| WaitGraph.Monitor.Reset | observe/waitgraph/monitor.go:55-63 | Leaves no edge |
| Retrier.AttemptsBounded | actor/dispatch_retrier.go:102-145 | In every run a task is attempted at most the sum over levels of max(1, MaxTries) times, and exactly that often when it is given up as exhausted |
| Retrier.TasksConserved | actor/dispatch_retrier.go:102-145 | A task is at one position of one queue, or in the hand of one level, or over, and never in two of them |
| Retrier.LevelNeverFalls | actor/dispatch_retrier.go:112-143 | A task's level never falls, and a fate is final |
| Retrier.BatchTakesEachOnce | actor/dispatch_retrier.go:102-111 | A batch takes the head of its queue, never attempts one task twice and never finds its snapshot short, however the levels interleave |
| Retrier.BatchTakesTheSnapshot | actor/dispatch_retrier.go:87-145 | When a batch ends, the tasks it took are exactly those queued when its tick came, and the level is ready for its next tick |
| Retrier.RoundIsTakeAndReturn | actor/dispatch_retrier.go:102-143 | A round of the batch loop is the machine's take of the queue's head followed by the return of its function |
| Retrier.AttemptsExact | actor/dispatch_retrier.go:102-125 | The attempts of a task are the times its function has returned |
| Retrier.ReturnExact | actor/dispatch_retrier.go:112-143 | After the n-th attempt of a task: success ends it; failure sends it to the end of the same queue while the levels so far allow more than n attempts, to the next level's otherwise, and gives it up after the last level; a full queue drops it |
| Retrier.EnqueueExact | actor/dispatch_retrier.go:78-85 | A new task goes to the end of the first queue, or is dropped when that is full |
| Retrier.DispatchRetrier.EnqueueTask | actor/dispatch_retrier.go:78-85 | Offers a task to the first level, dropping it when full |
| Retrier.DispatchRetrier.SettleTask | actor/dispatch_retrier.go:112-143 | Retries, moves on, drops or ends a task as the machine does |
| Retrier.DispatchRetrier.ProcessBatch | actor/dispatch_retrier.go:102-145 | With other goroutines offering and taking between its rounds, the batch loop runs exactly the tasks queued when it began, each once and in order, and settles each as the machine does |
| Framing.StreamRoundTrip | frame/frame.go:35-104 | Reading the concatenated frames of any payloads within the limit returns exactly those payloads and a clean end |
| Framing.CutStreamRoundTrip | frame/frame.go:35-56 | A stream cut anywhere yields exactly the payloads whose frames are whole |
| Framing.ReportedFramesAreRead | frame/frame.go:65-104 | Whatever a writer emitted before failing, the reader gets every payload reported as written and nothing but payloads sent |
| Framing.ReadCutFrame | frame/frame.go:35-56 | A cut frame never yields a payload; it reads as a clean end if and only if the cut is at the start or right after the header |
| Framing.ReadOversizedIff | frame/frame.go:35-56 | A frame is refused as too large if and only if its header says more than the limit, which is 4 MiB when none is given, whatever follows |
| Framing.StreamStopsAtOversized | frame/frame.go:35-56 | A reader that meets a frame above its limit has returned exactly the payloads before it and stops there |
| Framing.HeaderRoundTrip | frame/frame.go:35-88 | The four header bytes decode to the length they encode |
| Framing.HeaderIsBigEndian | frame/frame.go:35-88 | The header is the length in network byte order, and no other four bytes are |
| Framing.Writer.WriteFull | frame/frame.go:90-104 | However writes are split, success means all bytes were emitted once in order and every answer of the writer took something without an error; failure means a prefix of them, and that the last answer failed or took nothing |
| Framing.Writer.WriteLimit | frame/frame.go:65-88 | Refuses exactly payloads above the limit (4 MiB when none is given), emitting nothing; otherwise reports success only for a whole frame, and failure only when the writer failed or took nothing |
| Framing.Writer.WriteAll | frame/frame.go:65-104 | A sequence of frames written until the first failure |
| Framing.Reader.ReadOne | frame/frame.go:35-56 | The in-place reader computes the reading function and leaves the rest of the input |

## Left out

- Sockets, dialing, TLS, heartbeats, jitter, logging and metrics: outside the logic; timeouts and cancellations are free steps of the run.
- Handlers that outlive their activation, and waits that panic: each activation is taken to be one sequential handler whose waits return.
- Global deadlock freedom: two NoInterleave services calling each other from different roots are broken only by a timeout, in the code and in the model.
- Counter widths: segment, version, session, request and sequence counters are unbounded; only the id generator's 42, 10 and 12 bit fields and the frame header's 32 bits are modelled as such.
- ServiceRuntime.Enabled and the other step relations: the event loop, peer, dispatcher and network are modelled on values, one step per locked section or channel operation, so aliasing inside a step is not captured; the classes beside them cover the in-place code.
- Delivery.Apply: submit, which takes a slot and then queues the job, is one step; the queued counter and the call semaphore are not modelled, a refused call being one of the ways a worker may decide.
- FlushAll.EveryNodeFlushed: speaks of connected lanes; the early error for a peer that was connected once and is not now returns before any marker is sent, and reconnects (order across connections) are not modelled.
- Admission.AdmissionCounters.FinishAdmission: asks for a sequence that was handed out, as every caller has; finishing one that was not is not modelled.
- PeerClose.NotificationFate: the control queue carries no notifications and is not modelled.
- EndToEnd.StartsInSenderOrder: a worker's admission and the loop's receiving the envelope are one step; the time in between, when the worker waits for a slot, is the slot's own step.
- ServiceLoop.EventLoop.AnswerPending: the answer itself (finishing the drain envelope, completing the session) is the loop's record here; `CallSessions.AnswersAreFailed` ties that record to the sessions.
- CallChain.PathIsAncestry: a handler makes one request at a time and none after it has returned, and contexts derive from the handlers' own; a context whose path was set by hand is not modelled.
- TimingWheel.ReleasedOnTheTick: the wheel's own duplicate suppression after release is not modelled; the delay queue's is.
- Ledger.Apply: each pipeline is one step, one uid at a time, with exact integer scores; JSON number precision and partial pipeline failures are not modelled, and the ids a requeue loop was given are a parameter.
- Retrier.DispatchRetrier.ProcessBatch: the outcome of each attempt, and what other goroutines do between two rounds, are parameters.
- Framing.Writer.Write: what the underlying writer answers is a script; it takes at most what it is given, as the io.Writer contract says.
- Timer engine promotion, task codecs, registry, gate, app, connection pools and generated code: easy members or library wrappers.
