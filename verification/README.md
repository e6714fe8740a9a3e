# Verification of the webrtc-node core

A Dafny model of the stateful core of a WebRTC binding for Node.js, and proofs about it:

- **Inbound messages.** `EventDispatcher` models the native side, where any thread emits and the
  JavaScript thread drains. `InboundChannel` models the JavaScript buffers of one channel: the events
  of a channel not yet registered, the events held back until the announcement, and the message queue
  with its gates, direct dispatch and compaction. `DispatcherProtocol` and `InboundOrder` prove that nothing
  is lost, doubled or reordered, `InboundProgress` that nothing gets stuck; `InboundQueues` is the class
  with the loops, `InboundPipeline` puts both sides together and `InboundClosing` follows a close event
  through them. `InboundGates` says what holds messages back, `InboundTasks` where a task ends and how the ready
  state moves, `DispatcherLosses` what a refusing queue costs.
- **Outbound messages.** `OutboundChannel` has `send`, the promise chain, `close` and the byte counters
  behind `bufferedAmount`; `OutboundClosing` follows a close to the native channel, `OutboundAccount` the bytes. `AsyncSender`
  is the native sender thread, and `WireOrder` composes it with the channel.
- **Native teardown.** `PeerTeardown` interleaves adding channels, their own closing and the shutdown.
- **Signalling.** `Signaling` has the description slots and the set-description calls, `SignalingResults` how they end.
- **Descriptions.** `Sdp` parses and prints, `SdpCandidates` edits candidate lines, `CandidateEdits` says what the edits mean
  line by line.
- **Stream ids.** `DataChannelIds` has the lazily refreshed index and the assignment of ids.
- **Sharded conformance runs.** `ListScheduling`, `WptSharding`, `WptMerge` and `ShardedRun` have the
  scheduler, the merge and the way each shard picks its tests; `SchedulingOrder` and `FirstComplaints` say what decides a
  schedule and an error.

A protocol is a state, a step relation written as a total function `Next`, and theorems over `Run`, every
finite sequence of steps. Foreign answers (what the native side reports, whether a queue accepts an item,
what user code does) are part of a step. The classes change their fields in place, and each method states
its new state through the function the theorems are about. `Wrappers`, `Permutations` and `Subsequences` are shared helpers.

## What the proofs found

- A callback that throws stops a dispatcher for good (`DispatcherProtocol.ThrowingCallbackEndsDelivery`).
- An event overtakes messages exactly when it is emitted while a callback runs with messages behind it
  (`DispatcherProtocol.EventOvertakesExactly`). The JavaScript buffers do not restore that order: a close can end the
  channel before a message sent earlier (`InboundClosing.EarlyCloseLosesAMessage`), and only then
  (`InboundClosing.CloseArrivesAfterItsMessagesExactly`, `InboundClosing.CloseActsAfterItsMessages`).
- A rollback does not clear the flag of an ICE-restart offer made without native support. The signalling
  state is then wrong (`Signaling.StepStaysConsistentExactly`, `Signaling.GlareDuringRestartMisreports`).
- An answer created by the connection itself for a second offer counts as already applied and is not put
  into force (`Signaling.AnswerTakesEffectExactly`, `Signaling.RenegotiatedAnswerIsDropped`).
- A paired receipt takes its bytes off `bufferedAmount` even when a flush has already done so: the amount then says less than
  is still on its way (`OutboundAccount.ReceiptKeepsAccountExactly`, `OutboundAccount.LateReceiptUndercounts`).
- A flush stops when a handler begins an operation, the direct dispatch of a batch does not
  (`InboundGates.FlushStopsAtOperation`, `InboundGates.BatchPassesOperation`).
- The cap of the sender thread counts only the queue (`AsyncSender.InFlightBoundIsReached`).
- With a repeated mid, candidates of the later section are lost when they are split off and appended again
  (`SdpCandidates.CandidateSplitIsLossless`).
- Test identities are injective only without NUL characters (`WptSharding.IdentityCollision`).

## Model

| member | source | states |
|---|---|---|
| ListScheduling.LptWithinFourThirdsOptimal | scripts/wpt-sharding.js:64-73 | Heaviest-first greedy placement from empty shards: for every rival assignment finishing by T, 3m times any shard's load is at most (4m-1)T (Graham's bound) |
| ListScheduling.LargeLastWeightFits | scripts/wpt-sharding.js:64-73 | When the last, lightest weight exceeds a third of T, the shard it goes to ends at or below T: the pigeonhole half of the bound |
| ListScheduling.LptFromEmptyShards | scripts/wpt-sharding.js:44-73 | The same bound when the initial loads are given and all zero |
| ListScheduling.LptBoundIsAttained | scripts/wpt-sharding.js:64-73 | Five weights on two shards reach the bound with equality, so no smaller factor holds |
| ListScheduling.GreedyWithinTwiceOptimal | scripts/wpt-sharding.js:44-73 | From any initial loads and in any order, m times any shard's load is at most (2m-1)T for every rival with the same initial loads |
| ListScheduling.GreedyKeepsSpread | scripts/wpt-sharding.js:67-73 | The gap between two shards never exceeds the larger of the initial gap and the largest weight |
| ListScheduling.LoadsConserveWeight | scripts/wpt-sharding.js:72-72 | Placing weights adds exactly their sum to the total load |
| ListScheduling.LoadIsShardWeight | scripts/wpt-sharding.js:72-72 | A shard's load is its initial load plus the weights sent to it |
| WptSharding.TestIdentity | scripts/wpt-sharding.js:5-13 | An empty file is reported first, then an empty name; else the two joined with a NUL |
| WptSharding.IdentityCollision | scripts/wpt-sharding.js:5-13 | Two pairs have the same identity exactly when they are equal or one file name continues the other across a NUL |
| WptSharding.IdentityInjective | scripts/wpt-sharding.js:5-13 | Without a NUL in the files or the names, identities are injective |
| WptSharding.ShardForTest | scripts/wpt-sharding.js:15-27 | Refuses a shard count below one, then empty names; else the 32-bit FNV-1a hash of the identity modulo the count, below the count |
| WptSharding.AssignWptSpecGroups | scripts/wpt-sharding.js:29-76 | Fails exactly on a bad count, bad loads or the first bad group, with that error; else returns the greedy schedule over the sorted groups |
| WptSharding.CheckGroups | scripts/wpt-sharding.js:48-63 | Finds the first group without key, with negative weight or with a repeated key, or none |
| WptSharding.PadLoads | scripts/wpt-sharding.js:44-44 | Initial loads filled up with zeros to one per shard |
| WptSharding.LeastLoaded | scripts/wpt-sharding.js:67-70 | The first of the least loaded shards |
| WptSharding.PlaceGroups | scripts/wpt-sharding.js:66-73 | The loop over the ordered groups gives every key its greedy target and the loads that go with it |
| WptSharding.NoComplaintMeansValid | scripts/wpt-sharding.js:46-63 | The group checks pass exactly when keys are distinct and non-empty and weights are not negative |
| WptSharding.SortedHeaviestFirst | scripts/wpt-sharding.js:64-64 | The comparator puts heavier groups first, whatever the order of keys |
| WptSharding.LoadsAreTheAssignedWeights | scripts/wpt-sharding.js:66-75 | Every group is assigned once, to a shard that exists, and every reported load is the initial load plus the weights assigned to that shard |
| WptSharding.TotalLoadConserved | scripts/wpt-sharding.js:66-75 | The final loads add up to the initial ones plus all weights |
| WptSharding.ScheduleWithinTwiceAnyPlan | scripts/wpt-sharding.js:29-76 | The schedule against every rival plan with the same initial loads: m times any load is at most (2m-1)T |
| WptSharding.LptScheduleWithinFourThirdsOfAnyPlan | scripts/wpt-sharding.js:29-76 | With all initial loads zero: 3m times any load is at most (4m-1)T, against every rival plan |
| WptSharding.SchedulePreservesBalance | scripts/wpt-sharding.js:29-76 | The spread of the final loads is at most the larger of the initial spread and the largest weight |
| SchedulingOrder.HashIsFnv1a | scripts/wpt-sharding.js:18-25 | The published FNV-1a value of a text, and the round for every further code unit |
| SchedulingOrder.ScheduleIgnoresTheOrder | scripts/wpt-sharding.js:64-75 | For every linear order of keys the groups are sorted by weight and then key, and the schedule does not depend on the order in which they are given |
| SchedulingOrder.RoundTakesCodeUnit | scripts/wpt-sharding.js:20-23 | A value that shows a round takes in the whole 16-bit code unit |
| SchedulingOrder.ShardIsTheRemainder | scripts/wpt-sharding.js:15-27 | What is hashed for a test is its file, a NUL and its name; the shard is the remainder modulo the count |
| WptMerge.MergeWptSummaries | scripts/wpt-sharding.js:78-118 | Succeeds exactly on mergeable artifacts and else reports the first fault; the results are sorted, total and shard count match, pass and fail are counted |
| WptMerge.AddResults | scripts/wpt-sharding.js:92-100 | Adds the results of one artifact up to the first empty or repeated identity, which it reports |
| WptMerge.NoComplaintMeansMergeable | scripts/wpt-sharding.js:85-101 | No fault is found exactly when totals match, names are not empty and identities are distinct across artifacts |
| WptMerge.SortOrders | scripts/wpt-sharding.js:104-109 | For every total preorder in place of localeCompare the results come out ordered by file, name, status, and as a permutation |
| WptMerge.CountMatching | scripts/wpt-sharding.js:113-114 | The number of results with a status |
| WptMerge.CountIsMultiplicity | scripts/wpt-sharding.js:113-114 | The count of a status is how often it occurs among the results |
| WptMerge.CountPermutes | scripts/wpt-sharding.js:111-117 | The counts do not depend on the order of the results |
| FirstComplaints.ComplaintIsTheFirst | scripts/wpt-sharding.js:48-63 | The complaint about groups is the one of the first group at fault: before it all are valid |
| FirstComplaints.ResultComplaintIsTheFirst | scripts/wpt-sharding.js:92-100 | Likewise for results: no file, no name, or a test already seen |
| FirstComplaints.SummaryComplaintIsTheFirst | scripts/wpt-sharding.js:85-101 | Likewise for the artifacts, a wrong total before any result of theirs |
| ShardedRun.DecimalValue | scripts/run-wpt-subset.js:1062-1064 | The decimal digits of an index determine it |
| ShardedRun.SpecGroupKeysDiffer | scripts/run-wpt-subset.js:1062-1064 | Group keys of different positions differ, even for the same file |
| ShardedRun.SpecGroupsAreValid | scripts/run-wpt-subset.js:1014-1031 | The groups a run builds always pass the checks of the scheduler |
| ShardedRun.PlanCoversGroups | scripts/run-wpt-subset.js:1033-1033 | Every grouped spec gets a shard below the count |
| ShardedRun.PlanInputs | scripts/run-wpt-subset.js:1012-1031 | The loop yields the failures of shard 0, the initial loads and the groups; it fails exactly when a test cannot be hashed |
| ShardedRun.CountTests | scripts/run-wpt-subset.js:1019-1024 | Adds one to the shard of every test of an isolated file |
| ShardedRun.SelectAll | scripts/run-wpt-subset.js:1034-1059 | Runs over the discoveries and collects what this shard owns |
| ShardedRun.SelectUnits | scripts/run-wpt-subset.js:1036-1058 | For one spec: the tests hashed to this shard, or the whole spec when its group is assigned to it |
| ShardedRun.RunSharded | scripts/run-wpt-subset.js:1001-1060 | A shard runs exactly the units it owns under the common plan, in discovery order, unless a test cannot be hashed |
| ShardedRun.ShardsPartitionTheRun | scripts/run-wpt-subset.js:1001-1060 | A unit is part of the unsharded run exactly when some shard runs it, and no two shards run it |
| ShardedRun.EveryTestRunsOnOneShard | scripts/run-wpt-subset.js:1001-1060 | Test by test: selected exactly when some shard runs it, and by one shard only |
| ShardedRun.IsolatedTestGoesToItsHash | scripts/run-wpt-subset.js:1036-1048 | A test of an isolated file is run by the shard that the hash of its file, search part and name gives |
| ShardedRun.UnitsAreExactly | scripts/run-wpt-subset.js:1012-1058 | A run consists exactly of the failed discoveries, the tests of isolated files, and the other specs that have tests |
| ShardedRun.ShardRunsItsLoad | scripts/run-wpt-subset.js:1012-1059 | The number of tests a shard runs is the load the scheduler predicted for it |
| ShardedRun.MergedReportIsTheWholeRun | scripts/run-wpt-subset.js:1001-1060 | With distinct identities the artifacts of shards 0..n-1 merge into a sorted permutation of the unsharded results with the same totals |
| EventDispatcher.Dispatcher.Emit | src/native/addon.cc:342-363 | A message is queued behind one scheduled dispatch; any other event goes the direct way; nothing once closed |
| EventDispatcher.Dispatcher.EmitDirect | src/native/addon.cc:365-376 | A direct event becomes its own queue item if the dispatcher is active and the queue takes it |
| EventDispatcher.Dispatcher.QueueDispatchLocked | src/native/addon.cc:422-430 | A refused dispatch clears the flag and drops the pending messages |
| EventDispatcher.Dispatcher.Close | src/native/addon.cc:378-386 | Closing drops pending messages and the flag |
| EventDispatcher.Dispatcher.TakeItem | src/native/addon.cc:394-403 | A drain swaps the pending batch out, or clears the flag if there is none |
| EventDispatcher.Dispatcher.FinishDrain | src/native/addon.cc:414-419 | After the callback: clear the flag, or queue the next dispatch |
| EventDispatcher.StepKeepsProtocol | src/native/addon.cc:342-430 | Every step of any thread keeps the dispatcher protocol, if the queue accepts and the callback returns |
| DispatcherProtocol.ProtocolHoldsOnEveryRun | src/native/addon.cc:342-430 | On every interleaving: while active, delivered, running batch and pending are the accepted messages in order; pending messages have exactly one dispatch on its way; closed, a prefix |
| DispatcherProtocol.JsThreadDeliversEverything | src/native/addon.cc:394-430 | From every such state the JavaScript thread alone delivers all accepted messages |
| DispatcherProtocol.ThrowingCallbackEndsDelivery | src/native/addon.cc:405-419 | Once a callback throws, no continuation of the run delivers another message: the hypothesis on the callback cannot be dropped |
| DispatcherProtocol.DirectEventDoesNotOvertake | src/native/addon.cc:342-376 | An event emitted while no callback runs, or while no message is pending, is taken only after every message accepted before it |
| DispatcherProtocol.EventOvertakesExactly | src/native/addon.cc:342-430 | On every run up to the moment the event's item is next, the messages accepted before it have all been delivered, unless a callback was running with messages pending at the emission, and then they have not |
| DispatcherProtocol.EventIsReached | src/native/addon.cc:394-430 | That moment always comes by the JavaScript thread alone |
| DispatcherProtocol.EventOvertakesDuringCallback | src/native/addon.cc:365-419 | From every state with a callback running and messages pending, the JavaScript thread comes to an event emitted there before it has delivered them |
| DispatcherProtocol.DirectEventOvertakesDuringCallback | src/native/addon.cc:342-419 | A run from the start: the event's item is next to be taken while the second of the two messages emitted before it is undelivered |
| DispatcherProtocol.CallbackWithPendingIsReachable | src/native/addon.cc:342-363 | Such a state is reached by a message, its callback and a second message |
| DispatcherLosses.RefusalLosesExactly | src/native/addon.cc:342-430 | What each step loses when the queue refuses items: the message whose dispatch is refused, what waits when the next dispatch is refused, what waits at the close, and nothing else |
| DispatcherLosses.RefusalsKeepOrder | src/native/addon.cc:342-430 | On every run with refusals: delivered, running and pending messages are a subsequence of the accepted ones, and pending messages have their dispatch on its way |
| DispatcherLosses.DirectEventsAreOneFifo | src/native/addon.cc:365-376 | On every run, throwing callbacks included: the other events the queue took are handed over in order, once each |
| InboundChannel.ActAllKeeps | lib/index.js:2413-2424 | User code, whatever it does, keeps every wake-up and never un-closes the channel |
| InboundChannel.FlushKeepsInv | lib/index.js:2283-2338 | The flush loop keeps the invariant for every behaviour of the handlers, through gates, compaction and handler changes |
| InboundChannel.DispatchBatchKeepsInv | lib/index.js:2372-2388 | The direct dispatch of a batch keeps the invariant, also when a handler closes the channel or forces the rest into the queue |
| InboundChannel.HandleBatchKeepsInv | lib/index.js:4708-4742 | A message batch keeps the invariant whichever of the three buffers takes it |
| InboundChannel.HandleEventKeepsInv | lib/index.js:1943-1985 | A single event keeps the invariant, queued or processed |
| InboundChannel.AnnouncementTaskKeepsInv | lib/index.js:4871-4888 | The announcement task keeps the invariant with user code before and in it |
| InboundChannel.FinishKeepsInv | lib/index.js:3733-3746 | The end of the last operation posts the callbacks and keeps the invariant |
| InboundChannel.DrainKeepsInv | lib/index.js:2197-2211 | A task of the drain after the announcement keeps the invariant |
| InboundChannel.RegisterKeepsInv | lib/index.js:4626-4634 | Registering an incoming channel moves its early events and keeps the invariant |
| InboundChannel.StepKeepsInv | lib/index.js:1943-2424 | Every step of the channel, its peer and the user keeps the invariant while the channel is not closed |
| InboundOrder.ChannelIsOneFifo | lib/index.js:1943-2424 | On every run of an unclosed channel: delivered, the queue from its index, and the messages of both native queues are together the messages that arrived, each once, in order |
| InboundOrder.CloseWaitsForItsMessages | lib/index.js:1987-2023 | A deferred close that changes the channel acts on a close event all of whose preceding messages have been dispatched |
| InboundProgress.FinishAll | lib/index.js:3733-3754 | Completing a peer's operations posts the flush that waited for them, and holds nothing else back |
| InboundProgress.NextFlushIsOnItsWay | lib/index.js:2223-2411 | No lost wake-up: with undispatched messages, timers and completing operations lead to a scheduled flush that nothing holds back, with no buffer changed |
| InboundProgress.DispatchSome | lib/index.js:2283-2338 | From there the flush dispatches at least one message |
| InboundProgress.PollMovesOnExactly | lib/index.js:1996-2023 | Exactly when a close poll acts, and what it does: an open channel goes to closing, any other one is closed, a suppressed close is dropped, and the next close event can start a new poll |
| InboundProgress.RemoteCloseTakesEffect | lib/index.js:1979-2023 | From any state in which a close event has been heard: the event loop delivers everything that arrived, and then an unsuppressed poll takes an open channel to closing, any other one to closed |
| InboundProgress.EverythingIsDelivered | lib/index.js:2197-2411 | From any state of a registered channel the event loop delivers every message that arrived, unless a handler closes the channel |
| InboundGates.NothingIsDispatchedToNobody | lib/index.js:2401-2411 | On every run of an incoming channel that never has a consumer of messages, until the timer of the consumer gate fires, nothing is dispatched |
| InboundGates.AnnouncementComesFirst | lib/index.js:2390-2399 | On every run of an incoming channel that has dispatched a message, its announcement came before, and two of the timers started then have fired since |
| InboundGates.OperationsHoldMessages | lib/index.js:2291-2300 | In no state does a step dispatch a message while the own or the paired peer has an operation pending |
| InboundGates.FlushStopsAtOperation | lib/index.js:2283-2338 | A flush ends with the message whose handler begins an operation |
| InboundGates.BatchPassesOperation | lib/index.js:2372-2387 | The direct path does not: the rest of its batch is dispatched although handlers begin operations |
| InboundTasks.ClosedHandlesNothing | lib/index.js:2285-2289 | A closed channel dispatches nothing, and its flush drops the queue |
| InboundTasks.FlushEnds | lib/index.js:2333-2336 | No message is dispatched in the same flush after one whose handler closes the peer connection, ends with another handler set, or adds a listener |
| InboundTasks.BatchEnds | lib/index.js:2373-2387 | The same for the direct dispatch of a batch |
| InboundTasks.NativeHandlerGetsOneMessageATask | lib/index.js:2245-2268 | On every run, while the handler is native code no task hands it more than one message |
| InboundTasks.OpenEventOpens | lib/index.js:1943-1966 | What an arriving open event does to the ready state: before registration, held back, and in between |
| InboundTasks.DrainedOpenEventOpens | lib/index.js:1954-1966 | What a drained one does |
| InboundTasks.CloseCallCloses | lib/index.js:1662-1664 | close() takes an unclosed channel to closing and changes nothing else here |
| InboundTasks.LocalStateOnlyAdvances | lib/index.js:1943-1966 | On every run the ready state of a channel created locally only moves forward |
| InboundTasks.SettleCompactsExactly | lib/index.js:2323-2331 | When the queue is kept, compacted and cleared |
| InboundTasks.DispatchedPrefixIsShort | lib/index.js:2328-2331 | On every run at most 1024 dispatched messages stay at the head of the queue |
| InboundQueues.Inbox.ScheduleMessageEventFlush | lib/index.js:2223-2230 | Schedules the flush once |
| InboundQueues.Inbox.ReleaseMessageConsumerGate | lib/index.js:2407-2411 | Opens the gate and schedules the flush, if the gate was closed |
| InboundQueues.Inbox.SetHandler | lib/index.js:1606-1610 | Setting a handler records whether it needs a task of its own and opens the gate |
| InboundQueues.Inbox.ListenerAdded | lib/index.js:2413-2417 | A message listener opens the gate |
| InboundQueues.Inbox.WaitsForOperations | lib/index.js:2291-2300 | Leaves a callback with the own or paired peer that has operations pending |
| InboundQueues.Inbox.SettleQueue | lib/index.js:2323-2331 | Clears a used-up queue, compacts one whose dispatched prefix exceeds 1024 |
| InboundQueues.Inbox.DispatchNext | lib/index.js:2306-2331 | One dispatch: message taken, user code run, queue settled |
| InboundQueues.Inbox.FlushQueuedMessageEvents | lib/index.js:2283-2338 | The loop refines the recursive specification of the flush task |
| InboundQueues.Inbox.DispatchDirectly | lib/index.js:2373-2387 | The batch loop refines its specification: stop on close, queue the rest when the task must end |
| InboundQueues.Inbox.DispatchNativeMessageBatch | lib/index.js:2340-2388 | Says whether it took the batch, and exactly what it did |
| InboundQueues.Inbox.HandleNativeEventBatch | lib/index.js:4731-4742 | Routes a batch to the pending map, the native queue, the handler or the message queue |
| InboundQueues.Inbox.ProcessNativeEvent | lib/index.js:1954-1985 | Effect of an event that need not wait |
| InboundQueues.Inbox.HandleNativeEvent | lib/index.js:1943-1952 | Queues an event during announcement and drain; an open event is applied at once |
| InboundQueues.Inbox.DispatchQueuedNativeEvent | lib/index.js:2200-2210 | One task of the drain |
| InboundQueues.Inbox.RegisterNativeChannel | lib/index.js:4626-4634 | The incoming channel is registered with its early events and its announcement pending |
| InboundQueues.Inbox.GateMessageEventsUntilConsumer | lib/index.js:2401-2405 | Afterwards there is a consumer, or the consumer gate is closed with a new timer started |
| InboundQueues.Inbox.GateMessageEventsAfterAnnouncement | lib/index.js:2390-2399 | Closes the announcement gate with its two nested timers |
| InboundQueues.Inbox.FlushDataChannelEvents | lib/index.js:4874-4887 | The announcement task of this channel; once it has announced, the announcement gate is closed, and the consumer gate unless there is a consumer |
| InboundQueues.Inbox.FinishPendingOperation | lib/index.js:3733-3746 | Counts an operation down and posts the callbacks of the peer at zero |
| InboundQueues.Inbox.PollClose | lib/index.js:1998-2023 | The deferred close: waits, is dropped, or moves the channel on |
| InboundPipeline.HandleKeeps | lib/index.js:4708-4742 | However a native batch is cut up, the channel gets its messages in order and its announcement state is untouched |
| InboundPipeline.StepKeepsInv | src/native/addon.cc:342-430 | Every interleaving of emitting threads, drains and JavaScript tasks keeps both invariants and the link between the two histories |
| InboundPipeline.EndToEndFifo | src/native/addon.cc:342-430 | End to end: application, JavaScript buffers and native pending messages are together the accepted messages of the channel in order; a prefix after the dispatcher is closed |
| InboundPipeline.EverythingEmittedIsDelivered | src/native/addon.cc:394-430 | From every such state the JavaScript thread alone hands the application every accepted message of the channel, unless it is closed on the way |
| InboundClosing.CloseArrivesAfterItsMessagesExactly | src/native/addon.cc:342-430 | Channel by channel: when a close event is about to reach channel k, the messages of k emitted before it have all arrived there, unless a callback was running with messages of k behind it at the emission, and then some have not |
| InboundClosing.CloseActsAfterItsMessages | lib/index.js:1987-2023 | Close after data, end to end: outside that case a close poll that acts finds every message of k emitted before the close event dispatched |
| InboundClosing.EarlyCloseLosesAMessage | lib/index.js:1987-2023 | In that case a close can pass a message and close the channel without it: the JavaScript buffers do not restore the order |
| InboundClosing.CloseIsBehindItsMessages | src/native/addon.cc:342-430 | On every run the log of channel k holds the messages emitted before the close event before any close event |
| OutboundChannel.SendsResolveInCallOrder | lib/index.js:1612-1696 | For any mix of strings, buffers and blobs: outcomes come in call order, one per send, and the sends without an outcome are exactly the later ones, in order |
| OutboundChannel.NativeCloseAfterEverySend | lib/index.js:1662-1696 | When the native close is due, every send that had returned before close() has been taken or reported by an error event, also when a late open event reopens the channel meanwhile |
| OutboundChannel.NativeCloseIsLast | lib/index.js:1662-1696 | Without a late open event those are all sends, and none is pending |
| OutboundChannel.BufferedAmountIsConserved | lib/index.js:1698-1738 | bufferedAmount is at most the pending decrease plus unfinished sends plus posted synthetic decreases, exactly that until a paired receipt is counted, zero when nothing is owed; a pending decrease has its flush |
| OutboundChannel.AmountDrains | lib/index.js:1698-1738 | From every reachable state the pending tasks bring bufferedAmount to zero |
| OutboundChannel.LowEventsAreExact | lib/index.js:1916-1925 | With a fixed threshold there is one bufferedamountlow event per fall to or below it, on all three paths, and between two falls the amount rose above it |
| OutboundChannel.StepKeepsChain | lib/index.js:1787-1834 | Every step keeps the numbering of outcomes and waiting sends |
| OutboundChannel.StepKeepsClose | lib/index.js:1662-1696 | At most one native close is in the chain, and the outcomes before it make up all sends that had returned at close() |
| OutboundChannel.StepKeepsBytes | lib/index.js:1698-1738 | Every step keeps the byte account |
| OutboundChannel.Sender.DecreaseBufferedAmount | lib/index.js:1916-1925 | Saturating decrease; one event when it crosses the threshold |
| OutboundChannel.Sender.QueueBufferedAmountDecrease | lib/index.js:1704-1712 | Zero is ignored; synthetic delivery posts its own decrease; else the pending decrease grows and its flush is scheduled |
| OutboundChannel.Sender.IncreaseBufferedAmount | lib/index.js:1698-1702 | Adds the size and queues the matching decrease |
| OutboundChannel.Sender.FlushBufferedAmountDecrease | lib/index.js:1728-1738 | Waits while the native buffer is not empty and the channel not closed, else applies the whole pending decrease |
| OutboundChannel.Sender.MarkPairedDeliveryReceived | lib/index.js:1899-1906 | A paired receipt lowers all three counters, saturating |
| OutboundChannel.Sender.DecreaseForPairedDelivery | lib/index.js:1908-1914 | The pending decrease gives up what the receipt takes off |
| OutboundChannel.Sender.EnqueueJob | lib/index.js:1787-1808 | A send joins the chain and counts at once |
| OutboundChannel.Sender.SendDirectly | lib/index.js:1627-1628 | A send taken at once is counted after the native channel accepted it |
| OutboundChannel.Sender.SendMessage | lib/index.js:1612-1660 | Refused while not open or too long; enqueued behind pending sends, when not ready or refused, and for blobs; else sent in the call |
| OutboundChannel.Sender.AttemptSend | lib/index.js:1826-1834 | Accepted, failed with an error event, or tried again |
| OutboundChannel.Sender.SettleSend | lib/index.js:1803-1806 | The finally block: count down and queue the decrease |
| OutboundChannel.Sender.Close | lib/index.js:1662-1696 | Closes once; the native close waits behind pending sends |
| OutboundChannel.Sender.RunChainedClose | lib/index.js:1690-1691 | The waiting close runs when the chain has reached it |
| OutboundChannel.Sender.PollBeforeClose | lib/index.js:1927-1941 | The native close waits for paired bytes, or for both buffers, up to the deadline |
| OutboundClosing.NativeCloseIsScheduledExactly | lib/index.js:1662-1694 | On every run the native close is scheduled exactly when close() finds no byte buffered, no send pending and nothing owed to the pair, or when a poll finds the paired bytes, or both buffers, at zero or its deadline passed |
| OutboundClosing.CloseStarts | lib/index.js:1662-1694 | The first close() always starts closing and takes no byte off the account |
| OutboundClosing.CloseReachesNative | lib/index.js:1662-1694 | From every state after close() the tasks of the channel and the receipts of its pair lead to the native close, with the deadline needed only for a pair after the channel closed |
| OutboundClosing.OnlyTheTaskCloses | lib/index.js:1672-1687 | The native channel is closed by the scheduled task only |
| OutboundClosing.NothingIsSentAfterClose | lib/index.js:1612-1618 | On every run without a late open event, sends after close() are refused and leave no trace |
| OutboundClosing.DecreaseWaitsForNative | lib/index.js:1728-1738 | While the native buffer is not empty and the channel not closed a flush changes no amount; otherwise it applies the whole pending decrease |
| OutboundClosing.PairedBytesAreUnacknowledged | lib/index.js:1834-1906 | On every run the paired bytes a close waits for are at least those handed over minus those acknowledged, and exactly that while no more is acknowledged than was handed over |
| OutboundClosing.PairedCloseIsAcknowledged | lib/index.js:1927-1941 | A paired close without deadline comes after the pair has acknowledged every byte handed over |
| OutboundAccount.SendEndsExactly | lib/index.js:1612-1660 | The result of a send for every input, and what it leaves: nothing, an outcome in the call, or a link in the chain, with the amount raised by its size |
| OutboundAccount.AttemptEndsExactly | lib/index.js:1787-1832 | The outcome of an attempt of the running send: none, taken, delivered to the pair, or reported |
| OutboundAccount.EventsMoveReadyState | lib/index.js:1943-1966 | How calls and events move the ready state of the sending side |
| OutboundAccount.ReceiptKeepsAccountExactly | lib/index.js:1899-1914 | A paired receipt keeps bufferedAmount equal to the bytes owed exactly when their decrease is still pending or nothing else is owed |
| OutboundAccount.AccountIsExact | lib/index.js:1698-1738 | On every run whose receipts are in time, bufferedAmount is exactly the pending decrease, the unfinished sends and the posted decreases |
| OutboundAccount.LateReceiptUndercounts | lib/index.js:1899-1914 | A run with one late receipt after which bufferedAmount is zero with a blob still unsent |
| AsyncSender.AcceptedIsAccountedFor | src/native/addon.cc:115-155 | On every interleaving the accepted payloads are the processed ones, the rest of the batch and the queue, in order; the queue is at most 8192, what is in flight at most twice that |
| AsyncSender.TransmissionKeepsOrder | src/native/addon.cc:137-155 | What is transmitted is a subsequence of what was accepted, overall and per channel, and that of what was enqueued |
| AsyncSender.OpenChannelLosesNothing | src/native/addon.cc:145-153 | A channel whose sends never fail transmits exactly what was processed for it |
| AsyncSender.WorkerCatchesUp | src/native/addon.cc:137-155 | The worker alone processes everything accepted so far |
| AsyncSender.InFlightBoundIsReached | src/native/addon.cc:115-125 | The cap counts the queue only: a run with 2*8192 payloads in flight |
| AsyncSender.Sender.EnqueuePayload | src/native/addon.cc:115-126 | Appends, or drops the payload when the queue is full |
| AsyncSender.Sender.SwapBatch | src/native/addon.cc:140-144 | The worker takes the whole queue |
| AsyncSender.Sender.ProcessBatch | src/native/addon.cc:145-154 | The loop processes the whole batch in order |
| WireOrder.WireKeepsCallOrder | src/native/addon.cc:907-923 | Binary messages of a channel on the wire come in the order of the send() calls, each at most once, and each is a call that returned and that the native channel took: through the promise chain, the shared queue with its cap, and failing sends |
| WireOrder.StepKeepsInv | lib/index.js:1836-1876 | What the channel has offered to the sender thread is exactly its native binary sends, in order |
| PeerTeardown.ShutdownRunsOnce | src/native/addon.cc:1272-1296 | However many callers, the shutdown body runs once, and the channel map stays empty after it |
| PeerTeardown.NoChannelEscapes | src/native/addon.cc:1198-1296 | At quiescence no closed channel is in the map; after a shutdown every channel handed to AddChannel is closed or scheduled for closing; without one it is closed or in the map |
| PeerTeardown.QuiescenceIsReachable | src/native/addon.cc:1198-1296 | From every reachable state the threads can run to quiescence |
| PeerTeardown.StepKeepsInv | src/native/addon.cc:1198-1296 | Every interleaved step keeps the invariant behind these |
| PeerTeardown.Binding.FirstCheck | src/native/addon.cc:1200-1203 | AddChannel closes the channel at once after a shutdown |
| PeerTeardown.Binding.InsertLocked | src/native/addon.cc:1211-1218 | Under the lock: insert, or mark for closing when the flag is set |
| PeerTeardown.Binding.RemoveClosed | src/native/addon.cc:1224-1225 | A channel found closed is removed again |
| PeerTeardown.Binding.ChannelClosed | src/native/addon.cc:779-789 | The channel's own callback removes it |
| PeerTeardown.Binding.EnterShutdown | src/native/addon.cc:1272-1274 | Only the first caller goes on |
| PeerTeardown.Binding.TakeSnapshot | src/native/addon.cc:1276-1283 | Under the lock: all channels of the map are taken, the map is cleared |
| PeerTeardown.Binding.DestroySnapshot | src/native/addon.cc:1285-1292 | Every channel of the snapshot is destroyed and scheduled for closing |
| PeerTeardown.DestroyedIsDetached | src/native/addon.cc:1285-1292 | On every run a channel the teardown has destroyed is detached and stays so: its own closing no longer calls back |
| PeerTeardown.DroppedChannelsAreSilent | src/native/addon.cc:1285-1292 | Destroying or rejecting a channel drops the callback it may have had coming |
| Signaling.StepStaysConsistentExactly | lib/index.js:2782-3308 | After a call or native report the signalling state is what the slots say, at most one slot is pending and the current ones pair up, and this still holds after any further native report, exactly when the step does not roll back a pending ICE-restart offer made without native support |
| Signaling.StepKeepsInvExactly | lib/index.js:2782-3308 | The same for the invariant, in which the flag of such an offer implies that the offer is pending |
| Signaling.RunKeepsInv | lib/index.js:2782-3308 | On every run without such a rollback: the state is what the slots say, at most one is pending, the current slots are empty or an offer with its answer |
| Signaling.StaleFlagMisreports | lib/index.js:4164-4170 | After such a rollback the next native report makes the signalling state disagree with the slots |
| Signaling.GlareDuringRestartMisreports | lib/index.js:3109-3117 | A remote offer that meets a pending restart offer leaves have-local-offer reported with only a remote offer pending |
| Signaling.RestartOfferIsReachable | lib/index.js:2977-2992 | That situation is reached by one negotiation and a restart |
| Signaling.SetLocalFollowsJsep | lib/index.js:2782-3036 | Refused as invalid exactly where JSEP refuses, except answers taken as already applied; applied calls move the state as JSEP says; others change nothing |
| Signaling.SetRemoteFollowsJsep | lib/index.js:3038-3308 | The same for remote descriptions; a failed offer leaves at most the implied rollback behind |
| Signaling.AnswerTakesEffectExactly | lib/index.js:2882-2910 | In have-remote-offer an answer the other checks pass is put into force exactly when the already-applied guard does not match it |
| Signaling.RenegotiatedAnswerIsDropped | lib/index.js:2882-2910 | The guard matches a fresh answer of this connection to a second offer: the call returns and the connection stays in have-remote-offer |
| Signaling.RenegotiationIsReachable | lib/index.js:2882-2910 | That situation is reached by answering one offer and being offered another |
| Signaling.RollbacksAgree | lib/index.js:4210-4241 | In have-local-offer the rollback a remote offer runs leaves the same slots, state and result as the one a caller asks for |
| Signaling.RollbackUndoesOffer | lib/index.js:2816-2857 | Rolling back an offer, local or remote, restores every slot and the stable state from before it |
| Signaling.RemoteOfferImpliesRollback | lib/index.js:3109-3117 | A remote offer in have-local-offer is a rollback followed by that offer, and leaves the current slots alone |
| Signaling.Connection.PutPendingLocal | lib/index.js:4177-4180 | A pending local description takes precedence |
| Signaling.Connection.PutPendingRemote | lib/index.js:4193-4196 | A pending remote description takes precedence |
| Signaling.Connection.CommitLocalSlot | lib/index.js:4182-4186 | The description becomes current, pending is cleared |
| Signaling.Connection.CommitRemoteSlot | lib/index.js:4198-4204 | The description becomes current, pending is cleared |
| Signaling.Connection.Sync | lib/index.js:4164-4170 | The state follows the restart flag, else the slots |
| Signaling.Connection.UndoOffer | lib/index.js:2836-2842 | The local offer is dropped and the state is stable |
| Signaling.Connection.RollBackForOffer | lib/index.js:4210-4241 | The rollback a remote offer runs: refused by the native side, or the local offer is dropped |
| Signaling.Connection.ApplyLocalOffer | lib/index.js:2801-2814 | The local-offer path with its guards refines the specification |
| Signaling.Connection.ApplyLocalAnswer | lib/index.js:2882-3014 | The local-answer path with its guards refines the specification |
| Signaling.Connection.ApplyRemoteOffer | lib/index.js:3109-3291 | The remote-offer path with its guards refines the specification |
| Signaling.Connection.ApplyRemoteAnswer | lib/index.js:3079-3291 | The remote-answer path with its guards refines the specification; from a state in order, an applied answer puts the pending offer in force |
| Signaling.Connection.ApplyRollback | lib/index.js:2816-2857 | Explicit rollback of either side |
| Signaling.RemoteAnswerAcceptsTheOffer | lib/index.js:3079-3291 | An applied remote answer makes exactly the pending local offer and that answer (as given, or as the connection that made it reports it) the current pair, with nothing pending |
| Signaling.LocalAnswerAcceptsTheOffer | lib/index.js:2882-3014 | An applied local answer makes exactly the pending remote offer and that answer (as given, or as the native side reports it) the current pair, with nothing pending |
| Signaling.LocalOfferIsPending | lib/index.js:2859-3014 | An applied local offer changes only the pending local slot, and that slot then holds the offer last created, as given or as the native side reports it |
| Signaling.RemoteOfferIsPending | lib/index.js:3109-3291 | An applied remote offer is what the pending remote slot holds; a pending local offer is gone and the current pair untouched |
| SignalingResults.LocalOfferEndsExactly | lib/index.js:2859-3024 | The result of a local offer for every input; a refusal of the native side matters except without media, in a restart it cannot take, or when a data session is renewed under its ICE credentials |
| SignalingResults.LocalAnswerEndsExactly | lib/index.js:2882-3014 | The same for a local answer, with the flag of a restart asked for by the peer |
| SignalingResults.RemoteOfferEndsExactly | lib/index.js:3109-3291 | The same for a remote offer, its implied rollback and its syntax included; changed credentials in a data session count as a restart |
| SignalingResults.RemoteAnswerEndsExactly | lib/index.js:3079-3291 | The same for a remote answer, with the flags of the restart it completes |
| SignalingResults.RollbackEndsExactly | lib/index.js:2816-2857 | A rollback of either side is invalid, refused by the native side with nothing changed, or applied |
| SignalingResults.CreationRecordsExactly | lib/index.js:2687-2780 | When created offers, created answers and restart requests are recorded |
| Sdp.ParsePrintRoundTrip | lib/index.js:892-930 | For every text: printing what was parsed keeps the lines, and parsing that again gives the same sections with inherited ICE credentials |
| Sdp.SplitText | lib/index.js:892-896 | Printed clean lines are read back unchanged |
| Sdp.CutIsWellCut | lib/index.js:898-918 | Cutting keeps every line, in order, with m= lines exactly at the section starts |
| Sdp.CutFlatten | lib/index.js:898-918 | The sections are determined by the lines: flattening and cutting again gives the same sections |
| Sdp.ParseSdpMediaSections | lib/index.js:898-924 | The one-pass parser gives every section what its own last mid and credential lines say, and credentials of the session part where it has none |
| Sdp.CollectSections | lib/index.js:903-919 | The first loop: sections with their own last values, and the session's |
| Sdp.InheritCredentials | lib/index.js:920-923 | The second loop: missing credentials come from the session part |
| Sdp.SectionMeansItsLines | lib/index.js:898-924 | For every text and section: the mid is what its last a=mid: line says, the credentials are what its own last a=ice-ufrag: and a=ice-pwd: lines say, and only without one what the last such line of the session part says |
| Sdp.SectionsStartAtMediaLines | lib/index.js:898-918 | The session part and the sections are the lines of the text in order; exactly the first line of each section starts with m= |
| SdpCandidates.CandidateSplitIsLossless | lib/index.js:985-1047 | Appending the extracted candidates to the stripped text restores each section's other lines in order and its set of candidate lines exactly when every candidate line is valid and every section with one is the first with its mid |
| SdpCandidates.DistinctMidsLoseNothing | lib/index.js:985-1047 | With distinct mids it succeeds exactly when all candidate lines are valid, and then loses nothing but end-of-candidates marks |
| SdpCandidates.HiddenSectionIsNotRestored | lib/index.js:946-948 | The candidates of a section behind another one with the same mid are not put back |
| SdpCandidates.AppendIsIdempotent | lib/index.js:985-1002 | Appending a single-line candidate again changes not a character |
| SdpCandidates.StripForgetsAppend | lib/index.js:985-1026 | Stripping after an append gives the lines stripping alone gives |
| SdpCandidates.EditsKeepSections | lib/index.js:985-1026 | Neither edit changes a mid, an ICE credential or the session part |
| SdpCandidates.MediaMeansMedia | lib/index.js:636-642 | A text with a media section is never taken for one without media |
| SdpCandidates.AppendRemoteCandidate | lib/index.js:985-1002 | Validates, selects, adds the line once to each selected section, prints |
| SdpCandidates.AddLineTo | lib/index.js:994-996 | The loop over the selected sections |
| SdpCandidates.StripIceCandidateLines | lib/index.js:1008-1026 | Drops candidate and end-of-candidates lines; a text without any stays as it is |
| SdpCandidates.ExtractIceCandidates | lib/index.js:1028-1047 | All candidate lines in order, with their section's mid, index and fragment |
| SdpCandidates.Targets | lib/index.js:940-983 | The selected sections, all of them existing |
| SdpCandidates.FirstWithMid | lib/index.js:946-948 | The first section with the mid |
| SdpCandidates.IndexOf | lib/index.js:932-938 | The first position of a token, or -1 |
| SdpCandidates.CandidateIsValidExactly | lib/index.js:932-938 | A candidate with a type after typ is valid exactly when at least six words come before typ, whatever follows the type |
| SdpCandidates.CandidateNeedsType | lib/index.js:932-938 | A candidate that ends with typ is not valid |
| CandidateEdits.SelectionIsExact | lib/index.js:940-983 | Which sections a candidate selects: the first with its mid, else the one at its index, else those of its fragment, else all; and exactly when selection fails, with which error |
| CandidateEdits.AppendMeans | lib/index.js:985-1002 | Section by section: exactly the selected sections without the line get it, at the end, and nothing else changes; exactly when appending fails |
| CandidateEdits.StripMeans | lib/index.js:1008-1026 | Every section keeps its lines in order, all but candidates and end-of-candidates marks; the session part stays |
| CandidateEdits.ExtractMeans | lib/index.js:1028-1047 | Every candidate line is found, in order and as often as it occurs, with mid, index and fragment of its own section |
| CandidateEdits.NoMediaByLines | lib/index.js:636-642 | A text counts as one without media exactly when its first line is v=0 and no later line starts with m= |
| CandidateEdits.TextsWithoutMediaStay | lib/index.js:985-986 | The empty text and texts without media pass unchanged through appending, whatever the candidate, and stripping; nothing is extracted from them |
| CandidateEdits.EmptyCandidateIsValid | lib/index.js:932-934 | The empty candidate is valid, any other text needs the candidate: prefix |
| DataChannelIds.QueryIsExact | lib/index.js:4778-4796 | The lazily refreshed index answers exactly whether some live channel has the id, and only the index changes |
| DataChannelIds.AssignmentIsLeastFree | lib/index.js:4807-4827 | Every channel that needs an id gets one of the right parity with no free one below it, or fails when none up to 65534 is free; live ids stay distinct |
| DataChannelIds.RoleDecidesIds | lib/index.js:4798-4827 | The offerer that is answered passive gives every waiting channel the least free even id, answered active the least free odd one, up to 65534; without a role nothing changes |
| DataChannelIds.FreeFrom | lib/index.js:4807-4812 | The least free id of the parity up to 65534, or none |
| DataChannelIds.RegisterKeeps | lib/index.js:4745-4754 | Registering a live channel succeeds when ids are distinct and keeps the index right |
| DataChannelIds.ScanKeeps | lib/index.js:4783-4792 | The refresh registers every live channel that has an id |
| DataChannelIds.CloseKeeps | lib/index.js:4769-4776 | Closing frees the id and keeps the index right |
| DataChannelIds.TakeIdKeeps | lib/index.js:1744-1756 | A channel that takes a free id keeps live ids distinct |
| DataChannelIds.Registry.UnregisterId | lib/index.js:4769-4776 | Removes the entry if it is the channel's own |
| DataChannelIds.Registry.RegisterId | lib/index.js:4745-4754 | Registers unless another live channel holds the id |
| DataChannelIds.Registry.IsInUse | lib/index.js:4778-4796 | Exactly whether a live channel has the id |
| DataChannelIds.Registry.RefreshIndex | lib/index.js:4783-4792 | The refresh loop, and whether a live channel is still without id |
| DataChannelIds.Registry.NextAvailable | lib/index.js:4807-4812 | The least free id of the parity |
| DataChannelIds.AssignedKeepsExactly | lib/index.js:1748-1754 | Assigning an id keeps the registry right exactly when the channel has an id already or no live channel has the new one |
| DataChannelIds.CreatedKeepsExactly | lib/index.js:1482-1493 | A new channel keeps the registry right exactly when its ids agree and no live channel has them |
| DataChannelIds.LearnedKeepsExactly | lib/index.js:1744-1746 | A native id keeps the registry right exactly when it is the assigned one, if any, and no other live channel has it |
| DataChannelIds.Registry.AssignId | lib/index.js:1748-1754 | A channel that has an id keeps it; any other takes the given one and registers it unless a live channel holds it |
| DataChannelIds.Registry.AssignChannel | lib/index.js:4817-4826 | One channel: skipped, served with the least free id, or failed |
| DataChannelIds.Registry.AssignFromDtlsRole | lib/index.js:4814-4827 | Every waiting channel gets the least free id, even when the answer is passive and odd when it is active, or fails; without a role nothing changes |
| DataChannelIds.Registry.Create | lib/index.js:1482-1493 | A new channel registers its id unless a live channel holds it, and marks the index for refresh when it has none |
| DataChannelIds.Registry.CloseChannel | lib/index.js:2115-2127 | The channel is closed and its id free |
| DataChannelIds.Registry.LearnNativeId | lib/index.js:1744-1746 | The native id becomes the effective one |

## Left out

- libdatachannel, Node-API, certificates: their answers are inputs of the steps.
- DispatcherProtocol.ProtocolHoldsOnEveryRun: assumes that the thread-safe queue accepts items and that the JavaScript
  callback returns normally; `DispatcherLosses` says what a refusing queue costs, the neighbouring lemma what a throwing
  callback does.
- InboundOrder.ChannelIsOneFifo: speaks of runs in which the channel is not closed at any point; a channel that was
  closed and is set to open again by a late open event is outside.
- InboundProgress.EverythingIsDelivered: takes for granted that pending operations complete and timers fire.
- InboundClosing.CloseActsAfterItsMessages: speaks of runs in which the dispatcher is not closed natively after the close
  event, since that drops pending messages.
- DataChannelIds.QueryIsExact: native ids are stable, equal any assigned id and do not clash; which calls keep this is stated
  exactly, what a query answers after a clash is not. Parity for synthetic ids is absent.
- Signaling.Connection.Sync: the closed and provisional-answer states are absent.
- Signaling.StepStaysConsistentExactly: native refreshes keep a description's kind, and a successful native set reports a
  description of the kind that was set.
- Time: a timer is a step that may fire; the grace period, the drain deadline and the repair loops are inputs or absent.
- Channels adopted from synthetic ones and repeated announcements of the same id: `InboundChannel` registers a channel once.
- Handlers of open, error and closing events are user steps right after the event instead of inside its task.
- Wire order between strings and binaries: strings are sent in the call, binaries by the sender thread; only binaries
  are ordered against each other (`WireOrder`).
- Synthesised closes (paired close, peer failure) are closes by another cause; they do not wait for queued events.
- Pranswer, parameterless local descriptions, overlapping calls, prepared descriptions with explicit credentials and
  answers applied on behalf of another connection are not part of `Signaling`.
- Parts of setLocalDescription and setRemoteDescription without effect on slots or state: pairing, candidates, ICE role, gathering.
- Characters stand for UTF-16 code units; a candidate's line index that is no integer counts as out of range.
- The comparison of strings by locale is a parameter: any strict order of keys in the scheduler, any total preorder in the merge.
- Sorting is modelled as a stable insertion sort on values, not in place.
- WPT workers are a function from a unit of work to its results, the same on every shard; the path for a single shard
  that does not go through the scheduler is absent.
- Configuration, events, WebIDL conversions, download scripts, reports and the Chrome harness: single-branch plumbing.
