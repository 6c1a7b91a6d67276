# FairyClaw runtime: a verified model

A Dafny model of the parts of FairyClaw where correctness depends on more than one function:
the session event bus together with the session scheduler, the gateway bridge protocol,
context compression with its unload store, timer jobs with their cron search, unified patch
application, and chunked file transfer. `dafny verify dfyconfig.toml` checks the whole project.

How it is laid out:

- `Events`, `EventBus`, `Scheduler` model the data and the operations as the code changes them
  in place, each method proved against a function on plain values. `SchedulerSystem` composes
  those functions into one transition system: any number of bus workers, debounce tasks, the
  watchdog and publishers; a step is one lock block or one stretch between awaits, and a turn
  may publish any events to any session while it runs. `SchedulerInvariant` and
  `SchedulerSafety` hold the joint invariant, `SchedulerTheorems` what it means,
  `SchedulerOperations` what single blocks do on any state, and `SchedulerLiveness` progress
  under weak fairness.
- `RecentFrames`, `BridgeInbound`, `BridgeOutbound` model the deduper and the two directions of
  the bridge as machines over connections that may break at any time, with frames of several
  connections in flight at once.
- `History`, `UnloadStore`, `Compression`, `CompressionTheorems`, `CompressionPhases`,
  `UnloadCollisions` model the compression hook.
  Token counts, image recompression and file rendering are arbitrary functions; the digest
  behind unload ids is taken to be injective where a lemma says so.
- `Cron`, `Calendar`, `CronSearch` model cron fields character by character, the Gregorian
  calendar, and the search; `TimerJobs`, `TimerOperations`, `TimerRuns`, `CronTimers` the job
  table and its runs.
- `Patch` and `FileTransfer` model the last two.

What the proofs found in the code:

- `AI_SYSTEM_GUIDE.md` (line 93) lists `run_session` finding new mailbox events at the end of a
  run as a source of wakeups. In the composed system that branch cannot be reached: the bus
  keeps every event of the session back until the turn's dispatch is over (`TurnTheorem`).
- A trigger stored after a debounce task has decided, and before it has removed itself, waits
  for the watchdog unless a wakeup was pending: exactly then (`LeftToSweepIff`). `DebounceRace`
  gives a run of the model, in which any await may suspend. In the code as it stands no task
  suspends there, since nothing waits while it holds one of the two locks taken in between; the
  run shows what a wait under either of them would bring.
- Inbound frames are not submitted at most once in general; `AtMostOnce` says over which runs
  they are, and `OverlapSubmitsTwice` gives one in which they are not.
- Outbound frames can wait on a live connection with nothing left to do, because an older
  hello was handled last (`LateHelloStrandsPushes`); `QuietConnectionDelivers` says for which
  frames.
- Unload ids are twelve hex digits of a digest, so two images can meet under one id; what an
  unload stored comes back exactly if that did not happen (`RecoverableIff`).
  `SharedDigestLosesImage` gives the runs that lose one; `RecoverableAlwaysIff` says, from store
  and history alone, when no run can.
- Python counts characters such as the superscript two as digits that `int()` refuses, and
  `int()` of Python 3.12 (`deploy/Dockerfile` line 1) also refuses numerals of more than 4300
  digits, so validating a cron field can raise
  (`SuperscriptRaises`, `LongNumeralRaises`); `FieldRaisesIff` says on which tokens.
- An accepted expression that allows only the 29th of February is refused while no leap day
  lies within the next 366 days (`LeapDayRefused`); one for Friday the thirteenth can be, too
  (`Friday13NotFound`). `RefusedIff` and `AlwaysFindsIff` say when.
- A job can tick more often than it may run, if a claim goes stale and is taken again
  (`StaleClaimTicksTwice`); `BoundHoldsIff` says exactly when it does not, and while no two of
  its claims are held at once it never does (`TicksAreBounded`).
- A hunk that only adds lines puts them before its whole context, not where they stand in it
  (`InsertionIff`, `InsertionMisplaced`).

## Model

| member | source | states |
|---|---|---|
| `Events.ParsersAgree` | fairyclaw/core/events/payloads.py:229-234 | the trigger flag a handler parses from the payload and the flag stored in the mailbox agree for every payload, for exactly the two event types that reach a mailbox |
| `EventBus.SessionEventBus.Publish` | fairyclaw/core/events/bus.py:396-413 | the event is appended to its session's queue; the session gets a ready token exactly if it had none |
| `EventBus.SessionEventBus.TakeReady` | fairyclaw/core/events/bus.py:450-453 | hands out the oldest token and only removes that |
| `EventBus.SessionEventBus.PopNextEvent` | fairyclaw/core/events/bus.py:465-483 | takes the oldest queued event, or drops the token of an empty queue |
| `EventBus.SessionEventBus.RescheduleSession` | fairyclaw/core/events/bus.py:485-500 | puts the token back at the end of the ready queue while events remain, else releases it |
| `Scheduler.SessionRuntimeState.EnqueueEvent` | fairyclaw/core/events/bus.py:267-277 | appends one envelope with its normalized trigger flag |
| `Scheduler.SessionRuntimeState.ConsumeMailbox` | fairyclaw/core/events/bus.py:279-287 | hands out the whole mailbox and leaves it empty |
| `Scheduler.RuntimeSessionScheduler.HandleUserMessage` | fairyclaw/core/events/session_scheduler.py:429-438 | stores the message; schedules a debounce task only for a trigger with no live task |
| `Scheduler.RuntimeSessionScheduler.HandleSubtaskCompleted` | fairyclaw/core/events/session_scheduler.py:440-448 | stores the event and reports whether a live debounce task covers it |
| `Scheduler.RuntimeSessionScheduler.RequestWakeupIfNeeded` | fairyclaw/core/events/session_scheduler.py:167-178 | sets the flag exactly if there is a trigger, no turn in flight and no flag |
| `Scheduler.RuntimeSessionScheduler.StartTurn` | fairyclaw/core/events/session_scheduler.py:214-229 | clears the flag on any wakeup and starts a turn by the source and mailbox rules, consuming the mailbox |
| `Scheduler.RuntimeSessionScheduler.FinishTurn` | fairyclaw/core/events/session_scheduler.py:261-271 | clears inflight, requeues for a waiting trigger or removes the state of an empty mailbox |
| `Scheduler.RuntimeSessionScheduler.FinishDebounce` | fairyclaw/core/events/session_scheduler.py:199-202 | a task removes only its own registration |
| `Scheduler.RuntimeSessionScheduler.SweepMailboxes` | fairyclaw/core/events/session_scheduler.py:289-301 | flags exactly the sessions with a trigger, no turn and no flag, and returns them |
| `SchedulerOperations.PopFindsHead` | fairyclaw/core/events/bus.py:465-483 | on any state of the bus: a pop takes the head of the session's queue, or gives the token back iff nothing is queued |
| `SchedulerOperations.WakeupAsked` | fairyclaw/core/events/session_scheduler.py:167-178 | on any state: the flag is set iff a message asks for a turn, none is in flight and none flagged, and nothing else changes |
| `SchedulerOperations.MessageStartsTask` | fairyclaw/core/events/session_scheduler.py:429-438 | on any state: a message starts a task iff it asks for a turn and no registered task still runs; a registered task that is done is replaced |
| `SchedulerOperations.TaskTakesOwn` | fairyclaw/core/events/session_scheduler.py:199-202 | on any state: exactly the task's own registration goes |
| `SchedulerOperations.TurnStartsIff` | fairyclaw/core/events/session_scheduler.py:214-229 | on any state: a turn starts iff none is in flight and a message asks for one, or the mailbox is empty and the source is none of the four internal ones; otherwise only the flag is cleared |
| `SchedulerOperations.TurnEnds` | fairyclaw/core/events/session_scheduler.py:261-271 | on any state: no message is lost, the session leaves the map iff its mailbox is empty, and a wakeup is queued iff a message asks for a turn and none is flagged |
| `SchedulerSafety.StepKeepsInv` | fairyclaw/core/events/session_scheduler.py:167-461 | every step of workers, debounce tasks, watchdog and publishers keeps the joint invariant of bus and scheduler |
| `SchedulerSafety.ReachableInv` | fairyclaw/core/events/session_scheduler.py:167-461 | the joint invariant holds after every run from an empty system with any number of workers |
| `SchedulerTheorems.TokenTheorem` | fairyclaw/core/events/bus.py:396-500 | a session is scheduled iff exactly one token for it is in the ready queue or a worker's hands, and a nonempty queue implies scheduled |
| `SchedulerTheorems.PopFindsEvent` | fairyclaw/core/events/bus.py:465-483 | a worker holding a token always finds an event: both None branches are unreachable |
| `SchedulerTheorems.DispatchesNeverOverlap` | fairyclaw/core/events/bus.py:441-463 | two workers are never busy with the same session |
| `SchedulerTheorems.DispatchTheorem` | fairyclaw/core/events/bus.py:396-500 | per session, handled events, then the one in hand, then the queue are the published events in order |
| `SchedulerTheorems.ConservationTheorem` | fairyclaw/core/events/session_scheduler.py:214-271 | consumed batches in order, then the mailbox, then the mailbox events still in the bus equal the published ones: nothing lost, duplicated or reordered, though states are deleted and recreated |
| `SchedulerTheorems.TurnTheorem` | fairyclaw/core/events/session_scheduler.py:214-280 | one turn per session; its mailbox stays empty and its state in the map; it ends by removing the state, so the requeue branch is unreachable |
| `SchedulerTheorems.InflightMeansTurn` | fairyclaw/core/events/session_scheduler.py:220-265 | inflight is set iff some worker runs the session's turn |
| `SchedulerTheorems.WakeupStartsTurn` | fairyclaw/core/events/session_scheduler.py:214-229 | a wakeup starts a turn iff the mailbox holds a trigger, or is empty with an outside source and an existing state; the flag is clear afterwards either way |
| `SchedulerTheorems.FlagTheorem` | fairyclaw/core/events/session_scheduler.py:167-187 | the wakeup flag implies a wakeup in the bus, at a worker before its turn starts, or owed by a publisher |
| `SchedulerTheorems.SweepQueuesWakeups` | fairyclaw/core/events/session_scheduler.py:282-317 | after a sweep every session with a waiting trigger has a wakeup pending |
| `SchedulerTheorems.StoringStarts` | fairyclaw/core/events/session_scheduler.py:429-449 | storing an event starts a debounce task for its session iff it is a user message, the envelope stored last asks for a turn and no debounce task of the session was live; the worker goes on to decide itself iff it is a subtask under the same two conditions; no other task or registration changes |
| `SchedulerOperations.SubtaskDecides` | fairyclaw/core/events/session_scheduler.py:167-187 | a worker that stored a subtask publishes a wakeup iff a message of the session asks for a turn, none runs and none is flagged |
| `SchedulerOperations.DebounceDecides` | fairyclaw/core/events/session_scheduler.py:189-202 | a debounce task that has slept publishes a wakeup iff one is due, by the same three conditions |
| `SchedulerOperations.SweepDecides` | fairyclaw/core/events/session_scheduler.py:282-301 | a sweep picks exactly the sessions for which one is due, each once, and flags no other |
| `SchedulerOperations.OwnWakeups` | fairyclaw/core/events/session_scheduler.py:180-187 | what workers, debounce tasks and watchdog publish is a wakeup under their own internal source, so it starts no turn on an empty mailbox |
| `SchedulerTheorems.LeftToSweepIff` | fairyclaw/core/events/session_scheduler.py:429-448 | a trigger just stored, by a message or a subtask, is left to a sweep iff the debounce task of its session had decided and not yet removed itself, and no wakeup was pending |
| `SchedulerTheorems.DebounceRace` | fairyclaw/core/events/session_scheduler.py:193-202 | a reachable state in which a message was stored in that window and only the watchdog is left to wake the session |
| `SchedulerLiveness.NextHandled` | fairyclaw/core/events/bus.py:441-500 | under weak fairness a session with queued events has one handled later |
| `SchedulerLiveness.EventuallyHandled` | fairyclaw/core/events/bus.py:441-500 | every published event is eventually handled, by a measure on queue position, ready tokens and worker phase |
| `SchedulerLiveness.WaitingIsConsumed` | fairyclaw/core/events/session_scheduler.py:282-317 | a trigger waiting in a mailbox is eventually consumed, by the next sweep's wakeup at the latest |
| `SchedulerLiveness.EveryTriggerIsConsumed` | fairyclaw/core/events/session_scheduler.py:214-317 | in every fair behaviour each published trigger is eventually consumed by a turn, at its place in publish order |
| `SchedulerLiveness.FairContinuation` | fairyclaw/core/events/bus.py:441-500 | every reachable state lies on a fair behaviour, so the liveness results hold from each of them |
| `RecentFrames.RecentFrameSet.Add` | fairyclaw/bridge/user_gateway.py:111-115 | removes an earlier occurrence, appends, and evicts the oldest beyond the limit |
| `RecentFrames.RecentRefinement` | fairyclaw/bridge/user_gateway.py:104-118 | after any adds the set is the limit most recently added distinct ids, ordered by last add |
| `RecentFrames.RecentMember` | fairyclaw/bridge/user_gateway.py:104-118 | an id is a member iff it was added and fewer than limit distinct other ids came after |
| `BridgeInbound.WsBridgeClient.BeginInbound` | fairyclaw/gateway/bridge/ws_client.py:143-150 | registers the frame as pending and its waiter before the first send |
| `BridgeInbound.WsBridgeClient.HandleAck` | fairyclaw/gateway/bridge/ws_client.py:358-367 | resolves the waiter on any ack; drops the frame from pending on ok or duplicate |
| `BridgeInbound.StepKeepsInv` | fairyclaw/bridge/user_gateway.py:524-541 | every step of client, connections and server handlers, drops included, keeps the inbound invariant |
| `BridgeInbound.ReturnedMeansSubmitted` | fairyclaw/gateway/bridge/ws_client.py:143-155 | a send that returned normally was submitted, and no frame is ever forgotten: it is pending or submitted |
| `BridgeInbound.PendingLeavesOnAck` | fairyclaw/gateway/bridge/ws_client.py:358-367 | a frame leaves pending only on an ok or duplicate ack for it, and was then submitted |
| `BridgeInbound.AckAnswers` | fairyclaw/gateway/bridge/ws_client.py:358-367 | taking an ack hands the waiting caller that ack's own status, removes its waiter and answers no one else |
| `BridgeInbound.CallEndsByAnswer` | fairyclaw/gateway/bridge/ws_client.py:143-155 | over every run: a call that is over returned iff its first send went out and the first ack taken for it was ok or duplicate, and raised iff that send failed or that ack was a failure; one that waits can end as soon as an ack was taken |
| `BridgeInbound.PendingInOrder` | fairyclaw/gateway/bridge/ws_client.py:143-150 | over every run: the frames to resend are those begun and not answered with ok or duplicate, in the order their calls began |
| `BridgeInbound.ServerReadsInOrder` | fairyclaw/gateway/bridge/ws_client.py:335-344 | over every run: on each connection the server has read the first of the frames sent or resent on it, in order, and the others are on their way |
| `BridgeInbound.AcksTellTheTruth` | fairyclaw/bridge/user_gateway.py:524-541 | over every run: an ok ack stands for a submission that succeeded on that connection, a duplicate one for a frame received while fewer than limit others had come since, a failed one for a submission or a sending of an ok ack that failed |
| `BridgeInbound.LostAck` | fairyclaw/bridge/user_gateway.py:524-541 | a handler that cannot send its ok ack tries a failed one, and ends if it cannot send any other |
| `BridgeInbound.QuietConnectionDelivers` | fairyclaw/gateway/bridge/ws_client.py:335-344 | when a resumed connection is quiet, the client holds only frames the server refused on it |
| `BridgeInbound.ResubmitIff` | fairyclaw/bridge/user_gateway.py:524-533 | a received frame is submitted iff never submitted before, or at least limit distinct others came since |
| `BridgeInbound.DuplicateCauses` | fairyclaw/bridge/user_gateway.py:524-533 | a second submission was checked before the first was recorded, or after limit distinct others |
| `BridgeInbound.AtMostOnce` | fairyclaw/bridge/user_gateway.py:524-541 | over every run a frame is submitted at most once iff no two submissions of it that both succeed are under way at once, and none that succeeds begins after limit distinct other frames since its last |
| `BridgeInbound.GuardedAtMostOnce` | fairyclaw/bridge/user_gateway.py:524-541 | it is enough that no visited state has two handlers submitting the frame and that it is never received after limit distinct others |
| `BridgeInbound.OverlapSubmitsTwice` | fairyclaw/bridge/user_gateway.py:524-541 | for every limit a run in which a frame is resent on a second connection while the handler of the first still submits it, and is submitted twice |
| `BridgeOutbound.UserGateway.PushOutbound` | fairyclaw/bridge/user_gateway.py:163-171 | appends to the bounded backlog, evicting the oldest, and picks the active socket |
| `BridgeOutbound.UserGateway.ReplayBacklog` | fairyclaw/bridge/user_gateway.py:376-384 | sends exactly the unacked backlog frames, in order |
| `BridgeOutbound.UserGateway.AcceptHello` | fairyclaw/bridge/user_gateway.py:434-481 | the greeting socket becomes the active one |
| `BridgeOutbound.UserGateway.HandleOutboundAck` | fairyclaw/bridge/user_gateway.py:640-647 | records ok and duplicate acks only |
| `BridgeOutbound.UserGateway.ConnectionEnded` | fairyclaw/bridge/user_gateway.py:420-430 | clears the active socket only if it is the one that ended |
| `BridgeOutbound.ReplayInOrder` | fairyclaw/bridge/user_gateway.py:376-384 | what a replay sends is the increasing selection of all unacked positions |
| `BridgeOutbound.StepKeepsInv` | fairyclaw/bridge/user_gateway.py:163-647 | every step of pushes, sends, handlers, drops and dispatch tasks keeps the outbound invariant |
| `BridgeOutbound.BacklogHolds` | fairyclaw/bridge/user_gateway.py:163-171 | a pushed frame is in the backlog iff fewer than maxlen frames were pushed after it, acked or not |
| `BridgeOutbound.AckedWasDispatched` | fairyclaw/gateway/bridge/ws_client.py:424-454 | an acked frame was dispatched by the gateway |
| `BridgeOutbound.ActiveSocket` | fairyclaw/bridge/user_gateway.py:420-481 | in every reachable state a socket is the active one iff its hello was the last one handled and its handler has not ended |
| `BridgeOutbound.OtherEndKeepsSocket` | fairyclaw/bridge/user_gateway.py:420-430 | the end of a connection leaves the socket of the next push as it was, unless its hello was the last one; then there is none |
| `BridgeOutbound.ResumeReplays` | fairyclaw/bridge/user_gateway.py:376-384 | handling a resume starts a replay of exactly the unacked frames of the backlog, in push order |
| `BridgeOutbound.ReplayKeepsOrder` | fairyclaw/bridge/user_gateway.py:376-384 | a replay sends its frames one by one behind what is on its way, in order |
| `BridgeOutbound.RefusedMeansFailed` | fairyclaw/gateway/bridge/ws_client.py:424-454 | a frame is refused only if its dispatch failed or its ok ack could not be sent |
| `BridgeOutbound.LostOutAck` | fairyclaw/gateway/bridge/ws_client.py:424-454 | a task that cannot send its ok ack tries a failed one, and drops that if it cannot send it |
| `BridgeOutbound.QuietConnectionDelivers` | fairyclaw/bridge/user_gateway.py:376-384 | on a quiet resumed connection a backlog frame is dispatched and acked, or refused there, iff it was pushed before the resume was handled or onto this socket; the others are stranded |
| `BridgeOutbound.QuietWithoutFailures` | fairyclaw/bridge/user_gateway.py:376-384 | without failures, on a quiet connection exactly the covered frames of the backlog are dispatched and acked |
| `BridgeOutbound.LateHelloStrandsPushes` | fairyclaw/bridge/user_gateway.py:434-481 | a run in which an abandoned connection's hello is handled last and a later push stays unsent on the live, quiet connection |
| `History.PlainTextShows` | fairyclaw/core/agent/context/history_ir.py:76-84 | a text that occurs in one segment and needs no stripping occurs in the plain text of the message |
| `History.ChunksInOrder` | fairyclaw/core/agent/context/history_ir.py:76-84 | the plain text is made of the texts and file references of the segments, in their order, and of nothing else |
| `UnloadStore.UnloadedSegmentsState.AppendRecord` | fairyclaw/capabilities/compression_hooks/scripts/_unloaded_segments_state.py:81-116 | ignores empty records, re-arms the record with the same id, else appends |
| `UnloadStore.UnloadedSegmentsState.ConsumeRecords` | fairyclaw/capabilities/compression_hooks/scripts/_unloaded_segments_state.py:119-151 | hands out the wanted records not yet restored, in order, and marks their ids restored |
| `UnloadStore.AppendFacts` | fairyclaw/capabilities/compression_hooks/scripts/_unloaded_segments_state.py:81-116 | an append keeps ids unique and every other record, and leaves a live record with the id |
| `UnloadStore.ConsumeOnce` | fairyclaw/capabilities/compression_hooks/scripts/_unloaded_segments_state.py:119-151 | consuming a live id hands out exactly its record, touches no other, and hands out nothing the second time |
| `UnloadStore.UnloadAgain` | fairyclaw/capabilities/compression_hooks/scripts/_unloaded_segments_state.py:81-151 | unloading a consumed record again restores the store as it was |
| `UnloadStore.AppendChangesIff` | fairyclaw/capabilities/compression_hooks/scripts/_unloaded_segments_state.py:81-116 | an append changes nothing iff the record has no id or no segments, or is there already and active |
| `UnloadStore.HandsOutInOrder` | fairyclaw/capabilities/compression_hooks/scripts/_unloaded_segments_state.py:119-151 | what is handed out are the wanted active records at increasing positions of the store, all of them |
| `Compression.LatestTurnSuffixLength` | fairyclaw/capabilities/compression_hooks/scripts/context_compression.py:255-269 | the last message with its trailing tool rounds, or everything |
| `Compression.TruncateLargeItems` | fairyclaw/capabilities/compression_hooks/scripts/context_compression.py:272-315 | recompresses every image and truncates exactly the items outside head and tail |
| `Compression.KeepRecentHistory` | fairyclaw/capabilities/compression_hooks/scripts/context_compression.py:543-562 | keeps the shortest tail with the configured number of messages |
| `Compression.ReplaceImages` | fairyclaw/capabilities/compression_hooks/scripts/context_compression.py:446-490 | writes one record and rebuilds the message, or changes neither |
| `Compression.UnloadOldestImageMessage` | fairyclaw/capabilities/compression_hooks/scripts/context_compression.py:413-443 | unloads the first eligible message between prefix and protected tail, or nothing |
| `Compression.FindDroppableIndex` | fairyclaw/capabilities/compression_hooks/scripts/context_compression.py:512-524 | the first unprotected item that is no message showing an unload marker |
| `Compression.RunUnloadLoop` | fairyclaw/capabilities/compression_hooks/scripts/context_compression.py:129-147 | terminates by image segments left, for any token count, with the history and store of the recursive specification |
| `Compression.RunDropLoop` | fairyclaw/capabilities/compression_hooks/scripts/context_compression.py:149-163 | terminates by history length, for any token count |
| `Compression.ExecuteHook` | fairyclaw/capabilities/compression_hooks/scripts/context_compression.py:55-173 | the outcome and the store after a whole run of the hook |
| `Compression.UnloadDropsImages` | fairyclaw/capabilities/compression_hooks/scripts/context_compression.py:446-490 | each unload strictly lowers the number of image segments |
| `CompressionTheorems.SuffixIsBlock` | fairyclaw/capabilities/compression_hooks/scripts/context_compression.py:255-269 | the protected tail is one message followed by tool rounds only, or the whole of a history without messages |
| `CompressionTheorems.TruncationProtects` | fairyclaw/capabilities/compression_hooks/scripts/context_compression.py:272-315 | head and last block pass through truncation with only their images recompressed |
| `CompressionTheorems.TruncationShortens` | fairyclaw/capabilities/compression_hooks/scripts/context_compression.py:272-325 | with images recompressed, truncation only cuts ends off: of a tool round's arguments and result, and of an assistant message's plain text; who speaks, tool, call id and success stay |
| `CompressionPhases.TruncationCuts` | fairyclaw/capabilities/compression_hooks/scripts/context_compression.py:272-325 | head and tail pass, and every other item is cut exactly to its limit: a text longer than a positive limit at that limit, back to its last visible character, with a note; any other stays |
| `CompressionPhases.RecompressReplacesImages` | fairyclaw/capabilities/compression_hooks/scripts/context_compression.py:328-378 | recompression replaces the images of a message, each in its place, and nothing else |
| `CompressionTheorems.RecentTail` | fairyclaw/capabilities/compression_hooks/scripts/context_compression.py:543-562 | the recency phase keeps some of the items themselves, unchanged and in their order, the last block among them |
| `CompressionTheorems.RecentCounts` | fairyclaw/capabilities/compression_hooks/scripts/context_compression.py:103-112 | the recency phase keeps the tail with as many messages as configured, at least one, starting with a message, or everything if there are fewer; a sub-session also keeps everything up to the first user message |
| `CompressionTheorems.RecentHead` | fairyclaw/capabilities/compression_hooks/scripts/context_compression.py:103-112 | in a sub-session it also keeps everything up to the first user message |
| `CompressionTheorems.CompressionPreserves` | fairyclaw/capabilities/compression_hooks/scripts/context_compression.py:78-163 | for every environment and store: the output is some of the items of the truncated history, in their order; tool rounds are unchanged, and a message is unchanged or has exchanged images for the placeholders of unloads of this run, its other segments all there in order and each missing image in one of those unloads; last block and sub-session head survive undropped, untruncated and not unloaded |
| `CompressionTheorems.CompressionExhausts` | fairyclaw/capabilities/compression_hooks/scripts/context_compression.py:129-163 | for every environment and store, the run ends within the budget, or with nothing unprotected but messages that show an unload marker |
| `CompressionPhases.StopsInTime` | fairyclaw/capabilities/compression_hooks/scripts/context_compression.py:70-128 | the hook skips iff there is no budget or the prompt is within it, stops after the first phase that brings the history within it, and unloads nothing before |
| `CompressionPhases.UnloadsLeast` | fairyclaw/capabilities/compression_hooks/scripts/context_compression.py:129-147 | the first loop unloads the least number of messages, oldest first, that brings the history within the budget, or all it can |
| `CompressionPhases.DropsLeast` | fairyclaw/capabilities/compression_hooks/scripts/context_compression.py:149-163 | the second loop drops the least number of droppable items, oldest first, that brings the history within the budget, or all of them |
| `CompressionPhases.UnloadedImagesIff` | fairyclaw/capabilities/compression_hooks/scripts/context_compression.py:446-490 | an unload takes an image out iff no restored record holds one of its fingerprint or at least the guarded number of messages came after |
| `CompressionPhases.PlaceholderTells` | fairyclaw/capabilities/compression_hooks/scripts/context_compression.py:446-490 | no two placeholders with ids of one length look alike: a placeholder names its unload and its number of images |
| `CompressionTheorems.UnloadedIsShown` | fairyclaw/capabilities/compression_hooks/scripts/context_compression.py:132-163 | every image message unloaded in a run shows its placeholder in the output, whatever the digest and the store |
| `CompressionTheorems.RecoverableIff` | fairyclaw/capabilities/compression_hooks/scripts/context_compression.py:446-509 | the unloads of a run are all recoverable iff none met other segments under its shortened digest, in the store or in the run; ids stay unique either way |
| `UnloadCollisions.RecoverableAlwaysIff` | fairyclaw/capabilities/compression_hooks/scripts/context_compression.py:129-147 | for a store and a history: every run, whatever the token counts and the budget, unloads recoverably iff the unloads planned from store and history alone meet no other images under their ids |
| `UnloadCollisions.PlanIsEachMessage` | fairyclaw/capabilities/compression_hooks/scripts/context_compression.py:413-490 | with nothing recently restored, or no guard, that plan is one unload of all images for each message with images between the kept head and the last block, in order |
| `UnloadCollisions.SeparatedRecovers` | fairyclaw/capabilities/compression_hooks/scripts/context_compression.py:446-509 | recently restored images or not: if the digests of what the history could lose differ from each other and from the store's, every unload of every run is recoverable |
| `UnloadCollisions.SharedDigestLosesImage` | fairyclaw/capabilities/compression_hooks/scripts/context_compression.py:493-509 | two messages with one image each under one digest: every run that stays over its budget loses one of them |
| `CompressionTheorems.UnloadedIsRecoverable` | fairyclaw/capabilities/compression_hooks/scripts/context_compression.py:132-163 | under an injective digest every unload of the run still has its placeholder in the output and a live record with exactly its segments; ids stay unique |
| `CompressionTheorems.RecoverableConsumes` | fairyclaw/capabilities/compression_hooks/scripts/_unloaded_segments_state.py:119-151 | asking for such an id hands out exactly those segments, once |
| `CompressionTheorems.StoreStaysOk` | fairyclaw/capabilities/compression_hooks/scripts/_unloaded_segments_state.py:81-151 | over any sequence of hook runs and reloads from an empty store, ids stay unique and are the digests of what their records hold |
| `CompressionTheorems.DropLoopKeeps` | fairyclaw/capabilities/compression_hooks/scripts/context_compression.py:512-524 | the drop loop removes no message that shows a placeholder |
| `Cron.FieldValid` | fairyclaw/core/runtime/timer_models.py:91-122 | a field is accepted iff it is a comma-separated list of legal chunks of the grammar |
| `Cron.FieldMatches` | fairyclaw/core/runtime/timer_models.py:125-159 | on an accepted field matching never raises and is membership in the union of what its chunks denote |
| `Cron.FieldMatchesSome` | fairyclaw/core/runtime/timer_models.py:91-159 | an accepted field matches some value in its range |
| `Cron.ExpressionValid` | fairyclaw/core/runtime/timer_models.py:54-69 | an expression is accepted iff it is five words, each a legal field |
| `Cron.ChunkErrorIs` | fairyclaw/core/runtime/timer_models.py:91-122 | a refused chunk is reported as empty, for its step, or for its base as a range or a value |
| `Cron.ParseErrorIs` | fairyclaw/core/runtime/timer_models.py:54-69 | a refused expression is reported for the number of its words, else for its first field that is refused |
| `Cron.CleanFieldValidates` | fairyclaw/core/runtime/timer_models.py:91-122 | validation does not raise on a token whose digits are all decimals, in runs within the interpreter's digit limit |
| `Cron.ValidationTotalIff` | fairyclaw/core/runtime/timer_models.py:91-179 | validation never raises iff the text library has no digit that is not a decimal and, if it has digits at all, sets int() no limit |
| `Cron.FieldRaisesIff` | fairyclaw/core/runtime/timer_models.py:91-179 | validating a token raises iff some chunk reaches int() with digits that are no numeral or more than the limit, in the step or in the base after a legal step, every chunk before it being legal |
| `Cron.SuperscriptRaises` | fairyclaw/core/runtime/timer_models.py:175-179 | a lawful library, with the superscript two as a digit, on which validation raises |
| `Cron.LongNumeralRaises` | fairyclaw/core/runtime/timer_models.py:175-179 | and so does a numeral of 4301 plain digits, under the limit of 4300 the interpreter starts with |
| `Calendar.TickCounts` | fairyclaw/core/runtime/timer_models.py:77-87 | one minute later is one minute more, over hours, months, years and leap days |
| `Calendar.MinutesInjective` | fairyclaw/core/runtime/timer_models.py:77-87 | no two moments have the same minute count |
| `Calendar.PlusReaches` | fairyclaw/core/runtime/timer_models.py:77-87 | stepping a minute at a time reaches every later moment, after exactly as many steps as the minute counts differ |
| `CronSearch.NextFireAtForCron` | fairyclaw/core/runtime/timer_models.py:72-88 | the minute-by-minute loop computes the recursive search |
| `CronSearch.AcceptedIff` | fairyclaw/core/runtime/timer_models.py:54-69 | the expressions the parser accepts are those whose five fields each validate |
| `CronSearch.NextFireIsLeast` | fairyclaw/core/runtime/timer_models.py:72-88 | for an accepted expression and any scan length, clamped to one: the least matching minute strictly after now, None iff the window holds none, never an exception |
| `CronSearch.AlwaysFindsIff` | fairyclaw/core/runtime/timer_models.py:72-88 | with every weekday allowed, a fire time is found from every now in 366 days iff some allowed day and month exist in every year |
| `CronSearch.AlwaysFindsByCycle` | fairyclaw/core/runtime/timer_models.py:72-88 | for any accepted fields, weekdays included: a fire time is found from every now iff it is found from every now of the first 400 years |
| `CronSearch.DailyFinds` | fairyclaw/core/runtime/timer_models.py:72-88 | with every day, month and weekday allowed it is found within 1440 minutes |
| `CronSearch.WeeklyFinds` | fairyclaw/core/runtime/timer_models.py:72-88 | with every day and month allowed it is found within a week, whatever the weekdays |
| `CronSearch.WindowIsTight` | fairyclaw/core/runtime/timer_models.py:72 | a window one minute shorter than 366 days misses a yearly fire time across a leap day |
| `CronSearch.Friday13NotFound` | fairyclaw/core/runtime/timer_models.py:72-88 | an accepted expression for each Friday the thirteenth finds nothing from the fourteenth of August 1999 |
| `CronTimers.SearchIsLawful` | fairyclaw/core/runtime/timer_runtime_store.py:150-160 | the cron search meets what the job theorems ask of a search |
| `CronTimers.NextIsFound` | fairyclaw/core/runtime/timer_runtime_store.py:150-160 | for an accepted expression the search of the job table is what the cron loop finds, as an instant |
| `CronTimers.RefusedIff` | fairyclaw/core/runtime/timer_runtime_store.py:49-93 | a request within its bounds for an accepted expression is refused iff the search from its anchor finds nothing, and then for that |
| `CronTimers.LeapDayRefused` | fairyclaw/core/runtime/timer_runtime_store.py:49-93 | a job for midnight on each 29th of February, from the first of March 2021, is refused though its expression is accepted |
| `TimerJobs.TimerJobRepository.SelectDue` | fairyclaw/infrastructure/database/repository.py:957-973 | the due jobs, earliest first, up to the limit |
| `TimerJobs.TimerJobRepository.ClaimDueJobs` | fairyclaw/infrastructure/database/repository.py:948-988 | claims exactly the selected rows and changes no other |
| `TimerJobs.TimerJobRepository.UpdateAfterRun` | fairyclaw/infrastructure/database/repository.py:990-1036 | the whole row after a run |
| `TimerJobs.TimerJobRepository.Cancel` | fairyclaw/infrastructure/database/repository.py:1038-1052 | the whole row after a cancel |
| `TimerJobs.TimerRuntimeStore.CreateJob` | fairyclaw/core/runtime/timer_runtime_store.py:49-93 | the bounds on a request, in order, and the first fire time |
| `TimerJobs.TimerRuntimeStore.MarkJobResult` | fairyclaw/core/runtime/timer_runtime_store.py:126-170 | verdict, next fire time and row update together |
| `TimerOperations.CreateRefusals` | fairyclaw/core/runtime/timer_runtime_store.py:49-77 | a request is refused for the first of its faults, in order: deadline, runs, interval or expression, no fire time |
| `TimerOperations.CreatedStarts` | fairyclaw/core/runtime/timer_runtime_store.py:49-93 | when a created job fires first, and its deadline, in seconds from now |
| `TimerOperations.DueIff` | fairyclaw/infrastructure/database/repository.py:957-971 | a job may be claimed iff it is active and unfinished, its time has come and nobody claimed it in the last two minutes |
| `TimerOperations.SelectionIsStart` | fairyclaw/infrastructure/database/repository.py:957-973 | what is selected is the start, of at most limit rows, of all due jobs in the order of their fire times |
| `TimerOperations.ClaimIs` | fairyclaw/infrastructure/database/repository.py:974-988 | a claimed job runs under its worker's name from now on; nothing else about it, and no other job, changes |
| `TimerOperations.AfterRunIs` | fairyclaw/infrastructure/database/repository.py:990-1036 | an update without a verdict completes a job without a next fire time, or an active one without runs or time left; a verdict stands |
| `TimerOperations.MarkedIs` | fairyclaw/core/runtime/timer_runtime_store.py:126-170 | a result fails a job after a third failure in a row, else completes it without runs or time left, else fails it without a next fire time, else runs it on with the next fire time |
| `TimerOperations.CancelIs` | fairyclaw/infrastructure/database/repository.py:1038-1052 | a cancel ends and frees the job and changes nothing else about it |
| `TimerRuns.StepKeepsInv` | fairyclaw/infrastructure/database/repository.py:948-1052 | every step of any number of watchdogs, creations, cancels and the clock keeps the job invariant |
| `TimerRuns.JobsOnlyFinish` | fairyclaw/infrastructure/database/repository.py:948-1052 | over every run a job stays in the table, is never active again once inactive, and its next fire time never moves back while active |
| `TimerRuns.ActiveJobs` | fairyclaw/core/runtime/timer_runtime_store.py:141-160 | an active job is pending or running, has fewer than three failures in a row and runs left |
| `TimerRuns.MarkAdvances` | fairyclaw/core/runtime/timer_runtime_store.py:150-160 | settling an outstanding claim moves the next fire time strictly forward |
| `TimerRuns.MarkSetsNext` | fairyclaw/core/runtime/timer_runtime_store.py:150-160 | a job still active after a settlement fires next an interval, of two seconds at least, after it, or when the cron search from then says |
| `TimerRuns.ThreeInARow` | fairyclaw/core/runtime/timer_runtime_store.py:141-149 | a heartbeat job without bounds ends by its failures iff the last three results are failures: a success starts the count again |
| `TimerRuns.TicksAccounted` | fairyclaw/core/events/session_scheduler.py:319-386 | over every run, late claims or not: ticks plus settlements that published none are the runs counted plus the ticks published and not yet settled |
| `TimerRuns.BoundHoldsIff` | fairyclaw/core/events/session_scheduler.py:319-386 | a job has ticked at most max_runs times iff runs counted plus ticks still out exceed max_runs by no more than the settlements without a tick |
| `TimerRuns.TicksAreBounded` | fairyclaw/core/events/session_scheduler.py:319-386 | a job of which no two claims are ever held at once ticks at most max_runs times, whatever happens to other jobs |
| `TimerRuns.SettlingAdvances` | fairyclaw/core/runtime/timer_runtime_store.py:126-170 | then every settlement of it that keeps it active moves the next fire time strictly forward |
| `TimerRuns.HeartbeatsAreSpaced` | fairyclaw/core/runtime/timer_runtime_store.py:150-160 | over runs in which no two claims of it are held at once, a heartbeat job's next fire time moves on by at least its interval for each run counted |
| `TimerRuns.TimelyHeldOnce` | fairyclaw/infrastructure/database/repository.py:956-971 | a job whose claims are each settled before they go stale is never held twice |
| `TimerRuns.StaleClaimTicksTwice` | fairyclaw/infrastructure/database/repository.py:956-971 | a run in which a stale claim is taken again and a job allowed one run ticks twice |
| `TimerRuns.MarkAfterCancel` | fairyclaw/infrastructure/database/repository.py:1014-1022 | a result after a cancel leaves the job inactive, and puts its status back to running iff nothing ends the job and it has a next fire time |
| `Patch.SplitHunks` | fairyclaw/capabilities/code_repair_ops/scripts/repair_apply_unified_patch.py:67-81 | collects the hunks of a patch |
| `Patch.HunksRoundTrip` | fairyclaw/capabilities/code_repair_ops/scripts/repair_apply_unified_patch.py:67-79 | reading a written patch gives its hunks back; lines before the first header are dropped |
| `Patch.SidesByLine` | fairyclaw/capabilities/code_repair_ops/scripts/repair_apply_unified_patch.py:90-104 | what each kind of line says about the old and the new file, in order: a marked line its text, an unmarked one itself, an empty one or a header nothing |
| `Patch.FindSequence` | fairyclaw/capabilities/code_repair_ops/scripts/repair_apply_unified_patch.py:136-145 | the first occurrence from the start position |
| `Patch.ApplyBody` | fairyclaw/capabilities/code_repair_ops/scripts/repair_apply_unified_patch.py:85-124 | one round over a hunk: search ahead, search from the top, splice, move the cursor |
| `Patch.ApplyPatch` | fairyclaw/capabilities/code_repair_ops/scripts/repair_apply_unified_patch.py:64-125 | the result for a whole patch, with both error cases |
| `Patch.HunkFailsIff` | fairyclaw/capabilities/code_repair_ops/scripts/repair_apply_unified_patch.py:105-117 | a hunk fails iff it removes lines and its old block is nowhere in the file |
| `Patch.HunkGoesFirst` | fairyclaw/capabilities/code_repair_ops/scripts/repair_apply_unified_patch.py:105-117 | the new block takes the place of the first old one from the cursor on, or else of the first in the file, and the cursor moves behind it |
| `Patch.RefusedIff` | fairyclaw/capabilities/code_repair_ops/scripts/repair_apply_unified_patch.py:79-117 | a patch is refused as empty iff it has no hunk header, and as not matching iff some hunk removes lines that are not there when its turn comes |
| `Patch.PatchGivesNewFile` | fairyclaw/capabilities/code_repair_ops/scripts/repair_apply_unified_patch.py:64-125 | hunks that each remove lines, in file order, with old blocks first occurring at their true place, give the new file line for line |
| `Patch.ReversedPatchRestores` | fairyclaw/capabilities/code_repair_ops/scripts/repair_apply_unified_patch.py:64-125 | the reversed patch then gives back the original, if each hunk adds lines too and the new blocks first occur at their true place |
| `Patch.PatchBalances` | fairyclaw/capabilities/code_repair_ops/scripts/repair_apply_unified_patch.py:83-125 | on every success the multiset of lines loses exactly the removed and gains exactly the added texts |
| `Patch.PatchLength` | fairyclaw/capabilities/code_repair_ops/scripts/repair_apply_unified_patch.py:83-125 | so the length changes by additions minus removals |
| `Patch.InsertionIff` | fairyclaw/capabilities/code_repair_ops/scripts/repair_apply_unified_patch.py:118-124 | a hunk that only adds, its context found from the cursor on, lands where it means to iff moving its additions before its context changes nothing |
| `Patch.InsertionAtCursor` | fairyclaw/capabilities/code_repair_ops/scripts/repair_apply_unified_patch.py:118-124 | if its context is nowhere from the cursor on, its additions go in at the cursor |
| `Patch.InsertionMisplaced` | fairyclaw/capabilities/code_repair_ops/scripts/repair_apply_unified_patch.py:118-124 | a patch the tool accepts that adds a line after its context puts it before |
| `FileTransfer.SplitContent` | fairyclaw/gateway/bridge/ws_client.py:192-204 | the loop over offsets builds exactly the chunk frames of the content |
| `FileTransfer.PiecesJoin` | fairyclaw/gateway/bridge/ws_client.py:194-195 | the pieces are nonempty and join up to the content |
| `FileTransfer.GatewayFileService.PutInit` | fairyclaw/core/gateway_protocol/files.py:46-58 | a fresh upload with no chunks |
| `FileTransfer.GatewayFileService.ReceiveChunk` | fairyclaw/core/gateway_protocol/files.py:60-81 | unknown upload, duplicate, length mismatch or stored, and no other upload touched |
| `FileTransfer.GatewayFileService.PutCommit` | fairyclaw/core/gateway_protocol/files.py:83-132 | each refusal leaves everything; success stores the joined content and forgets the upload |
| `FileTransfer.GatewayFileService.GetChunks` | fairyclaw/core/gateway_protocol/files.py:134-170 | the chunks of a file of this session, or not found |
| `FileTransfer.Assemble` | fairyclaw/gateway/bridge/ws_client.py:252 | joins the received chunks in the order of their numbers |
| `FileTransfer.ChunkTakenIff` | fairyclaw/core/gateway_protocol/files.py:60-81 | a chunk is taken iff its number is new and its data as long as it says, and is then held under its number; otherwise the upload stays as it is |
| `FileTransfer.CommitStoresIff` | fairyclaw/core/gateway_protocol/files.py:83-132 | some content is stored iff the upload holds the announced number of chunks without a gap, and their join has the announced size and digest |
| `FileTransfer.CommitRefusals` | fairyclaw/core/gateway_protocol/files.py:83-132 | why a commit is refused: the count first, then a gap, then the size, then the digest |
| `FileTransfer.UploadCommitsIff` | fairyclaw/core/gateway_protocol/files.py:60-132 | in any order, repeated or mixed with damaged frames: the commit stores exactly the content iff every chunk arrived, else it is refused for its count |
| `FileTransfer.DownloadRestoresIff` | fairyclaw/gateway/bridge/ws_client.py:229-253 | a reassembled download equals the stored content iff every chunk arrived |
| `FileTransfer.LastChunk` | fairyclaw/core/gateway_protocol/files.py:151-165 | only the last chunk says it is the last; an empty file has no chunks and comes back empty |

## Left out

- Bus and scheduler shutdown: cancelling a worker in the middle of a dispatch drops its token, so all bus results are about runs before `stop()`.
- The planner, hooks, tools and the language model: a turn is a step that ends and may publish anything.
- Resolving capability groups and turn preferences in `run_session`, and an exception raised there before the turn's try block, which would leave `inflight` set.
- Heartbeat timestamps: they only decide what the watchdog logs.
- A failing event handler: the bus logs it and goes on to the next event, as the model does after a handler that succeeded.
- The session history a user message is written to before it reaches the mailbox.
- The two directions of the bridge are two machines; no step of one depends on the other's data.
- Token checks, session opening, heartbeats, control frames and telemetry on the bridge; WebSocket framing and JSON.
- Reading the unload store in modes "latest" and "all", and the stripping of the ids a caller passes.
- Reading and writing the state file: the store is the list it holds.
- Configuration defaults and the telemetry of the compression hook; a recompression that changes the number of segments.
- Zones with a changing offset, and times past the year 9999, where datetime arithmetic raises.
- What `int()` gives for text that is not made of digits (signs, blanks, underscores) stays unspecified: validation never asks for it.
- Job payloads, owners, error texts and the created and updated times; deleting a session's jobs with it.
- Time passing between reading the clock and taking the store's lock in `mark_job_result`.
- Patch sources whose last line has no newline, other line separators, several files in one patch, and the size and path rules of the tool around it.
- Negative chunk numbers, which only another client would send, and data that is no base64, on which decoding raises.
- Two commits of one upload at the same time.
- SQLAlchemy, SQLite retries, adapters, OneBot commands, CLI, web UI, capability loading and path checks.
