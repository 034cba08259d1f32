# NX-Cast: verified model of ownership, execution and service control

NX-Cast is a media receiver for a game console. DLNA, AirPlay and IPTV compete
for one player; this project models, in Dafny 4.11, the layer that decides who
owns the player, which commands are executed and which services may run, and
some smaller algorithms whose loops and arithmetic carry real proofs.
`dafny verify dfyconfig.toml` checks everything.

* **Media actor** (`MediaActorModel`, `MediaActorInvariant`, `MediaActorRuns`,
  `MediaActorAnswers`, `Coalescing`, `MockSeeks`, `MediaActorRing`). A bounded command queue with one
  worker, many submitters, waiters that may time out, reserved slots, tail
  coalescing, reference-counted requests, re-entrant calls, quiesce and stop. Each
  mutex-protected region is one step, and the steps of all threads mix freely.
  The C heap is explicit: a freed block is gone, and following a freed address
  is an error of the model. `MediaActorRing.MediaActor` is the actor itself, a
  ring in an array; every method is proved to do exactly what the step does.
* **Leases** (`Ownership`, `MediaSession`, `MediaCoordinator`,
  `LeaseValidation`). The generation-stamped registry, the session that follows
  it, the coordinator's synchronisation and automatic release, and the path of a
  lease from a player request to the check before execution. The classes
  `PlayerOwnership`, `SessionCell` and `CoordinatorCell` are the C structs.
* **Service threads** (`ServiceLifecycle`, `ServiceRuns`, `ServiceExclusion`,
  `ServiceConvergence`, `ResourceWorker`). Start workers, the resource worker, tick and stop as threads
  with program counters, under a desired mode that changes at any time; and the
  resource worker as a loop over an array when nothing interferes.
* **The coordinator as a whole** (`TerminalRelease`, `MainLoop`,
  `MainLoopInvariant`, `MainLoopRuns`, `ResourceWait`). Both halves under their one
  lock; the main thread that observes playback and ticks, its synchronisation in
  four regions that others interrupt; the threads that claim and release under the
  transition lock; and the wait for a lease's services.
* **Network diagnostics** (`NetworkDiagnostics`, `DiagnosticsOverflow`,
  `DiagnosticsAlone`, `DiagnosticSlots`). Lock-free slots at the grain of single atomic accesses.
* **IPTV lists** (`IptvRows`, `IptvIndex`, `IptvState`). Filter counts, visible
  index, recent list, favorites and the commit of a new catalog.
* **Saving** (`SavedFile`), **guide times** (`CivilDays`, `XmltvGuide`),
  **text** (`Utf8`), **seek targets** (`SeekTarget`), **growth** (`DataGrowth`).

Fields and variables called history are kept for stating properties and have no
counterpart in the program. In the state machines `Reachable` means: by any
finite run from the initial state.

## What the proofs found

* `media_actor_wait_idle` reports idleness while a re-entrant call runs, because
  that path never sets the current command (`MediaActorRuns.IdleMissesDirectCalls`).
  A run reports idleness truthfully at every point exactly when no re-entrant call
  was accepted at an idle moment: no dequeued command, empty queue
  (`MediaActorRuns.IdleReportedTruthfully`).
* With the mock backend, coalescing loses a queued seek that a seek to a negative
  position replaces: the mock refuses negative positions
  (`MockSeeks.NegativeSeekLosesItsPredecessor`). Throughout a run every batch of
  coalesced commands means its last exactly when no asynchronous negative seek took
  the place of a queued valid one (`MockSeeks.CoalescingFaithfulExactly`), and then
  the meaning of all submissions is kept (`MockSeeks.MeaningKeptWithoutLostSeeks`).
* A session whose lease lags 2^31 generations behind takes the current claim for
  an old one, and a run gets there (`MediaCoordinator.HalfACycleIsTooOld`); one
  synchronisation converges exactly when the current generation is newer, or the
  lag needs no comparison (`MediaCoordinator.SyncConvergesExactly`).
* An operation that found no free slot is subtracted once for every copy of its
  token that is ended (`DiagnosticsOverflow.OverflowedTokenIsSubtractedTwice`). The
  active count is right exactly when no token without a slot was ended through two
  copies (`DiagnosticsOverflow.ActiveIsRightExactly`).
* An automatic release finds up the services of the mode then desired
  (`TerminalRelease.ReleaseFoundServicesSettled`), and that these are the lease's own
  depends on the tick. If the caller has ticked since its last observation, as the
  main loop does, they are, whatever other threads do in between
  (`MainLoopRuns.ReleaseFoundOwnServices`). A caller that observes twice without a
  tick, while a DLNA thread pauses between its claim and its mode, gives the lease
  up with AirPlay up (`MainLoopRuns.ReleaseWithoutTick`); without the tick they are
  the lease's own exactly if both modes ask for the same enabled services
  (`TerminalRelease.ReleaseFoundOwnServicesExactly`).
* After a failed rollback only the backup is left, and every later save is
  refused until the path is restored (`SavedFile.FileSystem.Replace`); nothing is
  lost by that.

## Model

| member | source | states |
|---|---|---|
| MediaActorRuns.StepsAreMemorySafe | source/player/core/media_actor.c:382-451 | no interleaving reaches a step that would follow the address of a freed request; every step a thread's control flow allows can be taken |
| MediaActorRuns.ReferencesExact | source/player/core/media_actor.c:259-269 | a request's references are 1 if it is queued or in the worker's hands plus 1 if its submitter still waits |
| MediaActorRuns.FreedOnce | source/player/core/media_actor.c:153-162 | a request is freed at most once, when it is gone, and its opaque is released then exactly if it was retained |
| MediaActorRuns.NothingLeaks | source/player/core/media_actor.c:307-326 | with the worker gone and no waiter left, every request was freed once and every retain released |
| MediaActorRuns.WaitAnswers | source/player/core/media_actor.c:844-882 | a waiter that leaves gets one of the final answers or a timeout, never ACCEPTED; a timeout exactly while the request can still be executed |
| MediaActorRuns.WaitNeverAnswersAccepted | source/player/core/media_actor.c:716-845 | nor does a waiting submission answer ACCEPTED before it comes to wait: it is refused for a reason, waits, or on the worker thread runs and answers with its outcome |
| MediaActorRuns.CommandLedger | source/player/core/media_actor.c:271-326 | submitted = executed + stale + coalesced + pending + in execution + drained at shutdown, in every reachable state |
| MediaActorRuns.DequeueOrder | source/player/core/media_actor.c:798-840 | command ids dequeued so far and then those queued form one strictly increasing sequence, coalescing included |
| MediaActorRuns.NormalCommandsLeaveRoom | source/player/core/media_actor.c:823-833 | commands that are not urgent never take the reserved slots; the high-water mark bounds the depth |
| MediaActorRuns.UrgentFullOnlyBehindUrgent | source/player/core/media_actor.c:823-833 | an urgent command is refused as full only when the urgent commands queued are at least the reserved slots |
| MediaActorRuns.QuiescedStaysIdle | source/player/core/media_actor.c:605-643 | a quiesced idle actor accepts and dequeues nothing until it is started again; what finishes are nested calls already begun |
| MediaActorRuns.IdleMissesDirectCalls | source/player/core/media_actor.c:615-643 | a run in which idleness as tested holds while a re-entrant call executes |
| MediaActorRuns.HonestExactly | source/player/core/media_actor.c:729-754 | a step makes the idleness test untrue exactly if it accepts a re-entrant call while the queue is empty and no dequeued command is held |
| MediaActorRuns.IdleReportedTruthfully | source/player/core/media_actor.c:615-643 | in every run the test is true to what executes at every point exactly when no such call was accepted |
| MediaActorAnswers.WaiterIsToldTheTruth | source/player/core/media_actor.c:271-326 | in every run a waiter is told EXECUTED exactly when validate let its command pass and execute succeeded, EXECUTION_FAILED when execute failed, STALE when validate refused, SHUTTING_DOWN when it was drained, and a timeout when none of that has happened yet |
| MediaActorAnswers.NestedIsToldTheTruth | source/player/core/media_actor.c:756-776 | a re-entrant call is told the same of its own validate and execute |
| MediaActorAnswers.HealthIsTheStory | source/player/core/media_actor.c:271-326 | in every run executed, failed, stale, full, stopping, coalesced and timed-out counts, the last completed command and the greatest depth are what happened |
| MediaActorAnswers.DispatchesExactly | source/player/core/media_actor.c:328-426 | a worker in its loop with empty hands may dequeue exactly if it is not stopping and was started active or activated since |
| MediaActorAnswers.AnsweredExactly | source/player/core/media_actor.c:716-845 | when a submission is answered each way: taken in exactly if well formed, with memory, accepted, and either replacing a newest command of its kind that nobody waits for or finding a free slot, the last ones being for four kinds only |
| MediaActorInvariant.StepKeepsInv | source/player/core/media_actor.c:382-451 | every step of every thread keeps heap ledger, exact references, completion, order, reserved room, command ledger and lifecycle flags |
| MediaActorInvariant.InitialInv | source/player/core/media_actor.c:477-517 | a new actor satisfies all of them |
| MediaActorInvariant.RejectPendingDrains | source/player/core/media_actor.c:307-326 | the rejection loop empties the queue, completes each request as SHUTTING_DOWN and counts each |
| Coalescing.CoalescingPreservesMeaning | source/player/core/media_actor.c:798-821 | for any executor in which a replaceable command absorbs an earlier one it may replace and any fixed validator, at every point of every run the finished commands and then the queue leave the player as the accepted submissions one by one would |
| Coalescing.BatchesPreserveMeaning | source/player/core/media_actor.c:798-821 | the same when only the last command of each coalesced batch absorbs the others of its batch |
| Coalescing.LogIsAcceptances | source/player/core/media_actor.c:716-840 | the history of accepted submissions grows by exactly the submissions the queue accepted |
| Coalescing.RunFaithful | source/player/core/media_actor.c:798-840 | in every run each finished, running or queued command stands for a batch of accepted submissions that it may replace, in order |
| Coalescing.BatchMeansItsLast | source/player/core/media_actor.c:217-231 | executing a batch of commands that its last may replace and absorbs has the effect of the last |
| MockSeeks.BatchExactly | source/player/backend/mock.c:203-244 | on the mock backend a coalesced batch means its last command, for every player and validator, exactly when that is no negative seek or all seeks of the batch are negative |
| MockSeeks.MockDoes | source/player/backend/mock.c:203-244 | the mock sets the nearest volume from 0 to 100, the mute flag, and the nearest position within the media |
| MockSeeks.StepKeepsSeeks | source/player/core/media_actor.c:798-821 | a step keeps that for all batches exactly if it does not put a negative seek in the place of a queued valid one |
| MockSeeks.CoalescingFaithfulExactly | source/player/core/media_actor.c:798-821 | in every run all batches mean their last command at every point exactly when no asynchronous negative seek ever took the place of a queued valid one |
| MockSeeks.MeaningKeptWithoutLostSeeks | source/player/core/media_actor.c:798-840 | and then finished commands and queue leave the player as the accepted submissions one by one would |
| MockSeeks.NegativeSeekLosesItsPredecessor | source/player/backend/mock.c:203-216 | a run of the actor in which coalescing two seeks leaves the mock player elsewhere than the submissions would |
| MediaActorRing.SlotIsModulo | source/player/core/media_actor.c:233-257 | the ring's modular index is the place counted from the head |
| MediaActorRing.PushContents | source/player/core/media_actor.c:233-243 | storing at the tail slot appends to the queue |
| MediaActorRing.PopContents | source/player/core/media_actor.c:245-257 | clearing the head slot and advancing removes the oldest |
| MediaActorRing.ReplaceContents | source/player/core/media_actor.c:801-815 | storing at the tail's own slot replaces the newest |
| MediaActorRing.MediaActor.constructor | source/player/core/media_actor.c:477-517 | a new ring is the initial state |
| MediaActorRing.MediaActor.QueuePush | source/player/core/media_actor.c:233-243 | the queue gains the request at its end and the high-water mark follows |
| MediaActorRing.MediaActor.QueuePop | source/player/core/media_actor.c:245-257 | the oldest request comes out, NULL exactly when the queue is empty |
| MediaActorRing.MediaActor.Submit | source/player/core/media_actor.c:778-845 | the code's branches refine the submission step, answers included, and keep the invariant |
| MediaActorRing.MediaActor.Leave | source/player/core/media_actor.c:866-882 | the code of a waiter that wakes or times out refines its step |
| MediaActorRing.MediaActor.TakeRequest | source/player/core/media_actor.c:400-426 | the worker's dequeue region refines its step |
| MediaActorRing.MediaActor.FinishRequest | source/player/core/media_actor.c:271-305 | the region that reports an outcome refines its step |
| MediaActorRing.MediaActor.RejectPending | source/player/core/media_actor.c:307-326 | the loop refines the repeated rejection of the model |
| MediaActorRing.MediaActor.InitializeWorker | source/player/core/media_actor.c:328-353 | the code after the initialize callback refines its step, failure draining the queue |
| MediaActorRing.MediaActor.WindDownWorker | source/player/core/media_actor.c:355-380 | the code of the winding-down worker refines its step |
| MediaActorRing.MediaActor.SubmitDirect | source/player/core/media_actor.c:729-754 | the entry of the re-entrant path refines its step and takes a command id without queueing |
| MediaActorRing.MediaActor.FinishDirect | source/player/core/media_actor.c:756-776 | its end refines its step and counts stale, executed or failed |
| MediaActorRing.MediaActor.IsIdle | source/player/core/media_actor.c:615-643 | what wait_idle tests is an empty queue and no dequeued command |
| MediaActorRing.MediaActor.Start | source/player/core/media_actor.c:519-582 | starting refines its step and answers whether a worker runs |
| MediaActorRing.MediaActor.Activate | source/player/core/media_actor.c:584-603 | activation refines its step and answers whether a worker runs that is not stopping and has not failed |
| MediaActorRing.MediaActor.Quiesce | source/player/core/media_actor.c:605-613 | quiescing refines its step |
| MediaActorRing.MediaActor.Stop | source/player/core/media_actor.c:645-677 | stopping refines its step, on the worker thread without a join |
| MediaActorRing.MediaActor.ExitWorker | source/player/core/media_actor.c:355-380 | the worker's last region refines its step |
| MediaActorRing.MediaActor.Join | source/player/core/media_actor.c:681-695 | the end of stop refines its step |
| Ownership.NextIsNext | source/player/core/ownership.c:71-77 | 32-bit increments that skip zero run through 1 .. 2^32 - 1 in a cycle |
| Ownership.SameGeneration | source/player/core/ownership.c:71-77 | two issues carry the same generation exactly when they are a multiple of 2^32 - 1 apart |
| Ownership.StepKeepsInv | source/player/core/ownership.c:86-176 | a lease in force is always the latest issued, and generations follow the issues |
| Ownership.ValidatesExactly | source/player/core/ownership.c:115-126 | an issued lease validates exactly when the lease in force was issued a whole number of cycles later to the same owner and token |
| Ownership.NoRevivedLease | source/player/core/ownership.c:86-176 | once replaced, released or reset, a lease does not validate again before 2^32 - 1 generations have been issued after it |
| Ownership.EndsExactly | source/player/core/ownership.c:140-176 | a release ends the lease it names, by itself or by owner and token, and no other; a reset ends any and uses up a generation |
| Ownership.PlayerOwnership.Claim | source/player/core/ownership.c:86-102 | a claim succeeds for every real owner, issues the next generation and reports the predecessor |
| Ownership.PlayerOwnership.Validate | source/player/core/ownership.c:115-126 | true exactly for the lease in force |
| Ownership.PlayerOwnership.Release | source/player/core/ownership.c:140-154 | clears exactly the lease given, if it is in force |
| Ownership.PlayerOwnership.ReleaseCurrent | source/player/core/ownership.c:156-168 | clears the lease in force if owner and token agree |
| Ownership.PlayerOwnership.Reset | source/player/core/ownership.c:170-176 | clears the lease and uses up a generation |
| MediaSession.TransitionKeepsInv | source/app/protocol_media_session.c:74-163 | every event keeps the session well formed: idle exactly without a lease |
| MediaSession.AppliedMeansChanged | source/app/protocol_media_session.c:74-163 | APPLIED bumps the revision, every other answer leaves the session untouched |
| MediaSession.LeaseChangesOnlyForward | source/app/protocol_media_session.c:31-64 | the session's lease changes only to a newer claim or to none |
| MediaSession.ClosedStaysClosed | source/app/protocol_media_session.c:74-163 | until a claim, release or reset a stopped session stays stopped and a failed one can only still be stopped; late playback reports change nothing |
| MediaSession.SessionShowsReports | source/app/protocol_media_session.c:74-163 | under one lease the session shows what was last reported while it was open: playing, paused or unknown by the last such report, control by the last attaching or detaching, and the phase by the last report until it fails or stops |
| MediaSession.ClaimStartsAfresh | source/app/protocol_media_session.c:31-64 | an applied claim leaves nothing of the lease before, so the session shows only what was reported since |
| MediaSession.RevisionCountsChanges | source/app/protocol_media_session.c:24-29 | the revision goes up by one with every change, from 2^32 - 1 to 1, and stays otherwise |
| MediaSession.NewerExactly | source/app/protocol_media_session.c:19-22 | the serial comparison accepts a generation issued k steps later exactly for the lags that count as newer, the skipped zero included |
| MediaSession.SessionCell.Handle | source/app/protocol_media_session.c:74-163 | the in-place transition is the transition function, status included |
| MediaCoordinator.StepKeepsInv | source/app/protocol_coordinator.c:1366-1493 | every region keeps the session within issued leases and the release timers true to what was observed |
| MediaCoordinator.SessionHears | source/app/protocol_coordinator.c:1366-1411 | the session hears every event it may be told and no other; the timers restart with its lease and stay with it |
| MediaCoordinator.SyncConvergesExactly | source/app/protocol_coordinator.c:510-538 | exactly when one uninterrupted sync makes session, active media and desired mode agree with the registry |
| MediaCoordinator.SyncConverges | source/app/protocol_coordinator.c:510-538 | it does so from every reachable state whose session lags at most 2^31 - 2 generations, after late CLAIMED events and releases behind its back |
| MediaCoordinator.HalfACycleIsTooOld | source/app/protocol_coordinator.c:510-538 | a reachable coordinator, its session 2^31 claims behind, that a sync leaves as far behind as it was |
| MediaCoordinator.AutoReleaseIsJustified | source/app/protocol_coordinator.c:1419-1493 | playback observation gives a lease up only after playback was seen active under it, or a terminal observation at least 1000 ms ago found the resources ready and all since did |
| MediaCoordinator.AutoReleaseExactly | source/app/protocol_coordinator.c:1419-1493 | and on a forward clock whenever that is so |
| MediaCoordinator.AutoReleaseSparesNewerOwner | source/app/protocol_coordinator.c:1761-1784 | releasing a lease that was superseded changes nothing |
| MediaCoordinator.BeginsExactly | source/app/protocol_coordinator.c:1584-1662 | a begin claims the player exactly for a real owner, while media is accepted, and with exclusive resources only from nobody or its own family of receivers |
| MediaCoordinator.ObservationEnds | source/app/protocol_coordinator.c:1419-1493 | a whole observation makes an open session active when playback is, and a decision to give up the lease in force leaves nobody with the player |
| MediaCoordinator.BeginConverges | source/app/protocol_coordinator.c:1584-1674 | a successful begin leaves registry, session and desired mode in agreement on the new owner |
| MediaCoordinator.ReleaseConverges | source/app/protocol_coordinator.c:1761-1784 | releasing the current lease leaves all of them without an owner |
| MediaCoordinator.CoordinatorCell.HandleEvent | source/app/protocol_coordinator.c:1366-1417 | the in-place event handler is the model's region |
| MediaCoordinator.CoordinatorCell.SyncActiveMedia | source/app/protocol_coordinator.c:510-538 | the code of the sync is the model's sync |
| MediaCoordinator.CoordinatorCell.MediaBegin | source/app/protocol_coordinator.c:1584-1674 | a begin claims for the owner and token or changes nothing |
| MediaCoordinator.CoordinatorCell.MediaRelease | source/app/protocol_coordinator.c:1761-1784 | releases exactly when the lease is the one in force |
| MediaCoordinator.CoordinatorCell.ObservePlayback | source/app/protocol_coordinator.c:1419-1493 | the code of the observation, report and release together, is the model's |
| TerminalRelease.StepKeepsInv | source/app/protocol_coordinator.c:1366-1493 | every step of all threads together keeps both halves of the coordinator well formed and agreed on desired mode and exclusivity, and what each observation found of the resources true |
| TerminalRelease.ReleaseFoundServicesSettled | source/app/protocol_coordinator.c:1445-1475 | a lease never seen playing is given up only after 1000 ms in which every terminal observation found no transition under way, none failed, and up exactly the services of the mode then desired |
| TerminalRelease.ReleaseFoundOwnServicesExactly | source/app/protocol_coordinator.c:1445-1475 | the services of the lease that is given up are in place exactly if its mode asks for the same enabled services as the one desired |
| TerminalRelease.QuietReleaseFoundOwnServices | source/app/protocol_coordinator.c:1419-1493 | after a sync that converged, while no other thread changes session or mode, a lease never seen playing is given up only with its owner's services in place |
| MainLoopInvariant.StepKeepsInv | source/app/protocol_coordinator.c:510-538 | every region of the tick's sync, of claiming and releasing threads and of all others keeps: once a tick ended after an observation, the mode desired is that of the session's lease |
| MainLoopRuns.ReleaseFoundOwnServices | source/app/protocol_coordinator.c:1419-1493 | if the caller has ticked since its last observation, a lease never seen playing is given up only with its owner's services in place, enabled ones up or stopped one by one, then and at each terminal observation of the last 1000 ms that followed a tick, however other threads interrupt the ticks |
| MainLoopRuns.InterruptedSyncConverges | source/app/protocol_coordinator.c:510-538 | a sync, whatever runs between its regions, leaves session, active media and mode in agreement with the registry if the lease it read is still in force at its end |
| MainLoopRuns.FewIssuesAreTimely | source/app/protocol_coordinator.c:510-538 | no session or sync is 2^31 issues behind before 2^31 generations were issued at all |
| MainLoopRuns.ReleaseWithoutTick | source/app/protocol_coordinator.c:1584-1674 | a run without a tick between two observations in which a DLNA lease is given up with AirPlay up, its claiming thread paused before it sets the mode |
| ResourceWait.WaitFoundOwnServices | source/app/protocol_coordinator.c:1697-1734 | a wait for a lease that answers true found it in force in registry and session, no transition under way and its owner's services in place, DLNA and AirPlay not both up |
| LeaseValidation.CommandCarriesItsLease | source/player/core/session.c:381-415 | a valid protocol request becomes a command that is checked against exactly the request's lease; application commands are never stale, and STOP_ANY never comes from a protocol |
| LeaseValidation.RequestReachesBackend | source/player/core/session.c:420-480 | every valid request ends in the backend call it is named after, with its own arguments |
| LeaseValidation.OtherCommandsReach | source/player/core/session.c:440-480 | quiescing stops playback, shutting down asks nothing of the backend, and an unknown kind fails |
| LeaseValidation.TakenExactly | source/player/core/session.c:636-702 | an accepting actor with a slot free for any command takes a request in exactly if it is well formed and, from a protocol, under the lease in force |
| LeaseValidation.AcceptedStandsLast | source/player/core/session.c:660-702 | what the actor accepts was allowed when submitted and stands last in the queue under its own producer and lease |
| LeaseValidation.StepKeepsSystemInv | source/player/core/session.c:399-415 | actor and registry keep their invariants when their steps mix |
| LeaseValidation.RetiredLeaseNeverExecutes | source/player/core/media_actor.c:271-304 | a command dequeued after its lease was retired is never executed and is counted stale, within a cycle of generations |
| LeaseValidation.RetiredLeaseNeverExecutesNested | source/player/core/media_actor.c:729-776 | so is a re-entrant call made after its lease was retired: it answers STALE, counted so, with nothing executed, however calls nest |
| ServiceRuns.StepKeepsInv | source/app/protocol_coordinator.c:547-1230 | every step of main thread, start workers and resource worker keeps flags, call histories, states and thread positions in accord |
| ServiceRuns.PairedSnoc | source/app/protocol_coordinator.c:640-686 | a call made in turn keeps start and stop calls paired |
| ServiceLifecycle.MatchServes | source/app/protocol_coordinator.c:420-464 | the match test for an owner's mode accepts exactly: enabled IPTV running, DLNA for DLNA or nobody, AirPlay for its two owners or nobody, the other enabled ones stopped, the rest disabled |
| ServiceExclusion.CallsPair | source/app/protocol_coordinator.c:547-569 | in every reachable state a stop call follows exactly each start that needs one, and stop_required says whether one is outstanding |
| ServiceExclusion.StartsOnlyWhenDown | source/app/protocol_coordinator.c:661-686 | no start is called while stop_required is set or a stop is outstanding |
| ServiceExclusion.CallsComeFrom | source/app/protocol_coordinator.c:640-686 | start is called by the two kinds of worker at one position each, and stop only when outstanding |
| ServiceExclusion.StopLeavesNothing | source/app/protocol_coordinator.c:1166-1230 | when stop has returned no stop is outstanding and no worker is left, even if it began in the middle of a transition |
| ServiceExclusion.EveryStartIsStopped | source/app/protocol_coordinator.c:1166-1230 | then each successful start was followed by exactly one stop before any later start |
| ServiceExclusion.PairedCounts | source/app/protocol_coordinator.c:640-686 | paired calls have as many stops as starts that need one, but for the last |
| ServiceExclusion.OneKindOfWorker | source/app/protocol_coordinator.c:886-948 | the resource worker never runs beside a start worker, serial startup included |
| ServiceExclusion.ExclusiveStart | source/app/protocol_coordinator.c:688-748 | a transition starts only what its target requires, and only when everything the target excludes is down |
| ServiceExclusion.NeverBothUp | source/app/protocol_coordinator.c:688-748 | past its first loop a transition to another mode than HOME has DLNA or AirPlay down, beside polls and after failed starts too |
| ServiceExclusion.SuccessMatchesTarget | source/app/protocol_coordinator.c:436-464 | a transition that completes successfully without an overlapping AirPlay poll leaves the services in place for every owner of its target, DLNA and AirPlay not both running outside HOME |
| ServiceConvergence.TransitionRuns | source/app/protocol_coordinator.c:688-766 | undisturbed, whatever the calls answer, the steps of the resource worker do to each service what the loops of ResourceWorker do, with the same result |
| ServiceConvergence.SupersededEnds | source/app/protocol_coordinator.c:688-738 | a transition whose target is no longer desired, or that finds the coordinator stopping, ends at its next test without a result |
| ServiceConvergence.FailureIsOfTheLast | source/app/protocol_coordinator.c:930-940 | while a transition is under way no failure is reported, so one reported is of the last that ended |
| ServiceConvergence.TickConverges | source/app/protocol_coordinator.c:1126-1164 | from rest one tick and the worker it launches bring the services in line with the mode desired, its owner's in place, and change nothing that is in line |
| ServiceConvergence.StartStarts | source/app/protocol_coordinator.c:1087-1124 | a start launches the enabled services, in a serial startup the first of them |
| ServiceConvergence.StartupCompletes | source/app/protocol_coordinator.c:547-638 | then, serial or not, ticks and start workers have all enabled services running and no worker left |
| ServiceConvergence.StopCompletes | source/app/protocol_coordinator.c:1166-1230 | a stop from rest ends with each outstanding service stopped once, nothing enabled and the coordinator down |
| ResourceWorker.ServiceTable.StopService | source/app/protocol_coordinator.c:640-659 | stop is called exactly if outstanding, and the service is marked stopped |
| ResourceWorker.ServiceTable.StartService | source/app/protocol_coordinator.c:661-686 | an outstanding stop comes first, then one start whose answer decides flag and state |
| ResourceWorker.ServiceTable.StopExcluded | source/app/protocol_coordinator.c:707-720 | the first loop brings down exactly the excluded services that are up |
| ResourceWorker.ServiceTable.StartRequired | source/app/protocol_coordinator.c:722-738 | the second loop brings up exactly the required ones that do not run |
| ResourceWorker.ServiceTable.RunTransition | source/app/protocol_coordinator.c:688-766 | an undisturbed run changes each service by the model's effects, succeeds exactly if all starts and the background callback do, and then leaves the services in place for every owner of the target |
| ResourceWorker.TransitionMatches | source/app/protocol_coordinator.c:436-464 | an undisturbed run whose starts succeed satisfies the match test for its target |
| ResourceWorker.TransitionKeepsPairs | source/app/protocol_coordinator.c:640-686 | it keeps calls paired and flags right |
| NetworkDiagnostics.StepKeepsInv | source/app/network_diagnostics.c:109-256 | every atomic access keeps slots whole, tokens unique to their slots, ends counted and snapshots consistent |
| NetworkDiagnostics.SnapshotShowsOneBegin | source/app/network_diagnostics.c:236-256 | token, start time and operation of a snapshot come from one begin |
| NetworkDiagnostics.LiveTokensHoldDistinctSlots | source/app/network_diagnostics.c:136-151 | two live tokens never hold one slot, and a live token is in its slot |
| NetworkDiagnostics.SlotTokenSubtractedOnce | source/app/network_diagnostics.c:168-204 | a token with a slot is subtracted at most once however many copies are ended at once, and once when an end has finished |
| NetworkDiagnostics.ActiveCountsOutstanding | source/app/network_diagnostics.c:132-204 | the active count never exceeds the operations outstanding and equals them exactly when no token was subtracted twice |
| NetworkDiagnostics.SizeOfSupport | source/app/network_diagnostics.c:202-203 | subtractions are as many as the tokens subtracted exactly when none repeats |
| DiagnosticsOverflow.EndsAreCounted | source/app/network_diagnostics.c:168-204 | a token was subtracted as often as end calls of it were counted |
| DiagnosticsOverflow.ActiveIsRightExactly | source/app/network_diagnostics.c:132-204 | in every reachable state the active count is the operations outstanding exactly when no token without a slot was ended through two copies |
| DiagnosticsOverflow.OverflowedTokenIsSubtractedTwice | source/app/network_diagnostics.c:152-153 | with all eight slots taken, ending two copies of one token subtracts twice and the active count falls short |
| DiagnosticsAlone.BeginAlone | source/app/network_diagnostics.c:109-155 | uninterrupted, the accesses of a begin draw the next identifier, count one operation and fill the first free slot, or count an overflow exactly if there is none |
| DiagnosticsAlone.EndAlone | source/app/network_diagnostics.c:168-204 | those of an end take the operation out of its slot and off the active count, unless another copy of its token was ended before |
| DiagnosticsAlone.SnapshotAlone | source/app/network_diagnostics.c:234-256 | those of a snapshot report as DiagnosticSlots.SubsystemSlots.OldestActive does |
| DiagnosticsAlone.CountsExactly | source/app/network_diagnostics.c:132-154 | however calls interleave, the operation count is the begins that counted themselves and the overflow count those that returned without a slot |
| DiagnosticSlots.SubsystemSlots.OperationBegin | source/app/network_diagnostics.c:109-155 | takes the first free slot, or none exactly when all are taken, and counts |
| DiagnosticSlots.SubsystemSlots.OperationEnd | source/app/network_diagnostics.c:168-204 | an operation taken out of its slot before is not subtracted again |
| DiagnosticSlots.SubsystemSlots.OldestActive | source/app/network_diagnostics.c:234-256 | the report is blank exactly without operations, else one operation's, and the oldest while clocks are positive |
| IptvRows.RowsExactly | source/iptv/iptv.c:1339-1346 | a filter's list is every matching channel once, in catalog order |
| IptvRows.RecentRowsExactly | source/iptv/iptv.c:1324-1338 | the recent list is the first match of each recent id that has one |
| IptvRows.RecentRowsInOrder | source/iptv/iptv.c:1324-1338 | in the order of the history |
| IptvRows.RecentRowsFit | source/iptv/iptv.c:1380-1386 | distinct recent ids never overflow an index with one place per channel |
| IptvRows.RecentRowsIgnoreFlag | source/iptv/iptv.c:1312-1320 | counting recent rows without the recent flag and listing them with it agree while the flag follows the history |
| IptvRows.SameTextExactly | source/iptv/iptv.c:971-984 | names compare equal exactly if they agree letter by letter but for case |
| IptvRows.ContainsExactly | source/iptv/iptv.c:386-401 | the search finds exactly the texts in which the needle stands somewhere, whatever its case |
| IptvRows.Search | source/iptv/iptv.c:386-401 | the loop finds it |
| IptvRows.ListShows | source/iptv/iptv.c:1265-1346 | the list of a filter holds exactly the channels of the chosen source with the search in name, group or guide id that are favorites, of the filter's group, or the first of their id in the history |
| IptvRows.ListCounts | source/iptv/iptv.c:1290-1346 | its length is their number |
| IptvIndex.Catalog.AddGroup | source/iptv/iptv.c:971-984 | groups stay unique but for case; a new name is appended, a known one changes nothing |
| IptvIndex.Catalog.AddChannel | source/iptv/iptv.c:986-1036 | a channel is appended with name, group and guide id cut to their fields and its group listed, or the build fails |
| IptvIndex.StoredFits | source/iptv/iptv.c:1003-1020 | fields keep as much of a text as leaves room for the zero byte, and only a channel without a name gets another |
| IptvIndex.MovedToFrontKeeps | source/iptv/iptv.c:2741-2761 | move-to-front keeps the history distinct and at most 32 long, and drops only the oldest of a full one |
| IptvIndex.MovedToFrontInOrder | source/iptv/iptv.c:2741-2761 | and the others stay in their order |
| IptvIndex.LoadIds | source/iptv/iptv.c:545-561 | loads the distinct nonzero ids in the order of the file, the first that fit |
| IptvIndex.FirstDistinctExactly | source/iptv/iptv.c:553-558 | these are the ids in the file without repetition, none other, in the order in which they first occur |
| IptvState.ChannelIndex.CountFilters | source/iptv/iptv.c:1294-1311 | the counting loops give every filter but RECENT the length of its list |
| IptvState.ChannelIndex.CountRecent | source/iptv/iptv.c:1312-1320 | then every cached count is the length of the list its filter would build |
| IptvState.ChannelIndex.FillVisible | source/iptv/iptv.c:1324-1346 | the visible index is the current filter's list and stays within its array |
| IptvState.ChannelIndex.ValidShows | source/iptv/iptv.c:1290-1366 | the visible index holds exactly the channels that the current filter shows, and every count is the number of channels that its filter shows |
| IptvState.ChannelIndex.Select | source/iptv/iptv.c:1348-1365 | the preferred channel's first row is selected if shown, else the old position kept within the list |
| IptvState.ChannelIndex.Rebuild | source/iptv/iptv.c:1290-1366 | after a rebuild counts, visible index and selection agree with the catalog, the index holding exactly the channels that the filter shows |
| IptvState.ChannelIndex.SetFilter | source/iptv/iptv.c:2473-2489 | selecting a filter keeps that agreement; an invalid index means all channels |
| IptvState.ChannelIndex.CycleFilter | source/iptv/iptv.c:2457-2472 | steps through the filters in a circle for any positive or negative delta; the selected channel stays selected if the new filter shows it |
| IptvState.RemainderToResidue | source/iptv/iptv.c:2467-2469 | the truncated remainder corrected by the count is the residue |
| IptvState.ChannelIndex.SetSourceFilter | source/iptv/iptv.c:2541-2561 | filters by a known source, by none for an unknown one |
| IptvState.ChannelIndex.SetSearch | source/iptv/iptv.c:2598-2615 | a changed search keeps counts and lists in agreement and the selected position within the list |
| IptvState.ChannelIndex.SetSelectedIndex | source/iptv/iptv.c:2043-2061 | the selection stays on the list |
| IptvState.ChannelIndex.ToggleSelectedFavorite | source/iptv/iptv.c:2617-2656 | flips the flag of all channels with the selected id, which are then among the favorites exactly if they were not before, and keeps them selected if still shown; a failed save restores every flag |
| IptvState.FavoriteBack | source/iptv/iptv.c:2646-2649 | setting the flags back restores the catalog since equal ids have equal flags |
| IptvState.FavoriteIdsExactly | source/iptv/iptv.c:2636-2645 | the ids that are saved are those of the channels flagged |
| IptvState.SavedFavoritesRestore | source/iptv/iptv.c:1436-1440 | and restore every flag when the same channels are loaded again |
| IptvState.ChannelIndex.MoveToFront | source/iptv/iptv.c:2741-2761 | the shifts in the fixed array move the id to the front of the history |
| IptvState.ChannelIndex.RecordRecent | source/iptv/iptv.c:2739-2766 | playing a channel updates history, counts and lists together; channels change in their recent flag alone, which follows the history |
| IptvState.ChannelIndex.CarryFilter | source/iptv/iptv.c:1415-1421 | finds the old group among the new ones whatever its case |
| IptvState.ChannelIndex.Commit | source/iptv/iptv.c:1368-1465 | a committed catalog has its flags from the favorites and recent files, the history in the order of its file, its filters carried over, the same channel selected if shown, and counts and lists in agreement; a failed load changes nothing |
| SavedFile.FileSystem.Rename | source/iptv/iptv.c:620-630 | every rename the saving does leaves what was committed last recoverable |
| SavedFile.FileSystem.Remove | source/iptv/iptv.c:608-614 | so does every removal |
| SavedFile.FileSystem.MakeWay | source/iptv/iptv.c:590-623 | exactly when the path can be cleared, the old file ending up as the backup |
| SavedFile.FileSystem.Replace | source/iptv/iptv.c:590-644 | answers true exactly under the stated conditions and only with the new contents at the path; if not, the old file is back at its path when the rollback works; at every moment the last commit is at the path or its backup, and what can be removed is not left behind |
| SavedFile.FileSystem.Save | source/iptv/iptv.c:646-666 | a whole save answers true exactly if the temporary file opened and was written, nothing stood in the way and no needed operation failed; otherwise nothing is committed and the old file stays where a working rollback puts it |
| SavedFile.FileSystem.SaveAll | source/iptv/iptv.c:646-666 | over any sequence of saves with failures and crashes anywhere the last commit stays recoverable at every moment; what is committed in the end is the text of the last save that answered true, or as before if none did |
| SavedFile.FileSystem.constructor | source/iptv/iptv.c:590-644 | saving may start from a file at its path, from a backup left by a crash, or from nothing |
| CivilDays.CountsDays | source/iptv/xmltv.c:117-125 | the formula is the number of days from 1970-01-01 counted year by year and month by month, negative years included |
| CivilDays.NextDayIsNext | source/iptv/xmltv.c:117-125 | the next calendar day maps to one more, 1970-01-01 to 0 |
| CivilDays.StrictlyIncreasing | source/iptv/xmltv.c:117-125 | order of dates is order of numbers, and distinct dates have distinct numbers |
| CivilDays.EraIsFloor | source/iptv/xmltv.c:119-120 | the era is the floor although C truncates |
| CivilDays.SecondsInOrder | source/iptv/xmltv.c:150-153 | under one offset times are ordered as their dates and clocks |
| CivilDays.NextSecondIsNext | source/iptv/xmltv.c:150-153 | seconds are counted one by one along clock and calendar from midnight of 1970-01-01 UTC |
| CivilDays.OffsetIsFromUtc | source/iptv/xmltv.c:150-153 | a clock east of Greenwich is ahead of UTC by its offset, one to the west behind |
| XmltvGuide.ApplyProgramme | source/iptv/xmltv.c:182-202 | the loop applies one programme to every channel it concerns and counts those touched |
| XmltvGuide.NextIsEarliest | source/iptv/xmltv.c:194-200 | after a file, next is the first of the earliest future programmes, blank without any |
| XmltvGuide.CurrentIsLastOnAir | source/iptv/xmltv.c:187-193 | and now the last programme of the file that is on the air |
| XmltvGuide.TouchedExactly | source/iptv/xmltv.c:182-202 | the count is of the channels for which the programme is on the air or comes before what they have next; every channel that changes is one of them |
| Utf8.ChecksAreGrammar | source/player/ui/utf8.c:40-48 | tail and code point checks cut the announced sequences down to the grammar of section 4 of RFC 3629 |
| Utf8.SequenceLength | source/player/ui/utf8.c:6-49 | the length of the character that starts there, 0 exactly when none does |
| Utf8.OctetsRest | source/player/ui/utf8.c:62-76 | what follows a well-formed beginning of a well-formed text is well formed |
| Utf8.StopsAtLongest | source/player/ui/utf8.c:68-71 | where the loop stops no longer prefix is well formed within the bound |
| Utf8.CopyPrefix | source/player/ui/utf8.c:51-79 | copies exactly the longest well-formed prefix within length, limit and buffer, terminates it and writes nothing behind it |
| SeekTarget.ParseUnsigned | source/player/seek_target.c:27-48 | reads exactly the digit strings that fit a long long, to their number |
| SeekTarget.ParseFraction | source/player/seek_target.c:50-92 | reads exactly the texts whose first four characters are digits |
| SeekTarget.ThousandthsAreNearest | source/player/seek_target.c:50-92 | for a fraction of digits of any length the value is the nearest thousandth, halves up |
| SeekTarget.SplitExactly | source/player/seek_target.c:108-118 | a text splits into fields exactly when it spells them with two colons and at most one point |
| SeekTarget.AddUp | source/player/seek_target.c:131-139 | the guarded sums succeed exactly when the total is an int, without overflow |
| SeekTarget.ParseHhmmss | source/player/seek_target.c:94-143 | for every text: succeeds exactly when it is readable and its rounded total fits an int; digit fields give 3600000, 60000 and 1000 for each hour, minute and second plus the nearest thousandth of the fraction, or nothing if that is no int |
| SeekTarget.TotalIsNamed | source/player/seek_target.c:94-143 | digit fields name exactly one position, and it is the one computed |
| SeekTarget.FourMatter | source/player/seek_target.c:50-92 | characters of a fraction after the fourth make no difference |
| SeekTarget.DigitFieldsAreRead | source/player/seek_target.c:94-143 | digit fields with or without a digit fraction are always readable as themselves |
| SeekTarget.ParseTarget | source/player/seek_target.c:180-198 | white space around the target does not matter; colons decide between clock and plain seconds, and a clock in digits gives the position it names |
| SeekTarget.Format | source/player/seek_target.c:200-227 | prints a clock of the whole seconds of the position, 0 for a negative one: minutes and seconds below sixty in two digits |
| SeekTarget.SpacesAre | source/player/seek_target.c:180-190 | the characters trimmed are the six of isspace |
| SeekTarget.PrintedIsRead | source/player/seek_target.c:200-227 | reading what was printed for 0 <= ms <= INT_MAX gives 1000 * (ms / 1000) |
| DataGrowth.DataList.NextCapacity | source/iptv/data.h:29-31 | the doubling loop ends within the budget with room for the need |
| DataGrowth.MaximumIsLargest | source/iptv/data.h:18-24 | the maximum is the largest number of elements within the budget and an int |
| DataGrowth.DataList.Reserve | source/iptv/data.h:14-39 | room for the need within the byte budget, or failure with the old allocation intact |
| DataGrowth.DataList.Append | source/iptv/iptv.c:1003-1007 | an append succeeds exactly while there is room or both budget and memory allow more |
| DataGrowth.DataList.AppendAll | source/iptv/data.h:14-39 | any run of appends moves fewer than twice the elements it leaves |

## Left out

- Media actor, environment: starting the worker is one step that succeeds; failed or concurrent starts are not modelled.
- Media actor, environment: whether a deadline has passed is the environment's choice, and wake-ups may come at any time.
- Coalescing.CoalescingPreservesMeaning: does not order re-entrant calls against queued commands, because they jump the queue in the code as well; the validator is fixed over the drain, as the comparison with the uncoalesced history needs.
- Media actor, arithmetic: command ids and counters are unbounded numbers, the 64-bit wrap of ids is not modelled; durations, heartbeats and log text are left out.
- LeaseValidation.RetiredLeaseNeverExecutes: staleness is decided when the worker validates; the code holds no lock between validation and execution, so a lease retired in between still executes.
- MediaCoordinator.SyncConverges: the sync is uninterrupted, `MainLoop` interrupts it; discovery suspension and the AirPlay release callback before a takeover are not modelled.
- MediaCoordinator.CoordinatorCell: what the exclusive services look like to an observation is a parameter; `TerminalRelease` takes it from the service model, on values.
- MainLoopRuns.ReleaseFoundOwnServices: for runs in which neither the session's lease nor that of a sync under way is 2^31 issues old; a session further behind keeps an old lease (`MediaCoordinator.HalfACycleIsTooOld`). `TerminalRelease.QuietReleaseFoundOwnServices` needs no such bound.
- MainLoopRuns.InterruptedSyncConverges: for the same runs; a sync that read no lease may miss one claimed meanwhile, which the next tick finds.
- MainLoop.System: what media_begin checks before it claims is left out, so more claims are made than in the program; the tick of `ServiceLifecycle` is that of the resource half, its sync is here.
- ResourceWait.WaitReady: one look of the polling loop; its timeout, and the refusal when the lifecycle or a failed transition ends it, are not modelled.
- Service threads are modelled on values with program counters, not in place; only the undisturbed run of the resource worker (`ResourceWorker`) is in the source's own loops. Cancellation requests appear only as a start's answer.
- ServiceExclusion.SuccessMatchesTarget: an AirPlay status poll that overlaps a transition may overwrite a service state; the match is stated for runs without one, the pairing and exclusion of calls with polls too.
- Service threads, environment: thread creation succeeds, start, tick and stop run on one thread, and begin_start, set_service_state and finish_stop are not called from outside.
- Network diagnostics, environment: accesses are sequentially consistent; the reset of all counters and the wrap of 64-bit identifiers are not modelled. Socket counters, durations and error fields are left out as easier.
- IptvState.ChannelIndex: texts are compared in the C locale; the number in the fallback name of a channel is given, channel ids too; logos, EPG columns and status lines are left out, and where the file system or memory may fail a parameter says so.
- SavedFile.FileSystem: a failed operation changes nothing and a rename is atomic; file contents are strings.
- CivilDays.CountsDays: years are unbounded integers, so the overflow of a year near the limits of int is not modelled; scanning the text of a time is left out.
- XmltvGuide.ApplyProgramme: the attributes of a programme are given; decoding entities and collecting lines is left out.
- SeekTarget.ParseTarget: a target without a colon is handed to strtod, whose floating-point arithmetic is not modelled; characters of a fraction after the fourth are not inspected by the code.
- DataGrowth.DataList: elements are integers; their size only enters the budget.
- The libmpv backend, front ends, views, network clients and their callbacks are not part of this model.
