# Discovery, scanning and small-store guarantees of a network documentation server

This project models five stateful parts of a server and its scanning daemons, and proves what
they keep over every run.

* **Discovery sessions** (`Sessions`, `SessionInvariants`, `SessionService`, `SessionRuns`,
  `SessionEffects`, `SessionLedger`, `SessionStalls`, `SessionRecovery`, `SessionProgress`). The server keeps a session table, one
  first-in-first-out queue per daemon, one cancellation flag per daemon, and last-update times that
  double as tombstones of finished sessions. `Sessions` gives each service operation as one function on that state;
  `SessionService.DiscoveryService` is the service as a mutable object, each method proved to perform
  that function; `SessionEffects` tells each function's effect in the state's own fields; the others prove
  properties of arbitrary sequences of steps.
* **Entity buffer and confirmations** (`EntityBuffer`, `ConfirmationProtocol`, `ChildDelivery`). A
  daemon buffers discovered hosts and subnets; the server polls them, processes them with best
  effort, and confirms. Messages may be lost, late or repeated.
* **Scanner concurrency** (`ScanController`, `ScanThreads`, `ScanRaces`, `BatchScan`). The adaptive batch size, one
  call at a time and under arbitrary thread interleavings, and the constant-parallelism scan loop.
* **Plan enforcement** (`PlanEnforcement`, `PlanEffects`). Trimming an organization to its plan, and the preview.
* **Small stores** (`GroupBindings`, `BindingConflicts`, `BindingServices`, `LoginLockout`,
  `LoginRuns`).

`Common`, `Sequences` and `Tables` hold shared list and table facts.

## Reading the model

* Identifiers (UUIDs) are natural numbers, times are integer milliseconds, counters and sizes are
  unbounded integers. Fresh ids are fresh; clocks are parameters.
* One service method is one atomic step. The code takes its locks one after the other, so this is an
  abstraction, with two exceptions: in `LoginRuns` a login is two steps, its lockout check and the
  recording of its outcome, with anything in between, or it is abandoned and never recorded; in `ScanThreads` and `ScanRaces` each atomic load,
  store, increment and compare-and-swap is a step of its own and threads interleave freely. Memory order is
  taken to be one total order per run. The size bounds need only the order of accesses to one field;
  the failing runs are ones the hardware may show under any memory model; that one thread on its own
  keeps its promises needs no more than program order.
* Storage, event publication and telemetry succeed. `history` holds the historical discovery records
  by the session they report on.
* Walks over a hash map happen in any order: the methods pick the next key arbitrarily, and still equal
  one function of the old state.
* The update path stores a report unchecked (`backend/src/server/discovery/service.rs:691`), so each
  result about runs says how much it asks of the reports (`SessionRuns.Guard`), from weakest to strongest:
  * nothing: conservation of entries and records;
  * the report names the daemon its stored session belongs to: exact index, meaning of the stall
    cleanup;
  * it also starts no second active session: at most one active session per daemon;
  * it also puts no session back to waiting that is flagged for cancellation: full coherence, and a work
    response never carries both. Terminal reports may come at any time, also while another session runs;
  * it also undoes no dispatch, that is, it is not `Pending` and does not end a session while a running one
    heads the rest of the queue: dispatch order, no starvation, lost dispatches. Well-formed reports, made while the daemon has
    no other active session, are of this kind (`StrictRunsUndoNothing`); a daemon justifies them by refusing
    a second session (`backend/src/daemon/discovery/manager.rs:32-44`).

  That these conditions are the right ones is stated as equivalences: `ReportKeepsIndexIff`,
  `ReportKeepsFlagsIff`, `ReportKeepsSingleActiveIff` and all three as `ReportKeepsIff`;
  `ReportUndoesDispatchIff`.

## What the code does that its description does not say

* Tombstones are evicted only by a stall cleanup that finds something stalled, because the cleanup
  returns early otherwise (`backend/src/server/discovery/service.rs:969-971`): `TombstoneGoesIff`.
* A session handed out in server-poll mode whose request is not delivered (the failure is only logged,
  `backend/src/server/daemons/service.rs:1393-1402`) stays `Starting`, blocks its daemon and cannot be
  cancelled until somebody reports on it or clears its daemon, and no longer: `LostDispatchBlocksDaemon`.
  The stall cleanup can free a daemon exactly when its active session has an update or a start time, which
  such a session has not: `RecoversByItselfIff`.
* A late terminal report (say, of a session that was failed as stalled) puts the daemon's running session
  back to waiting, and the next work request hands it out again: `ReportUndoesDispatchIff`,
  `UndoneIsHandedAgain`. A session put back so can stall while it waits, and the cleanup then takes the
  cancellation of another session of that daemon: `FlagLostIff`, `FlagCanBeLost`.
* A misattributed report leaves the queues and the table disagreeing: `ReportKeepsIndexIff`.
* With two or more threads, and an initial size over 16, the scanner can end up undegraded at a reduced
  size and never recover (`FullSizeIff`), and reductions can come closer than the cooldown
  (`CooldownHoldsIff`, `ConcurrentErrorsCascade`). Below an initial size of 16 a reduction raises the size:
  `BoundsIff`.
* A child pushed between a poll and its confirmation, to a host the server answers, is swallowed unless it
  was polled before: `SwallowedIff`, `NothingSwallowedIff`.
* The preview counts hosts over the limit, not hosts lost with a trimmed network:
  `PreviewBoundsAllLossesIff`.
* Saving a group with a repeated binding changes nothing, because the table forbids it
  (`backend/migrations/20251221070000_group_bindings.sql:10`) and the transaction rolls back.
* The conflict check, and the removal of superseded bindings, look only at bindings filed under the network
  id of the request (`backend/src/server/bindings/handlers.rs:47-49`, `:164-166`), while a service's bindings
  are read back by service alone (`backend/src/server/shared/services/traits.rs:381-384`) and nothing ties a
  binding's network to its service's. A service whose bindings carry two network ids can hold conflicting ones:
  `RunsStayServiceConflictFreeIff`, `StoreKeepsServiceIff`, `CreateSupersedesServiceIff`.
* Creating a specific-interface port binding under an all-interfaces one, and updating a binding into
  either, leave the redundancy that creating in the other order removes: `CreateKeepsIrredundantIff`,
  `UpdateKeepsIrredundantIff`, and for the whole service `CreateKeepsServiceIrredundantIff`,
  `UpdateKeepsServiceIrredundantIff`. A creation that is refused after the check has already deleted the bindings
  it would have superseded: `FailedCreateLosesIff`.
* The limit of five tries per fifteen minutes holds only while logins of an account do not overlap. A login
  is counted when it fails, not when it is let through, so `k` overlapping ones allow `4 + k` failures, and no
  more: `FiveHoldsIff`, `WindowBoundIff`.
* A failed-login count is not reset by time, only by success or cleanup: between cleanups five failures
  however far apart lock an account, `StaleFailuresCount`.

## Model

| member | source | states |
|---|---|---|
| SessionService.DiscoveryService.StartSession | backend/src/server/discovery/service.rs:556-628 | a new waiting session enters the table and the end of its daemon's queue; nothing else changes |
| SessionService.DiscoveryService.GetSessionsForDaemon | backend/src/server/discovery/service.rs:118-134 | the daemon's waiting sessions, in queue order |
| SessionService.DiscoveryService.HasActiveSession | backend/src/server/discovery/service.rs:161-176 | true exactly when some queued session of the daemon is neither waiting nor finished |
| SessionService.DiscoveryService.TransitionToStarting | backend/src/server/discovery/service.rs:180-191 | a waiting session becomes starting; any other session or id is left alone |
| SessionService.DiscoveryService.GetPendingWork | backend/src/server/daemons/service.rs:840-864 | hands out the first waiting session of an idle daemon and marks it starting |
| SessionService.DiscoveryService.PullCancellationFor | backend/src/server/discovery/service.rs:193-198 | returns and removes the daemon's flag, or the nil answer |
| SessionService.DiscoveryService.ReceiveWorkRequest | backend/src/server/daemons/handlers.rs:442-503 | refused, changing nothing, for an unknown daemon, another network, standby or a failed status update, in that order; else work, then cancellation; coherence is kept and a response never carries both |
| SessionService.DiscoveryService.UpdateSession | backend/src/server/discovery/service.rs:633-806 | one report, with auto-creation, the tombstone test and terminal processing, for every report and table |
| SessionService.DiscoveryService.Finish | backend/src/server/discovery/service.rs:693-803 | terminal processing: flag dropped, record written, session out of queue and table, next one waiting |
| SessionService.DiscoveryService.CancelSession | backend/src/server/discovery/service.rs:808-903 | the outcome and effect in each of the seven phases and for an unknown id |
| SessionService.DiscoveryService.ClearSessionsForDaemon | backend/src/server/discovery/service.rs:138-157 | everything in the daemon's queue leaves table and times, with queue and flag |
| SessionService.DiscoveryService.CleanupOldSessions | backend/src/server/discovery/service.rs:905-931 | the loop over the outdated sessions, in any order, removes them together |
| SessionService.DiscoveryService.CleanupStalledSessions | backend/src/server/discovery/service.rs:934-1114 | the three passes and the eviction equal the one-step specification, in any order of the map |
| SessionService.DiscoveryService.FindStalled | backend/src/server/discovery/service.rs:938-967 | the first pass lists exactly the stalled sessions, each once |
| SessionService.DiscoveryService.RequestCancellations | backend/src/server/discovery/service.rs:973-1023 | the second pass sets one flag per stalled session, later ones overwriting |
| SessionService.DiscoveryService.FailAll | backend/src/server/discovery/service.rs:1025-1101 | the third pass removes, dequeues, forgets, unflags and records each listed session |
| SessionService.DropEachIs | backend/src/server/discovery/service.rs:920-930 | removing listed sessions one by one is removing their set at once |
| SessionService.FailEachIs | backend/src/server/discovery/service.rs:1033-1101 | failing listed sessions one by one is failing their set at once |
| SessionService.FlaggedAt | backend/src/server/discovery/service.rs:1012-1016 | after the second pass a daemon's flag names its last listed session, other daemons' flags are as before |
| SessionService.UnflaggedAt | backend/src/server/discovery/service.rs:1064-1074 | the third pass drops a flag exactly when it reaches the session it names |
| SessionService.FlagsRestored | backend/src/server/discovery/service.rs:977-1074 | together the passes remove exactly the flags of daemons with a stalled session |
| SessionService.PassesAre | backend/src/server/discovery/service.rs:934-1114 | the passes in sequence are the one-step stall cleanup |
| SessionEffects.StartMeans | backend/src/server/discovery/service.rs:584-615 | the new session has no progress, error or times, and its id is the last of its daemon's queue; every other table, queue and entry is as before |
| SessionEffects.ToStartingMeans | backend/src/server/discovery/service.rs:180-191 | only a waiting session becomes starting, and only its phase changes |
| SessionEffects.WorkMeans | backend/src/server/daemons/service.rs:840-864 | a daemon with a starting, started or scanning session gets nothing; else the session with no waiting one before it in the queue is handed out as it was, and only its phase changes; nothing happens where none waits |
| SessionEffects.WaitingIsFiltered | backend/src/server/discovery/service.rs:118-134 | the waiting list holds every waiting session of the queue, in the order of the queue |
| SessionEffects.PullMeans | backend/src/server/discovery/service.rs:193-198 | the daemon's flag is answered and dropped, every other flag stays |
| SessionEffects.RepeatedReportMeans | backend/src/server/discovery/service.rs:645-656 | a final report about a session that is gone and remembered changes its time alone |
| SessionEffects.ProgressReportMeans | backend/src/server/discovery/service.rs:644-691 | a report that is not final is stored as it is, an unknown session joins the end of the queue of the daemon named; no flag or record changes |
| SessionEffects.FinalReportMeans | backend/src/server/discovery/service.rs:693-788 | a final report removes its session from table and queue and drops the flag of the daemon named; the first other session of that queue is set to waiting and nothing else changes |
| SessionEffects.FinalReportRecords | backend/src/server/discovery/service.rs:726-744 | the record added is exactly the report, and only its session gets one |
| SessionEffects.RunMakes | backend/src/server/discovery/service.rs:726-744 | after any run the records of a session are those it had, then the final reports and stalls of the run in the order they happened |
| SessionEffects.RecordsAreExplained | backend/src/server/discovery/service.rs:726-744 | every record is a final report the run made about that session, or a stall cleanup's failure with its time and message written out |
| SessionEffects.CancelMeans | backend/src/server/discovery/service.rs:838-902 | outcome and whole effect for an unknown id and in each phase: a started or scanning session sets its daemon's flag and changes nothing else |
| SessionEffects.CancellationIsDelivered | backend/src/server/discovery/service.rs:871-882 | the daemon's next work response then carries the cancellation of that session, and no work |
| SessionEffects.AgeOutMeans | backend/src/server/discovery/service.rs:905-931 | exactly the sessions finished before the cutoff leave table and queue, with the flags of their daemons |
| SessionEffects.ClearMeans | backend/src/server/discovery/service.rs:138-157 | exactly the ids of the daemon's queue leave table and times, and its queue and flag go |
| SessionEffects.StalledMeans | backend/src/server/discovery/service.rs:938-967 | stalled is: under way without a sign of life, or waiting with an old update, for more than 5 * 60 * 1000 ms |
| SessionEffects.StallRecords | backend/src/server/discovery/service.rs:1045-1097 | a stalled session gets one record: failed, finished now, with its message, the rest as it was |
| SessionEffects.FailStalledMeans | backend/src/server/discovery/service.rs:934-1114 | exactly the stalled sessions leave the table, with the flags of their daemons |
| SessionEffects.FailStalledQueues | backend/src/server/discovery/service.rs:1047-1062 | and their queues, which keep the others in order |
| SessionEffects.FailStalledTimes | backend/src/server/discovery/service.rs:1103-1109 | and the times, with those older than five minutes of sessions not in the table |
| SessionEffects.NothingStalled | backend/src/server/discovery/service.rs:969-971 | where nothing is stalled the cleanup changes nothing |
| SessionInvariants.PendingListIsScan | backend/src/server/discovery/service.rs:118-134 | with an exact index the queue-based list holds exactly the daemon's waiting sessions of the whole table |
| SessionInvariants.ActiveCheckIsScan | backend/src/server/discovery/service.rs:161-176 | with an exact index the queue-based check equals a scan of the whole table |
| SessionInvariants.WorkHandsOutFirst | backend/src/server/daemons/service.rs:840-864 | in a coherent state work is refused exactly to a busy daemon or an empty queue, else the queue's head is handed out and only its phase changes |
| SessionInvariants.StartKeeps | backend/src/server/discovery/service.rs:591-615 | starting keeps index, flags and single activity |
| SessionInvariants.WorkKeeps | backend/src/server/daemons/service.rs:840-864 | dispatching keeps them |
| SessionInvariants.PullKeeps | backend/src/server/discovery/service.rs:193-198 | pulling a cancellation keeps them |
| SessionInvariants.CancelKeeps | backend/src/server/discovery/service.rs:838-902 | cancelling in any phase keeps them |
| SessionInvariants.AgeOutKeeps | backend/src/server/discovery/service.rs:905-931 | ageing out keeps them |
| SessionInvariants.FailStalledKeeps | backend/src/server/discovery/service.rs:934-1114 | the stall cleanup keeps them |
| SessionInvariants.ClearIsScan | backend/src/server/discovery/service.rs:138-157 | with an exact index clearing removes exactly the daemon's sessions of the whole table |
| SessionInvariants.ClearKeeps | backend/src/server/discovery/service.rs:138-157 | clearing keeps index, flags and single activity |
| SessionInvariants.ReportKeepsIndexIff | backend/src/server/discovery/service.rs:644-691 | a report keeps table and queues in agreement exactly when it names the stored session's daemon |
| SessionInvariants.ReportKeepsSingleActiveIff | backend/src/server/discovery/service.rs:691-788 | a report keeps one active session per daemon exactly when it does not start a second |
| SessionInvariants.ReportKeepsFlagsIff | backend/src/server/discovery/service.rs:691-724 | a rightly attributed report keeps every flag naming a live active session exactly when it puts no flagged session back to waiting |
| SessionInvariants.ReportKeepsIff | backend/src/server/discovery/service.rs:633-806 | a report keeps a coherent state coherent exactly when it names its session's daemon, puts no flagged session back to waiting and starts no second active one |
| SessionInvariants.ReportEffect | backend/src/server/discovery/service.rs:644-788 | a report that undoes no dispatch stores its session, or removes it if terminal, and touches no other session |
| SessionInvariants.ReportKeeps | backend/src/server/discovery/service.rs:633-806 | a report that names its session's daemon, puts no flagged session back to waiting and starts no second active one keeps index, flags and single activity, also when it ends a session while another one runs |
| SessionInvariants.WorkExcludesCancellation | backend/src/server/daemons/handlers.rs:480-503 | in a coherent state a daemon that gets work has no cancellation flag |
| SessionInvariants.WellFormedIsOrderly | backend/src/daemon/discovery/manager.rs:32-44 | a report made while its daemon has no other active session undoes no dispatch |
| SessionRuns.ReachableIndexed | backend/src/server/discovery/service.rs:118-176 | in every state reached with rightly attributed reports each live id is once in its own daemon's queue and nowhere else, and the queue-based list and check equal scans of the table |
| SessionRuns.ReachableSingleActive | backend/src/server/discovery/service.rs:161-191 | a daemon has at most one active session in every state reached with rightly attributed reports that start no second one, whatever happens to flags |
| SessionRuns.ReachableCoherent | backend/src/server/discovery/service.rs:118-198 | in every state reached without reports that start a second active session or put a flagged one back to waiting, flags also name live active sessions of their daemon and a daemon has at most one active session; terminal reports may come at any time |
| SessionRuns.StrictRunsUndoNothing | backend/src/server/discovery/service.rs:766-785 | runs of well-formed reports undo no dispatch, so every dispatch-order result holds for them |
| SessionRuns.DispatchIsFifo | backend/src/server/daemons/service.rs:840-864 | over every run that undoes no dispatch no started session is handed out twice, and a daemon's sessions are handed out in start order |
| SessionRuns.HandedIsRecorded | backend/src/server/daemons/service.rs:855-860 | whatever a step hands to a daemon is a started session of that daemon and is entered in the record the order claim is about |
| SessionRuns.WaitingNeverOvertaken | backend/src/server/discovery/service.rs:591-615 | over those runs the number of sessions ahead of a waiting one never grows, and none starts waiting again |
| SessionRuns.OrderIsKept | backend/src/server/discovery/service.rs:766-788 | two waiting sessions of a daemon never swap places |
| SessionProgress.PassedOverAtMost | backend/src/server/daemons/service.rs:840-864 | over every run that undoes no dispatch, a session waiting at the end was passed over at most as often as waiting sessions stood ahead of it at the start |
| SessionProgress.NoStarvation | backend/src/server/daemons/service.rs:840-864 | a session with k ahead of it waits no more once its daemon has been handed k + 1 sessions, whatever interleaves |
| SessionProgress.RoundServesHead | backend/src/server/discovery/service.rs:766-788 | a work request and a terminal report of the session handed out leave the daemon idle, its queue without its head, and all other sessions as they were |
| SessionProgress.RoundMovesUp | backend/src/server/discovery/service.rs:766-788 | each other session of the daemon then has exactly one less ahead of it |
| SessionProgress.ServedInTurn | backend/src/server/daemons/service.rs:840-864 | with k ahead of it a session is what the idle daemon is handed after exactly k such rounds |
| SessionRuns.ResponsesNeverCarryBoth | backend/src/server/daemons/handlers.rs:480-503 | in every reachable coherent state, terminal reports at any time included, a work response carries work or a cancellation, never both |
| SessionRuns.StepEffect | backend/src/server/discovery/service.rs:556-1114 | what each step that undoes no dispatch does to the session table, as a frame: all other sessions are untouched |
| SessionRuns.StepShrinks | backend/src/server/discovery/service.rs:556-1114 | no such step makes an old session wait, and none lets one overtake another |
| SessionLedger.Conservation | backend/src/server/discovery/service.rs:138-157 | over every run, whatever the reports, an id's entries equal one if it is live plus its exits by report, stall, cancellation, age and clear, and its records equal the first two kinds |
| SessionLedger.RunBalance | backend/src/server/discovery/service.rs:556-1114 | the same balance from any state on |
| SessionLedger.ClearedAreAll | backend/src/server/discovery/service.rs:144-148 | with an exact index the exits by clear are all the daemon's sessions |
| SessionLedger.TerminalReportLeavesTombstone | backend/src/server/discovery/service.rs:638-642 | after a terminal report the id is in no table or queue and is remembered with the report's time |
| SessionLedger.TombstoneAbsorbs | backend/src/server/discovery/service.rs:645-656 | dropping all repeated terminal reports from a run changes nothing but the id's last-update time, until a cleanup evicts the tombstone |
| SessionLedger.RepeatIgnoredIff | backend/src/server/discovery/service.rs:645-656 | a terminal report about an unknown session adds no record exactly when its id is remembered |
| SessionLedger.TombstoneGoesIff | backend/src/server/discovery/service.rs:969-1109 | a tombstone goes exactly in a stall cleanup that finds something stalled, five minutes or more after the latest report |
| SessionStalls.StallCleanupMeaning | backend/src/server/discovery/service.rs:934-1114 | in every state reached with rightly attributed reports: exactly the stalled sessions leave the table and queues, which keep their order; their times go, and with them exactly the tombstones of five minutes and more; the flags of their daemons go; each gets one failed record and nobody else does |
| SessionStalls.FlagLostIff | backend/src/server/discovery/service.rs:1012-1074 | a cleanup takes the flag of a session that is not stalled exactly when a waiting session of the same daemon is |
| SessionStalls.StalledFlagsAreTheirOwn | backend/src/server/discovery/service.rs:1064-1074 | where no dispatch was undone, exactly the flags naming stalled sessions go |
| SessionStalls.FlagCanBeLost | backend/src/server/discovery/service.rs:766-785 | a run with a late terminal report after which the cleanup takes the cancellation of a live session |
| SessionRecovery.CleanupFreesIff | backend/src/server/discovery/service.rs:951-964 | a stall cleanup frees a busy daemon exactly when its active session is stalled |
| SessionRecovery.RecoversByItselfIff | backend/src/server/discovery/service.rs:951-964 | some later cleanup does so exactly when that session has an update or a start time |
| SessionRecovery.LostEndsIff | backend/src/server/daemons/service.rs:1387-1403 | a handed-out session without any time stays lost through every step but a report on it, a clear of its daemon, or the processed end of another session of its daemon |
| SessionRecovery.LostThroughoutIff | backend/src/server/daemons/service.rs:1387-1403 | so it stays lost throughout a run exactly if no such step occurs |
| SessionRecovery.LostIffNeverTouched | backend/src/server/daemons/service.rs:1387-1403 | where no dispatch is undone, it is lost at the end of a run exactly if nobody reported on it or cleared its daemon |
| SessionRecovery.LostDispatchBlocksDaemon | backend/src/server/daemons/service.rs:1387-1403 | that equivalence for every dispatch of every run; while lost, the session gets its daemon no work and refuses cancellation |
| SessionRecovery.TerminalReportUnblocks | backend/src/server/discovery/service.rs:693-788 | a terminal report about the active session leaves its daemon idle |
| SessionRecovery.ReportUndoesDispatchIff | backend/src/server/discovery/service.rs:766-785 | a report puts a running session back to waiting exactly when it ends a session and the head of the remaining queue is running |
| SessionRecovery.UndoneIsHandedAgain | backend/src/server/discovery/service.rs:766-785 | and then the daemon's next request is handed that session again |
| EntityBuffer.EntityBuffer.AddHost | backend/src/daemon/discovery/buffer.rs:137-153 | a push merges children into a pending host, or replaces a confirmed or absent one |
| EntityBuffer.EntityBuffer.AddSubnet | backend/src/daemon/discovery/buffer.rs:66-69 | a pushed subnet is pending again whatever was there |
| EntityBuffer.EntityBuffer.MarkHostCreated | backend/src/daemon/discovery/buffer.rs:157-176 | only a pending host is confirmed |
| EntityBuffer.EntityBuffer.MarkSubnetCreated | backend/src/daemon/discovery/buffer.rs:73-90 | a known subnet takes the server's data; the id pair is returned exactly when it changed |
| EntityBuffer.EntityBuffer.GetPending | backend/src/daemon/discovery/buffer.rs:225-245 | all pending entries, each once, in any order; the buffer is unchanged |
| EntityBuffer.EntityBuffer.ReceiveCreatedEntities | backend/src/daemon/shared/handlers.rs:217-241 | subnets, then hosts, confirmed in the payload's order |
| EntityBuffer.EntityBuffer.ClearAll | backend/src/daemon/discovery/buffer.rs:253-262 | both tables empty |
| EntityBuffer.BufferRefinesLog | backend/src/daemon/discovery/buffer.rs:137-176 | after any pushes, confirmations and clears a host entry is what the event log means: first host record with the ordered children of all pushes since it last became non-pending, or the confirming response |
| EntityBuffer.SubnetsRefineLog | backend/src/daemon/discovery/buffer.rs:66-90 | after any events a subnet entry is: pending with its last push if nothing confirmed it since; created with the last confirmation if one came after that push; absent if it was not pushed since the last clear |
| EntityBuffer.PendingLeavesOnlyByConfirmation | backend/src/daemon/discovery/buffer.rs:66-176 | an entry stops being pending only by a confirmation naming it, or a clear |
| EntityBuffer.LogKeepsKeyed | backend/src/daemon/discovery/buffer.rs:46-51 | pending entries stay keyed by the id they were discovered under |
| ConfirmationProtocol.ProcessDiscoveryEntities | backend/src/server/daemons/service.rs:730-834 | one confirmation per handled entity, in order, under its pending id; failures counted and skipped |
| ConfirmationProtocol.HandledHostsAre | backend/src/server/daemons/service.rs:747-782 | the confirmations are the successful answers in order, each under the id of its pending host |
| ConfirmationProtocol.HandledSubnetsAre | backend/src/server/daemons/service.rs:785-818 | so for subnets |
| ConfirmationProtocol.ConfirmAt | backend/src/daemon/shared/handlers.rs:226-241 | entry by entry: a pending host takes the first response for it, a subnet the last, every other entry stays |
| ConfirmationProtocol.ConfirmMeans | backend/src/daemon/shared/handlers.rs:226-241 | the same by place in the payload: the first answer naming a pending host, the last naming a subnet, and everything else as it was |
| ConfirmationProtocol.ConfirmIdempotent | backend/src/daemon/shared/handlers.rs:217-241 | applying any confirmation twice equals applying it once |
| ConfirmationProtocol.RoundLeavesFailures | backend/src/server/daemons/service.rs:746-818 | after poll, processing and confirmation exactly the failed entities stay pending, unchanged, and the others hold the server's answers |
| ConfirmationProtocol.CreatedOnlyIfAnswered | backend/src/daemon/discovery/buffer.rs:157-176 | under any interleaving with lost, late and repeated confirmations an entry is created only with a server answer given for that id |
| ConfirmationProtocol.EveryRunHonest | backend/src/daemon/shared/handlers.rs:204-241 | the same from an empty buffer |
| ChildDelivery.SwallowedIff | backend/src/daemon/discovery/buffer.rs:140-174 | a confirmation leaves a child neither waiting nor taken exactly when it was pushed after the poll to an answered host and was not in what the server took |
| ChildDelivery.NothingSwallowedIff | backend/src/daemon/discovery/buffer.rs:140-174 | an exchange swallows nothing exactly when every child pushed meanwhile to an answered host had been polled |
| ChildDelivery.LostIffSwallowed | backend/src/daemon/discovery/buffer.rs:213-245 | over every run of pushes, polls, late, lost and repeated confirmations and session ends, a pushed child neither waits nor was taken exactly when a confirmation swallowed it |
| ChildDelivery.NoChildLost | backend/src/daemon/discovery/buffer.rs:213-245 | with no push between a poll and its confirmation, however many confirmations are lost, every pushed child still waits or was taken by the server |
| ChildDelivery.CleanPollTakesAll | backend/src/server/daemons/service.rs:746-775 | a poll without host failures leaves the server with everything pushed in the session but what was swallowed before |
| ScanController.ScanConcurrencyController.OnFdExhaustion | backend/src/daemon/utils/scanner.rs:97-154 | halving with floor and cooldown, called alone |
| ScanController.ScanConcurrencyController.OnSuccess | backend/src/daemon/utils/scanner.rs:158-193 | streak and recovery by a quarter, called alone |
| ScanController.FreshMeans | backend/src/daemon/utils/scanner.rs:72-81 | a new controller is at full size, undegraded, with no streak and no reduction remembered |
| ScanController.HalvedMeans | backend/src/daemon/utils/scanner.rs:117-117 | half of the size rounded down, but never less than 16 |
| ScanController.RaisedMeans | backend/src/daemon/utils/scanner.rs:169-169 | a quarter more, rounded down, but never more than the initial size |
| ScanController.ExhaustedMeans | backend/src/daemon/utils/scanner.rs:97-154 | within 500 ms of the last reduction a call marks and clears the streak, at size 16 it only marks; else it reduces, marks, clears the streak and stamps, with 1 at least |
| ScanController.SucceededMeans | backend/src/daemon/utils/scanner.rs:158-193 | a success counts only while degraded; from the fiftieth on it raises the size, if that gains anything, and clears the streak, and the mark at the initial size |
| ScanController.RecoveryBound | backend/src/daemon/utils/scanner.rs:158-193 | any degraded size from the floor up recovers within 50 * ceil((target - size) / 4) successes |
| ScanController.ReductionUndone | backend/src/daemon/utils/scanner.rs:97-193 | one reduction from a full size of at least 17 is undone by 200 successes |
| ScanController.FourRaises | backend/src/daemon/utils/scanner.rs:168-169 | four raises bring a halved size back to target |
| ScanController.SequentialBounds | backend/src/daemon/utils/scanner.rs:97-193 | without overlap the size stays between floor and target, and not degraded means full size |
| ScanController.LastReductionRemembered | backend/src/daemon/utils/scanner.rs:134-138 | between reductions no call changes the remembered reduction time |
| ScanController.ReductionsSpaced | backend/src/daemon/utils/scanner.rs:99-112 | without overlap successive reductions are at least 500 ms apart |
| ScanThreads.SizeStaysInRange | backend/src/daemon/utils/scanner.rs:97-193 | under every interleaving of any number of threads the size stays between 16 and the initial size |
| ScanThreads.BoundsIff | backend/src/daemon/utils/scanner.rs:114-126 | the upper bound holds on all runs exactly when the initial size is at least 16 |
| ScanThreads.AloneIsSequential | backend/src/daemon/utils/scanner.rs:97-193 | the atomic actions of a call on its own add up to the sequential call |
| ScanThreads.WholeCallIsSequential | backend/src/daemon/utils/scanner.rs:97-193 | and so does a call no other thread interrupts, in a system of any number of threads |
| ScanRaces.FullSizeIff | backend/src/daemon/utils/scanner.rs:158-179 | "not degraded means full size" holds whenever all calls have returned, on every run of n threads, exactly if n is at most 1 or the size starts at 16 |
| ScanRaces.DegradationCanBeLost | backend/src/daemon/utils/scanner.rs:166-177 | for every larger size and two or more threads, a run after which all calls have returned, the size is reduced, and no number of successes restores it |
| ScanRaces.SwapIsReduction | backend/src/daemon/utils/scanner.rs:115-132 | the swaps counted as reductions halve the size, and nothing else on the exhaustion path changes it |
| ScanRaces.OneWinnerPerLevel | backend/src/daemon/utils/scanner.rs:126-151 | of the threads that read one size at most one swaps it; the others read again |
| ScanRaces.CooldownHoldsIff | backend/src/daemon/utils/scanner.rs:99-138 | successive reductions are at least 500 ms apart, on every run of n threads whose calls begin in order, exactly if n is at most 1 or the size starts at 16 |
| ScanRaces.CooldownCanFail | backend/src/daemon/utils/scanner.rs:99-132 | for every larger size and two or more threads, an ordered run with two reductions at one instant |
| ScanRaces.ConcurrentErrorsCascade | backend/src/daemon/utils/scanner.rs:99-152 | n threads past the cooldown check together halve the size n times |
| BatchScan.Refill | backend/src/daemon/utils/scanner.rs:260-296 | starts the next items in order; uncancelled it leaves min(batch size, work left) in flight |
| BatchScan.Scan | backend/src/daemon/utils/scanner.rs:234-300 | items start once each and in order; for any completion order every value occurs among the results as often as among the outcomes, at constant parallelism; cancelled, at most as often, and from distinct items; it terminates |
| BatchScan.OutputsOfFewer | backend/src/daemon/utils/scanner.rs:277-299 | distinct items yield part of what all yield, and all of it if they are all the items, whatever the orders |
| BatchScan.OutputsOfDistinct | backend/src/daemon/utils/scanner.rs:282-284 | distinct items yield a value at most as often as it is among the outcomes, and all items exactly as often |
| BatchScan.OutputsCount | backend/src/daemon/utils/scanner.rs:282-284 | what a list of items yields, counted by value |
| PlanEnforcement.PlanStore.EnforcePlanRestrictions | backend/src/server/billing/service.rs:1816-1948 | the four loops, in order, are the one-step enforcement |
| PlanEnforcement.PlanStore.TrimNetworks | backend/src/server/billing/service.rs:1825-1853 | deleting the networks past the limit one by one leaves exactly the first ones with what belongs to them |
| PlanEnforcement.PlanStore.AdjustDaemons | backend/src/server/billing/service.rs:1855-1890 | standby set on daemon-polling daemons, or cleared on all |
| PlanEnforcement.PlanStore.ConvertSchedules | backend/src/server/billing/service.rs:1892-1910 | scheduled discoveries become ad hoc, keeping their last run |
| PlanEnforcement.PlanStore.TrimHosts | backend/src/server/billing/service.rs:1912-1945 | exactly the surplus hosts are deleted |
| PlanEnforcement.FindExcess | backend/src/server/billing/service.rs:1920-1931 | the walk with its counter collects what the recursive definition says |
| PlanEnforcement.ToDeleteIsTail | backend/src/server/billing/service.rs:1920-1931 | the walk deletes exactly the non-daemon hosts past the limit |
| PlanEnforcement.TrimKeepsMostRecent | backend/src/server/billing/service.rs:1918-1931 | exactly min(limit, count) non-daemon hosts survive, each at least as recent as any that goes |
| PlanEnforcement.EnforceKeepsMostRecent | backend/src/server/billing/service.rs:1816-1948 | network and host limits hold afterwards; every daemon host stays; the others that stay are the most recent |
| PlanEnforcement.EnforceFeatures | backend/src/server/billing/service.rs:1855-1910 | standby and schedules follow the plan's features afterwards; server-polled daemons are left alone |
| PlanEnforcement.EnforceKeepsKeyed | backend/src/server/billing/service.rs:1816-1948 | keys stay unique and every row's network exists |
| PlanEnforcement.EnforceIdempotent | backend/src/server/billing/service.rs:1816-1948 | enforcing twice is enforcing once |
| PlanEnforcement.PreviewBoundsTrims | backend/src/server/billing/service.rs:1593-1601 | networks and hosts trimmed never exceed the preview's excess |
| PlanEnforcement.PreviewBoundsAllLossesIff | backend/migrations/20251006215151_create_hosts.sql:3 | all hosts lost, with those that go with a network, are within the preview exactly when the trimmed networks hold none or the kept ones fill the limit |
| PlanEffects.EnforceNetworks | backend/src/server/billing/service.rs:1825-1853 | with overage sold, or nothing included, all networks stay; with n included and no overage exactly the first n |
| PlanEffects.NoNetworkLost | backend/src/server/billing/service.rs:1829-1830 | where all networks stay no daemon or discovery goes, nor a host unless hosts are limited too |
| PlanEffects.EnforceDaemons | backend/src/server/billing/service.rs:1855-1890 | the daemons left are those of the networks left, unchanged but for standby, set on daemon-polling ones without the feature and cleared with it |
| PlanEffects.EnforceDiscoveries | backend/src/server/billing/service.rs:1892-1910 | the discoveries left are those of the networks left, schedules turned ad hoc with their last run where the plan has none |
| PlanEffects.EnforceUnlimitedHosts | backend/src/server/billing/service.rs:1912-1945 | with overage sold, or nothing included, exactly the hosts of the networks left stay |
| PlanEffects.EnforceDaemonHosts | backend/src/server/billing/service.rs:1912-1945 | only hosts of the networks left stay, and all of those on which a daemon left runs |
| PlanEffects.EnforceLimitedHosts | backend/src/server/billing/service.rs:1912-1945 | of the hosts of the networks left without a daemon, min(n, count) stay where n are included and no overage is sold |
| PlanEffects.EnforceRecentHosts | backend/src/server/billing/service.rs:1918-1931 | none that goes was updated later than one that stays |
| PlanEffects.ByRecencyIsStable | backend/src/server/billing/service.rs:1919-1919 | the sort keeps the order of the listing among hosts updated at one time |
| PlanEffects.PreviewMeans | backend/src/server/billing/service.rs:1593-1601 | the excess is the count over the included number, zero without one, whether overage is sold or not |
| GroupBindings.GroupBindingStorage.SaveForGroup | backend/src/server/groups/group_bindings.rs:219-238 | the group's rows are replaced in list order, or nothing changes if a binding repeats |
| GroupBindings.SaveRows | backend/src/server/groups/group_bindings.rs:219-238 | the group's rows afterwards are the list's bindings, each at its index from 0 on, and no other row changes |
| GroupBindings.SaveRepeated | backend/src/server/groups/group_bindings.rs:219-238 | a repeated binding leaves the table as it was |
| GroupBindings.GroupBindingStorage.DeleteForGroup | backend/src/server/groups/group_bindings.rs:241-245 | exactly the group's rows go |
| GroupBindings.GroupBindingStorage.RemoveFromAllGroups | backend/src/server/groups/group_bindings.rs:248-252 | exactly the binding's rows go |
| GroupBindings.DeleteRows | backend/src/server/groups/group_bindings.rs:241-252 | a row goes exactly if it is of the group deleted, or of the binding removed |
| GroupBindings.GroupBindingStorage.GetForGroup | backend/src/server/groups/group_bindings.rs:188-192 | the group's ordered list |
| GroupBindings.GroupBindingStorage.GetForGroups | backend/src/server/groups/group_bindings.rs:195-215 | for every requested group its list, a missing key meaning an empty one, and no other key |
| GroupBindings.ReadIsListing | backend/src/server/groups/group_bindings.rs:188-192 | every result the ordered query may return reads as the same list |
| GroupBindings.BatchAgrees | backend/src/server/groups/group_bindings.rs:195-215 | the grouped batch agrees with the single read on every group, whatever ordered result is returned |
| GroupBindings.SaveLists | backend/src/server/groups/group_bindings.rs:219-238 | saving sets one group's list and leaves the others |
| GroupBindings.DeleteLists | backend/src/server/groups/group_bindings.rs:241-245 | deleting empties one group's list and leaves the others |
| GroupBindings.RemoveLists | backend/src/server/groups/group_bindings.rs:248-252 | removing a binding drops it from every list and keeps the rest in order |
| GroupBindings.TableRefinesLists | backend/src/server/groups/group_bindings.rs:188-252 | after any operations the table stands for the map from group to list that the operations describe |
| GroupBindings.ReadsAreRight | backend/src/server/groups/group_bindings.rs:188-215 | single and batch read both return that list |
| BindingConflicts.BindingService.Validate | backend/src/server/bindings/handlers.rs:40-116 | accepts exactly when no other binding with the same service and network id is rejected by the branch for the new one's kind |
| BindingConflicts.BindingService.CreateBinding | backend/src/server/bindings/handlers.rs:149-191 | check, removal of superseded bindings, then insertion, refusal or a duplicate id, in the handler's order |
| BindingConflicts.BindingService.UpdateBinding | backend/src/server/bindings/handlers.rs:214-222 | check without the binding itself, lookup, refusal, then replacement |
| BindingConflicts.BindingService.DeleteBinding | backend/src/server/bindings/handlers.rs:31-31 | exactly the binding goes |
| BindingConflicts.CheckIsOverlap | backend/src/server/bindings/handlers.rs:35-116 | the three branches decide one symmetric relation: some interface is bound both whole and through a port |
| BindingConflicts.CreateMeans | backend/src/server/bindings/handlers.rs:149-191 | each answer of a creation and when it is given, and the table it leaves binding by binding |
| BindingConflicts.UpdateMeans | backend/src/server/bindings/handlers.rs:214-222 | each answer of an update and when it is given; the table changes under the id alone, and only on success |
| BindingConflicts.DeleteMeans | backend/src/server/bindings/handlers.rs:31-31 | the binding is gone, every other one is as before |
| BindingConflicts.StoreKeepsConflictFreeIff | backend/src/server/bindings/handlers.rs:40-116 | storing a binding keeps the bindings filed under one service and network id free of conflicts exactly when the check accepts it |
| BindingConflicts.CreateKeepsConflictFree | backend/src/server/bindings/handlers.rs:149-191 | creating keeps it so, also when the insertion is refused or fails |
| BindingConflicts.FailedCreateLosesIff | backend/src/server/shared/handlers/traits.rs:83-117 | a failed creation has lost bindings exactly when the check had passed and there was something to supersede |
| BindingConflicts.CreateSupersedes | backend/src/server/bindings/handlers.rs:156-188 | after an all-interfaces creation no specific binding of that port is left under that service and network id, and nothing else went |
| BindingConflicts.CreateKeepsIrredundantIff | backend/src/server/bindings/handlers.rs:134-136 | under one service and network id a creation brings in a redundant binding exactly when its port was bound on all interfaces before |
| BindingConflicts.UpdateKeepsIrredundantIff | backend/src/server/bindings/handlers.rs:214-222 | when an update does, under one service and network id |
| BindingConflicts.RunsStayConflictFree | backend/src/server/bindings/handlers.rs:149-222 | every run of creations, updates and deletions keeps the bindings filed under one service and network id free of conflicts |
| BindingServices.StoreKeepsServiceIff | backend/src/server/bindings/handlers.rs:47-49 | storing an accepted binding keeps the whole service free of conflicts exactly if it conflicts with none filed under another network id |
| BindingServices.CreateKeepsServiceIff | backend/src/server/bindings/handlers.rs:149-191 | so does a successful creation, exactly then |
| BindingServices.UpdateKeepsServiceIff | backend/src/server/bindings/handlers.rs:214-222 | and a successful update |
| BindingServices.CreateSupersedesServiceIff | backend/src/server/bindings/handlers.rs:156-188 | after an all-interfaces creation no specific binding of that port is left in the service exactly if none was filed under another network id |
| BindingServices.CreateKeepsServiceIrredundantIff | backend/src/server/bindings/handlers.rs:134-136 | a creation brings a redundancy into the service exactly if its port was bound on all interfaces before, or it covers a binding under another network id |
| BindingServices.UpdateKeepsServiceIrredundantIff | backend/src/server/bindings/handlers.rs:214-222 | an update does exactly if it covers, or is covered by, another binding of the service |
| BindingServices.TwoNetworksConflict | backend/src/server/bindings/handlers.rs:47-49 | two creations for one service under two network ids both pass and conflict |
| BindingServices.RunsStayServiceConflictFreeIff | backend/src/server/bindings/handlers.rs:149-222 | every run filed under given pairs of service and network id keeps every service free of conflicts exactly if the pairs give each service at most one network id |
| LoginLockout.AuthService.CheckLoginLockout | backend/src/server/auth/service.rs:443-458 | refuses exactly a locked account, announcing the first whole number of minutes after the lockout's end |
| LoginLockout.AuthService.TryLogin | backend/src/server/auth/service.rs:369-440 | an undisturbed login: refused and nothing changes if locked, else success clears or failure counts |
| LoginLockout.AuthService.RecordResult | backend/src/server/auth/service.rs:388-436 | success clears the entry, failure counts one more and stamps it, whatever came since the check |
| LoginLockout.AuthService.CleanupOldLoginAttempts | backend/src/server/auth/service.rs:940-948 | drops exactly the entries fifteen minutes old |
| LoginLockout.LockedMeans | backend/src/server/auth/service.rs:443-458 | locked is: five failures or more, the last less than 15 * 60 * 1000 ms ago |
| LoginLockout.RecordedMeans | backend/src/server/auth/service.rs:386-440 | success removes the account's entry, failure counts one more and stamps it; no other entry changes |
| LoginLockout.CleanedMeans | backend/src/server/auth/service.rs:940-948 | an entry stays, as it was, exactly if it is less than 15 * 60 * 1000 ms old |
| LoginRuns.FailuresInWindow | backend/src/server/auth/service.rs:369-440 | with at most k logins of an account in flight, and other logins, abandoned logins and cleanups anywhere, any 5 + k consecutive failures span fifteen minutes and a half-open window of that length holds at most 4 + k |
| LoginRuns.AtMostFiveFailures | backend/src/server/auth/service.rs:55-56 | with one login of the account at a time, and everything else anywhere, a window holds at most five failures with no success between |
| LoginRuns.WindowBoundIff | backend/src/server/auth/service.rs:380-436 | a bound on the failures per window holds on every run with at most k logins in flight exactly if it is at least 4 + k |
| LoginRuns.FiveHoldsIff | backend/src/server/auth/service.rs:380-436 | five per window hold on every run exactly if no two logins of an account overlap; abandoned logins do not count once abandoned |
| LoginRuns.OverlapReachesBound | backend/src/server/auth/service.rs:380-436 | n failures, at most four, then k checks, then k failing records put n + k failures at one instant |
| LoginLockout.CleanupLiftsNoLockout | backend/src/server/auth/service.rs:940-948 | the lockout check answers the same, now and later, with and without a cleanup |
| LoginRuns.LockoutNeedsFiveFailures | backend/src/server/auth/service.rs:443-458 | under any interleaving a lockout needs five failures since the last success, one of them recent; five close failures always bring it about |
| LoginRuns.StaleFailuresCount | backend/src/server/auth/service.rs:431-436 | without cleanups an account is locked exactly when five failures, however old, precede and the last is recent |

## Left out

- Locks taken one after the other: each service method is one atomic step, so races between two methods of the discovery service, the group and binding stores are not covered.
- Integer widths: `usize`, `u64`, `u32` and `i32` counters, sizes, limits and positions are unbounded; the fallback to three networks when a limit does not fit the machine word cannot occur.
- Payload contents: discovery types, host and subnet records and child records are numbers; the SNMP credentials put into a new session are not modelled.
- The broadcast channel, event bus and telemetry: what they send changes none of the modelled state; a publication error that would end an operation half way is taken not to happen.
- Notification of server-polled daemons by the Started event: only the dispatch through pending work is modelled.
- Storage errors and foreign keys: reads, writes and deletions succeed, except a duplicate id, a repeated group binding and an unknown id where stated.
- The terminal payload a daemon serves in a poll and then clears (`backend/src/daemon/shared/handlers.rs:190-196`): a repeated or missing terminal report is a repeated or missing step.
- Waiting for confirmation with a timeout, counts and emptiness tests of the entity buffer: they read one entry and add no state.
- The delay between scan starts, and dropping scans in flight on cancellation: a cancelled scan is one whose output is not collected.
- When the cancellation token fires: its answer at each check, in the refill loop and after a completion, is arbitrary.
- Seats in the plan preview, and webhook-driven plan state: they depend on parts not modelled.
- Cron scheduling of discoveries, HTTP clients and retries, protocol probes, file-descriptor budgets: input and output, or easy bounds.
- Login validation before the lockout check, password checking and event publication: a login is a check and, if let through, an answer recorded at a later time; one that is abandoned in between, by the caller or by a failing publication, is an event of its own.
- ReceiveWorkRequest: the status update before the work request is reduced to whether it succeeds; the daemon record it writes is not modelled.
- Bindings written along with their service (`backend/src/server/services/service.rs:218-230`, `:313-325`): they take the service's network id and pass no conflict check; the runs here are those of the binding handlers.
- Refusals of a binding by validation, access rights or missing references are one answer, given as a parameter.
