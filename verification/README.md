# A model of the office assistant's task queue, reviewed writes, planning budget, reports and memory

The repository runs office work for a user: it queues long jobs, writes minutes and reports to outside
systems after a review, lets a model plan and delegate under a budget, and remembers confirmed facts.
This project models the parts whose correctness is global, that is, not visible in any one function, and
proves it with Dafny 4.11. `dafny verify dfyconfig.toml` checks everything.

## What is modelled

**The task queue** (`TaskModel`, `TaskQueue`, `QueueSafety`, `QueueOutcomes`, `QueueTermination`,
`QueueCancellation`, `QueueSaveErrors`, `TaskDrain`, `TaskRepositories`). Any number of workers claim, run,
finish, save, crash and reclaim tasks under a lease. `TaskModel` holds each rewrite of a task as a function. `TaskQueue` is a state machine over
them, parametrised by the store: in the `Shared` store the worker's object is the stored object and
finishing it is one atomic write, because nothing in between suspends; in the `Snapshot` (SQL) store the
worker finishes a copy, after reading the cancel flag back, and a later transaction overwrites the row.
`TaskRepositories` has the two stores and the task object as classes whose methods are proved against the
same functions.

Time is one monotone integer clock. A claim may use a clock reading older than its transaction. `locked_by`
is an arbitrary string and may be shared by workers; nothing relies on it. A handler runs at most `timeout`;
`slack` bounds all the other time a worker spends between its claim and the write that ends the attempt,
and a worker that exceeds it counts as crashed. The hypothesis `Safe` is `timeout + slack < lease`. The
start-up check in app/workers.py, `lease > timeout`, is what makes a non-negative `slack` possible; the
exact-condition lemmas say that with any larger allowance the guarantees fail. All workers use one lease.

**Reviewed external writes** (`Drafts`, `ReviewedWrites`, `WriteSafety`, `WriteHistory`, `WriteReplies`,
`WriteVerdicts`, `LateSaves`, `WriteReceipts`, `Idempotency`). Generating, reviewing, sending and submitting are cut at every await, steps of
all clients interleave, and a client may crash between any two. Drafts are on a heap, so that one machine
covers the store that hands out its own objects (shared) and the one that hands out copies (SQL). The connector
deduplicates by key, as the repository's own connectors do. The sensitive-data policy is an arbitrary
function. A `log` is history: it gets an event when a draft is drawn or a verdict takes effect. In the SQL
stores a verdict takes effect with its save; in a shared store at once, and the save logs nothing, also if it
puts an object back that had been replaced. The `basis` in each draft is the log position of the event it
rests on.

The cut at every await is coarser than some wirings need. With the in-memory wiring of app/main.py:158-176 no
await inside a review suspends (app/services/audit.py:20-23), so there a review is one step and no review is saved late. The runs below that
need a late review in a shared store are about a shared store whose audit does suspend;
`PromptReviewsSeeLatest` is the guarantee without late reviews. Connectors may suspend in any wiring.

**The planning budget** (`Planning`): the middleware's decision, and conversations in which the model calls
only what it was offered.

**Reports and work events** (`Reports`, `WorkEvents`): deduplication, sections, and the accounting of the
collector. Confidence is a real number; title normalisation and the sensitive-data scan are parameters.

**Memory** (`Memory`, `MemoryTiming`): the cached list of confirmed memories, first without and then with
overlapping calls.

## What turned out not to hold, and exactly when it does

- A cancel accepted while a task runs is final in the shared-object store, but can be lost in the SQL store:
  the worker's save writes back the cancel flag of its copy. docs/architecture.md lists cooperative
  cancellation of running tasks without that limit. It is lost exactly if the attempt that is saved ended
  before the request, or in a way after which the worker does not look. `CancelIsLostIff`,
  `AskedIffEndedAfterRequest`, `SnapshotCancelCanBeLost`.
- Over the SQL store a report can be filed after its approval was taken back: the check looks at the version
  loaded before. It sees the latest event exactly if no verdict is saved between load and check. For reports in
  a shared store and minutes in the SQL store it always does. `CheckSeesLatestIff`, `SubmitSeesLatestIff`,
  `RejectedReportCanLeave`.
- In a shared store a review that is saved late can put replaced minutes back, and a send then checks an
  approval that is not the latest event. It is the latest exactly if the last save since that event did not put
  another object back. Even the save of a rejection can put an approved object back.
  `SharedCheckSeesLatestIff`, `PromptReviewsSeeLatest`, `SavedRejectionCanRestoreApproval`,
  `ReplacedMinutesCanLeave`.
- Late saves of reviewers, senders and submitters cover what was drawn or judged in between. In the SQL store
  nothing is covered exactly if nobody saves a draft or a verdict since the load; in a shared store the draft
  drawn last stays stored exactly if it was stored at the load and none has been drawn since.
  `VerdictSeesLatestIff`, `MarkSaveKeepsLatestIff`, `SharedSaveKeepsNewestIff`, and the runs
  `ApprovalCanReplaceRejection`, `SentMarkCanReplaceRegeneration`, `SentMarkCanReplaceRejection`.
- The gate that makes the model replan after a failure is skipped once the plan updates are used up, while
  docs/architecture.md says code enforces it. `GateIsSkippedIff`, `GateCanBeSkipped`.
- A report can be filed twice by submitters with different employee ids. `ReportLeavesOncePerEmployee`,
  `TwoEmployeesCanFileTwice`.
- The text key of the minutes connector is ambiguous if tenant ids may contain a colon: a set of tenant ids is
  safe exactly if none is another one, a colon and more. Otherwise a send can be answered with the email of
  another meeting, and the minutes sent never leave. `KeysCollideIff`, `TenantsAreSafeIff`,
  `SharedKeyMisanswers`, `MisansweredNeverLeave`.
- The repository's own overview (its README.md, line 149) says that a memory update invalidates the cache at
  once. It does exactly if no read that started before is still to be cached. Otherwise the old list can stay
  for the cache lifetime. `UpdateTakesEffectIff`, `OldIsServedIff`, `OverlapCanLeaveOldList`,
  `AnswersAreBoundedlyStale`.
- If the save inside `succeed` raises, the worker calls `fail` on the object that is already marked succeeded,
  and saves again. Tasks stay well-formed exactly if that second save is not done, and it changes a finished
  task exactly if the task is finished by then, as it is if the first save was committed.
  `WellFormedIffNoSecondSave`, `FinishedIsChangedIff`, `FinishedCanBeReopened`.

## Model

| member | source | states |
|---|---|---|
| TaskModel.ClaimKeepsWellFormed | app/services/runtime_state.py:144-158 | a claim of an eligible task keeps it well-formed, spends rank, and hands it out exactly if it is neither cancelled nor out of attempts |
| TaskModel.CancelKeepsWellFormed | app/services/runtime_state.py:173-180 | a cancel request keeps a task well-formed, changes only the flag of a finished one, and leaves any other cancelled or flagged |
| TaskModel.FinishKeepsWellFormed | app/services/task_worker.py:101-144 | every way an attempt ends leaves a well-formed task that is not running, cancelled exactly if it carries the flag, also under the row's own attempt number |
| TaskModel.ClaimSays | app/repositories/runtime.py:213-232 | a claim writes the claimer's name and time and one more attempt, or finishes the task and says why |
| TaskModel.CancelSays | app/services/runtime_state.py:173-180 | a cancel request ends a waiting task with the time of the request, and changes nothing but the flag of another |
| TaskModel.FinishSays | app/services/task_worker.py:101-144 | per outcome, what the task holds afterwards: the handler's result, or the code, and whether and when it is tried again |
| TaskModel.SaveClaimedSays | app/repositories/runtime.py:248-257 | an overwritten row is the worker's copy but for the two attempt columns |
| TaskModel.NewTaskIsReady | app/services/runtime_state.py:280-300 | a new task waits with no attempt made, and is eligible exactly from its creation on |
| TaskModel.FailAfterSucceedIsIllFormed | app/services/task_worker.py:117-143 | failing a task object after it was marked succeeded always leaves a result on a task that has not succeeded |
| QueueSaveErrors.WellFormedIffNoSecondSave | app/services/task_worker.py:110-144 | over whole runs with saves that raise, every task stays well-formed exactly if no worker saves a second time after the save of a success raised |
| QueueSaveErrors.FinishedIsChangedIff | app/services/task_worker.py:117-143 | up to the first such second save, a step changes a finished task exactly if it is one and the task is finished by then, which a committed first save makes certain |
| QueueSaveErrors.FinishedCanBeReopened | app/services/task_worker.py:117-143 | a run in which a succeeded task is put up for another attempt |
| TaskQueue.ClaimKeepsInv | app/repositories/runtime.py:183-232 | a claim keeps the queue's invariant: a live worker's task is still running at the attempt it claimed, no attempt is held twice |
| TaskQueue.SharedFinishKeepsInv | app/services/task_worker.py:110-144 | finishing in the shared-object store keeps the invariant although no owner is checked |
| TaskQueue.SnapshotFinishKeepsInv | app/services/task_worker.py:113-117 | finishing a copy keeps the invariant: the copy, put under the row's attempt number, is a well-formed finished task |
| TaskQueue.PersistWritesSnapshot | app/repositories/runtime.py:234-258 | a save in time meets its own attempt, and its overwrite is exactly the finished copy under the row's attempt number |
| TaskQueue.PersistKeepsInv | app/repositories/runtime.py:234-258 | the unfenced overwrite keeps the invariant |
| TaskQueue.StepKeepsInv | app/services/runtime_state.py:124-180 | the invariant is inductive over every step of either store |
| QueueOutcomes.CancelTakesEffect | app/repositories/runtime.py:260-281 | in every reachable state a cancel request finishes a waiting task, is pending on a running one, and only flags one that is over |
| QueueOutcomes.ClaimTakesEffect | app/repositories/runtime.py:209-232 | in every reachable state a claim hands out the next attempt in the claimer's name, or finishes a task that is cancelled or out of attempts |
| QueueOutcomes.SharedStoresOutcome | app/services/task_worker.py:110-144 | in the shared-object store an attempt leaves the task as it ended |
| QueueOutcomes.SnapshotStoresOutcome | app/services/task_worker.py:110-144 | in the SQL store the save of an attempt, however late, leaves the task as the attempt ended, under the attempt's own number |
| QueueOutcomes.ResultsWereReturned | app/services/runtime_state.py:342-353 | over whole runs the result of a task is one that a handler returned |
| QueueOutcomes.HandlerStartsAreBounded | app/services/task_worker.py:110-112 | over whole runs the steps that start a task's handler are at most max_attempts |
| QueueSafety.ReachableInv | app/services/runtime_state.py:124-180 | every task in every reachable state is well-formed |
| QueueSafety.OwnershipIsExclusive | app/repositories/runtime.py:183-232 | two live workers never hold the same task, and each one's task is running at its attempt |
| QueueSafety.SafeWrites | app/repositories/runtime.py:234-258 | every write of an outcome, in every run, meets the attempt its worker claimed, still running |
| QueueSafety.WritesMeetTheirAttemptIffSafe | app/workers.py:17-21 | unfenced writes always meet their own attempt if and only if the whole time allowance of a worker is shorter than the lease |
| QueueSafety.FinishedStaysFinishedIffSafe | app/repositories/runtime.py:248-257 | finished tasks never change again, but for the cancel flag, if and only if the same lease rule holds |
| QueueSafety.RunAdvances | app/services/runtime_state.py:342-377 | over any stretch of any run attempts, progress and rank move one way only and finished tasks stay |
| QueueSafety.AttemptsAreBounded | app/repositories/runtime.py:220-227 | handler starts, those of slow workers included, never exceed attempts, which never exceed max_attempts |
| QueueSafety.MovesAreBounded | app/services/runtime_state.py:342-377 | from creation on a task changes status or attempt at most twice max_attempts times |
| QueueTermination.StepSpendsTotalRank | app/services/runtime_state.py:124-180 | the total rank of the queue never rises, and falls exactly when some task visibly changes |
| QueueCancellation.CancelStandsAtStep | app/repositories/runtime.py:248-257 | a pending cancel survives a step if and only if the step does not save an attempt that ended without hearing of it |
| QueueCancellation.CancelIsLostIff | app/services/task_worker.py:101-144 | over every continuation a pending cancel is lost if and only if the SQL store saves an attempt that ended before the request, or by timeout, error, invalid payload or missing handler |
| QueueCancellation.AskedIffEndedAfterRequest | app/services/task_worker.py:113-124 | over any run, the attempt in progress at the first request counts as asked when it is saved exactly if it had not ended when the request came |
| QueueCancellation.SharedCancelIsFinal | app/services/runtime_state.py:169-180 | in the shared-object store a pending cancel is never undone: never claimed again, and the only end is cancelled |
| QueueCancellation.SnapshotCarriesFlagIff | app/services/task_worker.py:113-124 | the copy carries the flag exactly if the handler raised the cancellation or returned while the row was flagged |
| QueueCancellation.SnapshotCancelCanBeLost | app/repositories/runtime.py:248-257 | a run of the SQL store in which an accepted cancel is overwritten and the task succeeds |
| TaskDrain.ScanIsPicks | app/services/runtime_state.py:128-159 | an in-memory claim is a run of finalising steps then at most one taking step, and hands nothing out only if nothing is eligible |
| TaskDrain.ScanTakesFirst | app/services/runtime_state.py:128-159 | an in-memory claim finalises what is over in front, takes the first task in order that can be taken, and leaves those behind it alone |
| TaskDrain.ZeroLeaseKeepsEligible | app/services/runtime_state.py:130-135 | a task just taken is eligible at once exactly if the lease is not positive |
| TaskDrain.DrainIsOrderFree | app/repositories/runtime.py:189-232 | with a positive lease, claiming until nothing is eligible gives one result whatever the selection order |
| TaskDrain.DrainIsWorkerFree | app/repositories/runtime.py:189-232 | with several workers too, but for their names, and with exactly one pick for every task that was eligible |
| TaskDrain.StoresDrainAlike | app/services/runtime_state.py:124-159 | the in-memory and the SQL repository drain the same table to the same table |
| TaskDrain.EligibleIffReleased | app/repositories/runtime.py:192-204 | a task that is not over is eligible exactly from its release time on |
| TaskDrain.NoTaskIsLost | app/services/runtime_state.py:128-158 | in every reachable state every task that is not over can be claimed by any idle worker once its release time comes |
| TaskDrain.CrashDrainsEnd | app/services/runtime_state.py:144-158 | if workers crash after every claim, a task is over exactly after attempts left plus one drains, or after one if flagged |
| TaskDrain.CrashingQueueFinishes | app/services/runtime_state.py:128-159 | so a queue whose workers always crash still finishes every task |
| TaskRepositories.BackgroundTask.Visit | app/services/runtime_state.py:128-158 | the body of the claim loop does to one task object what the claim functions say |
| TaskRepositories.BackgroundTask.MarkSucceeded | app/services/runtime_state.py:347-353 | field by field, the state `succeed` saves |
| TaskRepositories.BackgroundTask.MarkFailed | app/services/runtime_state.py:363-376 | field by field, the state `fail` saves, in its three branches |
| TaskRepositories.BackgroundTask.Complete | app/services/task_worker.py:101-143 | what the worker does to its task object for each outcome, up to the save |
| TaskRepositories.InMemoryTaskRepository.SaveTask | app/services/runtime_state.py:113-117 | the object is stored under its key, at the end of the order if new |
| TaskRepositories.InMemoryTaskRepository.SaveClaimedTask | app/services/runtime_state.py:161-167 | the object is put back, or the missing key reported |
| TaskRepositories.InMemoryTaskRepository.RequestTaskCancel | app/services/runtime_state.py:169-180 | exactly the named row gets the cancel rewrite, or nothing changes |
| TaskRepositories.InMemoryTaskRepository.ClaimNextTask | app/services/runtime_state.py:124-159 | the loop over the live objects computes the scan, and hands out the stored object itself |
| TaskRepositories.InMemoryTaskRepository.FinishClaimed | app/services/task_worker.py:110-144 | reading the flag back, finishing and saving the shared object is one rewrite of its row |
| TaskRepositories.SqlTaskRepository.SelectFirst | app/repositories/runtime.py:186-208 | the row picked is eligible and unlocked; none of these is available earlier, and none available at the same time was created earlier |
| TaskRepositories.SqlTaskRepository.ClaimNextTask | app/repositories/runtime.py:183-232 | that row is finalised or taken, no other row changes, no creation time changes, and a fresh copy is handed out |
| TaskRepositories.DrainGoesInOrder | app/repositories/runtime.py:205-208 | with no row locked a drain picks different tasks, in the order of availability and then of creation |
| TaskRepositories.SqlTaskRepository.SaveTask | app/repositories/runtime.py:125-169 | a task is inserted or overwritten with all its columns, and refused exactly if another tenant has its id |
| TaskRepositories.SqlTaskRepository.SaveClaimedTask | app/repositories/runtime.py:234-258 | the row is overwritten but for its attempt columns, or the missing key reported |
| TaskRepositories.SqlTaskRepository.RequestTaskCancel | app/repositories/runtime.py:260-281 | exactly the named row gets the cancel rewrite, and a copy of it is returned |
| Drafts.GiveOk | app/domain/reports.py:97-105 | a verdict, whatever the status was, leaves every draft resting on an event of its own that explains its status, and what is stored on the latest |
| Drafts.SaveReviewedOk | app/repositories/meetings.py:30-36 | the save that ends a review, late or not, leaves every draft explained by its own event; in the SQL store what is stored rests on the latest |
| ReviewedWrites.SendLoadKeepsInv | app/domain/meeting_minutes.py:117-123 | a send prepares a call only with approved, shareable content under the minutes' own key |
| ReviewedWrites.SubmitLookupKeepsInv | app/domain/reports.py:115-124 | a submit answers with the record or prepares a call with approved, shareable content |
| ReviewedWrites.DeliverOk | app/connectors/mocks/email.py:29-32 | a deduplicating connector keeps one delivery per key, and its receipt is that delivery |
| ReviewedWrites.StepKeepsInv | app/domain/reports.py:107-135 | the invariant of reviewed writes is inductive over every step and crash |
| WriteSafety.MinutesLeaveAtMostOnce | app/domain/meeting_minutes.py:110-134 | in every run each meeting's minutes are emailed at most once |
| WriteSafety.ReportLeavesOncePerEmployee | app/domain/reports.py:123-124 | in every run two filings of one report are the same filing exactly if their employee ids agree |
| WriteSafety.TwoEmployeesCanFileTwice | app/domain/reports.py:115-135 | for any two different employee ids, a run that files one report twice |
| WriteSafety.RepliesAgree | app/services/idempotency.py:37-43 | all replies ever given for one target are the one recorded result, and it is a real delivery |
| WriteSafety.ResultsAreFinal | app/repositories/runtime.py:48-67 | a recorded result is never replaced in any continuation |
| WriteSafety.ReplyNamesTheOneEmail | app/domain/meeting_minutes.py:123-134 | once minutes have left, every reply to a send of them names that very email |
| WriteSafety.OnlyApprovedContentLeaves | app/domain/meeting_minutes.py:120-123 | everything that ever left was approved in exactly that form and passed the sensitive-data check |
| WriteSafety.ReviewAlone | app/domain/reports.py:97-105 | an uninterrupted review gives what is stored the reviewer's verdict and comment, whatever its status was, and leaves its content |
| WriteHistory.EventsHappened | app/domain/meeting_minutes.py:95-108 | over whole runs every logged verdict was given by a reviewer of that target, with that comment, on content drawn for it |
| WriteHistory.WhatLeftWasDrawnAndApproved | app/domain/meeting_minutes.py:120-123 | over whole runs everything that left was drawn in that form, approved with that comment, and passed the sensitive-data check |
| WriteHistory.SettledIsNotCalled | app/domain/meeting_minutes.py:112-116 | once a result is recorded and no call is under way, no step of any continuation calls the connector for that target |
| WriteReplies.RecordedSendIsAnswered | app/domain/meeting_minutes.py:112-116 | a send of minutes with a recorded result ends at once with that result and does nothing else |
| WriteReplies.RecordedSubmitIsAnswered | app/domain/reports.py:112-119 | a submit whose result is recorded by its lookup ends with that result, whatever others did meanwhile |
| WriteReplies.EveryEndIsAnswered | app/services/idempotency.py:37-43 | over any run there is one reply for every call that came to its end, in that order, each with the result recorded for its target |
| WriteVerdicts.CheckSeesLatestIff | app/domain/meeting_minutes.py:117-123 | a call is prepared only from an approval of what will leave; it is the latest event for reports in a shared store and minutes in the SQL store, and for a report in the SQL store not marked delivered exactly if the stored version still rests on it |
| WriteVerdicts.SharedCheckSeesLatestIff | app/domain/meeting_minutes.py:95-123 | in a shared store, over whole runs, the checked approval is the latest event exactly if the last save since that event did not put another object back |
| WriteVerdicts.PromptReviewsSeeLatest | app/domain/meeting_minutes.py:95-123 | in a shared store in which no review is saved after its object was replaced, every check sees the latest event |
| WriteVerdicts.LatestStaysIff | app/repositories/persistence.py:14-38 | over any stretch of a run of the SQL store the latest event about a draft stays the same exactly if nobody saves a draft or a verdict for it |
| WriteVerdicts.SubmitSeesLatestIff | app/domain/reports.py:112-124 | a submit checks the latest event exactly if the store is shared or no verdict is saved between its load and its check |
| LateSaves.VerdictSeesLatestIff | app/domain/meeting_minutes.py:97-108 | in the SQL store the version a verdict is given on is the latest at its save exactly if it was at its load and nothing was saved since |
| LateSaves.MarkSaveKeepsLatestIff | app/domain/meeting_minutes.py:117-125 | in the SQL store a sender's or submitter's own save leaves the latest event in force exactly if nothing was saved since its load |
| LateSaves.SharedSaveKeepsNewestIff | app/domain/reports.py:99-126 | in a shared store the draft drawn last is stored after such a save exactly if it was at the load and none was drawn since |
| WriteVerdicts.RejectedReportCanLeave | app/domain/reports.py:112-124 | a run of the SQL store in which a report leaves after its rejection is stored |
| LateSaves.ReplacedMinutesCanLeave | app/domain/meeting_minutes.py:95-108 | for either store, a run in which minutes leave in a form that had been regenerated |
| LateSaves.SavedRejectionCanRestoreApproval | app/domain/meeting_minutes.py:95-108 | a run of a shared store in which the save of a rejection puts an approved object back, which then leaves |
| LateSaves.SentMarkCanReplaceRegeneration | app/domain/meeting_minutes.py:123-125 | for either store, a run in which regenerated minutes are replaced by the old form marked sent |
| LateSaves.SentMarkCanReplaceRejection | app/domain/reports.py:124-126 | a run of the SQL store in which a rejection saved during a send or submit is replaced by the delivered version |
| LateSaves.ApprovalCanReplaceRejection | app/domain/meeting_minutes.py:95-108 | a run of the SQL store in which an approval goes over a rejection its reviewer never saw |
| WriteReceipts.KeysCollideIff | app/domain/meeting_minutes.py:123 | two meetings share a connector key exactly if one tenant id is the other, a colon and more, and the meeting ids fit |
| WriteReceipts.ReplyNamesOwnEmail | app/domain/meeting_minutes.py:123-134 | a reply to a send names an email with these minutes, unless the ids collide in that way |
| WriteReceipts.SharedKeyMisanswers | app/domain/meeting_minutes.py:123-134 | for any two meetings that collide, a run that answers the second with the first one's email |
| WriteReceipts.MisansweredNeverLeave | app/domain/meeting_minutes.py:112-134 | minutes once answered so never leave in any continuation |
| WriteReceipts.TenantsAreSafeIff | app/domain/meeting_minutes.py:123 | a set of tenant ids gives only true answers in all runs exactly if none is another one, a colon and more |
| WriteReceipts.ReplyNamesOwnReport | app/domain/reports.py:123-135 | a reply to a submit names a filing of that report, if report ids have no colon and are not used twice |
| WriteReceipts.ReportKeysAgreeIff | app/domain/reports.py:123 | without colons in their parts, the keys of two filings agree exactly if tenant, employee, date and report do |
| WriteSafety.NoCallsOnceSettled | app/domain/meeting_minutes.py:112-116 | once a result is recorded and no call is under way, no review, regeneration, send or submit calls the connector again |
| WriteSafety.SendAlone | app/domain/meeting_minutes.py:112-134 | an uninterrupted first send delivers, marks, records and replies exactly if the minutes are approved and shareable; otherwise nothing leaves |
| WriteSafety.SubmitAlone | app/domain/reports.py:112-135 | likewise for an uninterrupted first submit |
| Idempotency.InMemoryIdempotencyRepository.Save | app/services/idempotency.py:30-43 | the first write is kept and returned |
| Idempotency.SqlIdempotencyRepository.Save | app/repositories/runtime.py:40-67 | likewise with insert, rollback and read, and the conflict without a record cannot occur |
| Idempotency.FirstWriteWins | app/services/idempotency.py:37-43 | over any sequence of saves a scope holds the result it had, or the first one it was given |
| Planning.RequiresReplan | app/orchestration/middleware.py:19-40 | the one-pass loop decides whether some failure has no later plan update |
| Planning.FailuresAreMarked | app/orchestration/middleware.py:19-40 | a tool result is a failure exactly if one of six markers is somewhere in its text |
| Planning.CountIsCalls | app/orchestration/middleware.py:9-16 | the count of a tool is its multiplicity among all calls of the history, parallel ones counted one by one |
| Planning.PlanningBudgetMiddleware.Make | app/orchestration/middleware.py:58-67 | exactly the non-positive budgets are refused |
| Planning.PlanningBudgetMiddleware.LimitedRequest | app/orchestration/middleware.py:69-106 | a tool stays as often as requested unless it is `task` or `write_todos` and its calls, counted one by one, use up its budget, or `task` after an unplanned failure; the notice says which |
| Planning.OfferedInOrder | app/orchestration/middleware.py:69-106 | the tools that stay are in the order of the request |
| Planning.OfferedIsWithout | app/orchestration/middleware.py:74-82 | dropping withheld tools one name at a time leaves exactly the allowed ones |
| Planning.BudgetsBoundConversations | app/orchestration/middleware.py:69-93 | over whole conversations no more turns than the budget call the tool, and its calls among all calls are at most the budget less one plus the widest batch |
| Planning.DelegationComesAfterReplanning | app/orchestration/middleware.py:94-105 | a turn that delegates while plan updates are left has no unplanned failure before it |
| Planning.GateIsSkippedIff | app/orchestration/middleware.py:83-93 | after an unplanned failure delegation is offered exactly if plan updates are used up and delegations are not |
| Planning.GateCanBeSkipped | app/orchestration/middleware.py:83-93 | for every valid budget, a conversation in which that happens |
| Planning.BothWithheldIff | app/orchestration/middleware.py:75-105 | delegation and planning are both withheld exactly when both budgets are used up |
| Planning.PlanReopensGate | app/orchestration/middleware.py:31-40 | after a plan update only later failures count |
| Reports.Deduplicate | app/domain/reports.py:81-88 | no two kept events agree in project and normalised title, each is the most certain and then earliest of those like it, and every event of the input has one like it |
| Reports.KeptInFirstOccurrenceOrder | app/domain/reports.py:82-88 | kept events come in the order in which events like them first occur |
| Reports.KeysInFirstOccurrenceOrder | app/domain/reports.py:82-88 | the key order is the order of first occurrence |
| Reports.BestIsEarliestMostCertain | app/domain/reports.py:85-87 | the chosen event is one of the events, of maximal confidence, the earliest among equals |
| Reports.DedupIsIdempotent | app/domain/reports.py:81-88 | deduplicating twice changes nothing |
| Reports.DedupOfBatches | app/domain/reports.py:81-88 | deduplicating batches and then their concatenation equals deduplicating everything |
| Reports.SectionHasExactly | app/domain/reports.py:35-47 | a section holds every event of its status as often as the input, and no other |
| Reports.ReportLine | app/domain/reports.py:91-95 | a line is the title alone exactly if there is no detail or the title says it; otherwise it goes on with the detail, whole if it has at most 200 characters |
| Reports.LinesHaveEvents | app/domain/reports.py:35-47 | a line stands in a section exactly if a kept event of that status has that line |
| Reports.DraftCountsEveryKey | app/domain/reports.py:38-59 | lines and unknown events together are as many as the evidence ids and as the distinct keys |
| Reports.WarningsNameTheDoubtful | app/domain/reports.py:50-57 | the events warned about are exactly the unknown or uncertain ones |
| Reports.EveryEventIsRepresented | app/domain/reports.py:34-48 | every incoming event has exactly one kept event of its own project and normalised title, at least as certain, with its id in the evidence |
| Reports.DraftSays | app/domain/reports.py:38-59 | the evidence is the kept ids in order, and the warnings are the sources' in order and then confirmations only |
| Reports.LinesInOrder | app/domain/reports.py:35-47 | the lines of each section are, one for one and in order, those of the kept events of its status |
| WorkEvents.CollectEmail | app/services/work_events.py:176-208 | kept events are the accepted records in order, and kept, invalid and sensitive add up to the input |
| WorkEvents.CollectMeetings | app/services/work_events.py:222-232 | likewise for minutes |
| WorkEvents.PositionsAreExact | app/services/work_events.py:179-189 | the positions counted for a verdict are exactly those with it, in order |
| WorkEvents.Collect | app/services/work_events.py:80-102 | events and warnings are those of the sources in order, counts are per source and add up, a failed source counts zero and is named |
| WorkEvents.FourSources | app/services/work_events.py:87-97 | events and warnings are those of the four sources one after the other |
| Memory.CacheRoundTrip | app/services/runtime_state.py:244-272 | a cached list comes back as it went in exactly if the reader owns all of it |
| Memory.InMemoryMemoryRepository.SaveMemory | app/services/runtime_state.py:100-111 | the item stands in the owner's list where its key stood, or at the end, and no other user's list changes |
| Memory.ListHasExactly | app/services/runtime_state.py:106-111 | a user's list has exactly the items stored under the user's keys |
| Memory.MemoryService.Remember | app/services/runtime_state.py:218-234 | only confirmed items are saved, and with an effective delete the cache agrees with the repository for every user |
| Memory.MemoryService.ListFor | app/services/runtime_state.py:236-274 | with any misses, garbage and dropped sets the answer is the repository's list |
| Memory.MemoryService.Evict | app/services/cache.py:55-66 | entries lost between calls leave the rest in agreement |
| Memory.MemoryService.Serve | app/services/runtime_state.py:218-274 | over any sequence of calls by any users that do not overlap, with effective deletes, every answer and the contents are those of a repository without a cache |
| MemoryTiming.AnswersAreBoundedlyStale | app/services/cache.py:68-83 | with overlap and lost deletes every answer is the repository's list at a moment at most the lifetime plus the read-to-set delay before |
| MemoryTiming.EntryLivesFor | app/services/cache.py:68-76 | a stored list is served for the configured lifetime, at least one second, and not longer |
| MemoryTiming.OldIsServedIff | app/services/runtime_state.py:236-274 | from any state an old list can still be served exactly if an unexpired entry is old or a reader in time holds an old list |
| MemoryTiming.UpdateTakesEffectIff | app/services/runtime_state.py:218-234 | an update takes effect at once exactly if no earlier reader still holds another list in time; with a lost delete, also nothing else may be cached |
| MemoryTiming.OverlapCanLeaveOldList | app/services/runtime_state.py:231-234 | a run with an effective delete after which the old list is served |

## Left out

- The API routes, permissions, audit records, configuration and wiring, and everything inside LangGraph, SQLAlchemy, Redis and GitLab: a row-locking transaction is one atomic step here.
- `BackgroundTaskService.update`: an unrestricted setter that no code in app/ calls.
- The transcription handler's polling loop: a handler is any run that ends in one of the outcomes; the bound on handler starts bounds its submissions, of which it makes one per start.
- Store errors in other saves than that of a success: such an error leaves the worker, and counts as a crash before the save.
- The two statements of a first save in the SQL stores, which two first saves of one row could interleave.
- Approvals, schedules, file parsing, export, data analysis and email polishing: one-branch checks and library calls.
- The weekly report, which is the daily one with another label, and the pure mappings of GitLab and task records.
- Other users' view of a report in the in-memory report store, which ignores the tenant: targets carry their tenant here.
- The SQL memory table keeps a row's id and time on update; lists here are those of the in-memory repository, and any lists in MemoryTiming.
- Time stamps survive their text form, cache keys are one per user, and JSON encoding is exact.
