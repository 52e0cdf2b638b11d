# Verified model of dj_queue

dj_queue is a job queue kept in database tables. Producers, workers, dispatchers, schedulers and supervisors
each run small transactions against those tables, in any order and with no coordinator. This project models
those transactions in Dafny and proves what the queue promises about them.

## What is modelled

**Job lifecycle and concurrency slots.** `Tables` holds the database: jobs, one table for each of the states
ready, scheduled, claimed, blocked and failed, the semaphore rows, processes and pauses. `Semaphores` and
`SemaphoreDialects` are the counter row of one concurrency key and the forms in which the database back ends
update it. `Slots`, `Dispatch` and `Lifecycle` give every transaction as a function from database to database,
with its errors; `Stores` is the same as an object whose tables are updated in place by loops, with rollback, and
each of its methods is proved to commit what the function computes. `SlotAccounting`, `LifecycleSafety`, `Runs`,
`Conservation` and `Status` prove safety over every run; `Outcomes` says where each
transaction leaves the jobs it is about, and `Selections`, `BatchOutcomes`, `RecoveryOutcomes`, `ReleaseOutcomes`
and `Submissions` tell from the tables before and after which rows it took and why; `Waiters` and `Draining` prove
that no job waits in vain; `GroupRelease` and `DispatchReorder` prove that batch forms refine single ones,
`GroupLimits` where they do not. `Claiming` and `Ordering` prove that all query plans of a claim return one selection.

**Cron schedules.** `Calendar`, `CronFields`, `Cron` and `CronSearch` go from the items of the fields to the
parsed schedule and to the nearest run in either direction; `NaturalTimes` covers the merging of natural-language
times and their grouping into expressions.

**Recurring tasks.** `Recurring`, `RecurringFiring` and `RecurringStore` model the protocol of reserving a run and
publishing its job, with any number of schedulers that may crash in between, and polls that end with the first
exception; `RecurringDue` says which runs a poll attempts and that due tasks are fired; `RecurringCron` puts their
questions to the cron search, `RecurringSync` is the synchronisation of configured tasks and the scheduling of
dynamic ones.

**Queue latency.** `QueueLatency` models pausing and resuming.

## How it is modelled

- A step of a run is one committed transaction, or none if it raised. Rows that another transaction has locked are
  a set `hidden` that a step may leave out of its selection; it is arbitrary in all safety results, and empty only
  where the absence of stranded waiters is claimed.
- Inside a transaction the invariant carries two allowances: `loose` jobs that have no state row at the moment, and
  `pending` slots that a semaphore row counts for no running job. Both are empty between transactions.
- `forgotten` records the keys for which some operation offered a limit below the slots in use since the semaphore
  row was last collected. There the code clamps the count and loses the excess, so exact counting is claimed for all
  other keys; with one limit per key the set is proved to stay empty.
- Times are integers. The cron search works on wall-clock moments at a fixed distance from the time line.
- Job ids are drawn by the caller and do not repeat, as random UUIDs are assumed not to.
- A job without a concurrency key stands for a null key and for the empty string, which the code treats alike.

## Where code and expectation differ

- The parser accepts day fields joined by `&` that no day can satisfy; `Cron.ConjunctionCanNeverMatch` is one, and
  `Cron.MatchingDayIffAllowed` says exactly which schedules can match.
- Nothing handles the exception of a search without an answer, so a due task with such a schedule ends every poll
  that comes to it, and what comes after it is not fired: `RecurringCron.NeverMatchingHoldsUpReservation` is a poll
  that leaves a crashed reservation waiting. Where null dates sort first, a task that has never been fired comes
  before all others. `RecurringFiring.PollReachesIff` is the exact condition for a poll to come to an attempt, an
  exception raised by enqueueing included; without `%`, `RecurringCron.PollReachesIffDaysAllowed` makes it a check
  on the fields.
- A published run can be published again after its reservation was deleted and its schedule edited or its task
  recreated; `RecurringFiring.FiresAgainIffExposed` is the exact condition, and
  `RecurringCron.DailyThenMonthlyRefires` two cron schedules it happens to.
- In natural-language times a slot graded strong for its hours carries the number zero as its grade, which the merge
  loop reads as no grade at all. `NaturalTimes.HourRangeDoesNotMerge` is a phrase whose range stays apart, and
  `NaturalTimes.UntouchedIff` says exactly which lists are left as they are.
- Under a limit below the slots in use, releasing slots as a group and one by one can differ:
  `GroupLimits.GroupCanPromoteFewer`, `GroupLimits.GroupIsRepeatedReleaseIff` and `GroupLimits.SameTablesIff`.
- A range of hours to midnight that is repeated by minutes is written with hour minus one, and the phrase is refused:
  `NaturalTimes.RangeToMidnightIsUnreadable` and `NaturalTimes.ShortenedIsReadableIff`.

## Model

| member | source | states |
|---|---|---|
| `Semaphores.AcquireManyIsRepeatedAcquire` | dj_queue/operations/concurrency.py:123-183 | taking n slots in one locked read and write leaves the same row, column for column, and grants as many slots as n successive acquires, for every prior row and limit |
| `Semaphores.AcquireManyGrants` | dj_queue/operations/concurrency.py:156-183 | the i-th of a run of acquires succeeds exactly when a batch of more than i takes more than i |
| `Semaphores.AcquireManyExhausts` | dj_queue/operations/concurrency.py:156-183 | a batch that grants less than it was asked for leaves no free slot |
| `Semaphores.AcquireCountsExactlyIff` | dj_queue/operations/concurrency.py:92-119 | an acquire counts the slots in use exactly if and only if the offered limit is not below them: the clamp forgets the excess otherwise |
| `Semaphores.ReleaseCountsExactlyIff` | dj_queue/operations/concurrency.py:186-201 | a release counts down by exactly one if and only if the offered limit covers the slots that stay in use |
| `Semaphores.ConsumeReleasedIsSafeIff` | dj_queue/operations/concurrency.py:327-340 | the consuming update keeps a possible row if and only if the free slots it leaves fit the offered limit |
| `Semaphores.ConsumeReleasedCanOverflow` | dj_queue/operations/concurrency.py:327-340 | a concrete row that the consuming update breaks when it does not follow its own release |
| `Semaphores.OperationsKeepWellFormed` | dj_queue/operations/concurrency.py:80-201 | every sequence of the exposed operations, under any positive limits, keeps limit at least 1, value within 0 and limit, and the cached active count equal to limit minus value |
| `SemaphoreDialects.SemaphoreTable.AcquireByUpdates` | dj_queue/operations/concurrency.py:80-120 | insert, else guarded update, else reconciling update: the row and the flag of the specified acquire, for every prior row, a null active count included |
| `SemaphoreDialects.SemaphoreTable.AcquireByUpsertAndReconcile` | dj_queue/sql/postgres.py:38-115 | the upsert with its reconciling part gives the same row and flag |
| `SemaphoreDialects.SemaphoreTable.AcquireByOrderedAssignments` | dj_queue/sql/mysql.py:89-168 | the upsert whose assignments run left to right over already assigned columns gives the same row and flag |
| `SemaphoreDialects.SemaphoreTable.AcquireManyLocked` | dj_queue/operations/concurrency.py:123-183 | the locked batch form gives what that many single acquires give and touches no other key |
| `SemaphoreDialects.AssignmentOrderMattersIff` | dj_queue/sql/mysql.py:111-139 | with the limit assigned before the columns that read it, the upsert returns the specified row and flag if and only if the limit is unchanged, or is lowered on a row with none or all of its slots free |
| `Ordering.FirstIsUnique` | dj_queue/operations/claiming.py:271-283 | the description "first k rows of a set in rank, priority descending, id order" is met by one list only |
| `Ordering.Take` | dj_queue/operations/claiming.py:271-283 | an ordered, limited selection: sorted, drawn from the rows, of full length unless the rows run out, and before every row left out |
| `Claiming.SelectExactQueueRows` | dj_queue/operations/claiming.py:222-253 | the queue-by-queue loop with its remaining quota returns the first rows by (first matching selector, priority descending, id), without duplicates even when a selector repeats |
| `Claiming.SelectByChainedSubselects` | dj_queue/sql/postgres.py:302-381 | the chain of sub-selects carrying a remaining count returns the same rows in the same order |
| `Claiming.SelectReadyRows` | dj_queue/operations/claiming.py:173-215 | every plan - match all, exact queues, ranked prefixes, the fallback after `*` - returns that same selection |
| `Claiming.NextRank` | dj_queue/operations/claiming.py:222-253 | the first rows of ranks up to n are the first rows below n followed by rank n within the quota left |
| `Claiming.DedupeSelection` | dj_queue/sql/postgres.py:302-330 | dropping repeated selectors does not change the selection |
| `Claiming.QueryMembers` | dj_queue/operations/claiming.py:271-283 | a selection holds only eligible rows, no row twice, at most the limit, and all of them when it is shorter |
| `SlotAccounting.AcquireSlotGood` | dj_queue/operations/concurrency.py:65-120 | taking a slot keeps one state per job and the exact count, the slot pending for its job |
| `SlotAccounting.AcquireSlotsGood` | dj_queue/operations/concurrency.py:123-183 | the same for a batch of slots |
| `SlotAccounting.ReleaseSemaphoreGood` | dj_queue/operations/concurrency.py:186-201 | a release settles one pending slot |
| `SlotAccounting.TakeForBlockedGood` | dj_queue/operations/concurrency.py:327-357 | the handoff keeps the count and the consuming update adds one pending slot, when it follows a release with the same limit |
| `SlotAccounting.UnblockNextGood` | dj_queue/operations/concurrency.py:422-529 | promoting the next blocked job never raises, passes the slot on exactly, and keeps every job in one state |
| `SlotAccounting.ReleaseKeyGood` | dj_queue/operations/concurrency.py:811-840 | a departed job's slot is settled whether it is handed over, consumed after a release, or left free |
| `SlotAccounting.ReleaseSlotGood` | dj_queue/operations/concurrency.py:811-840 | the same with the settings a release falls back to when the policy cannot be resolved |
| `SlotAccounting.ReleaseSlotsGood` | dj_queue/operations/jobs.py:407-411 | releasing the slots of several departed jobs one after another settles them all |
| `SlotAccounting.ReleaseGroupGood` | dj_queue/operations/concurrency.py:249-324 | a group release settles as many slots as it releases and promotes only waiting jobs of the key |
| `GroupRelease.GroupIsRepeatedRelease` | dj_queue/operations/concurrency.py:249-324 | under the slot invariant a group release of n slots leaves the very database that n single releases leave: same promoted jobs in the same order, same rows, same semaphore |
| `GroupLimits.ReleaseKeyTimesReleased` | dj_queue/operations/concurrency.py:811-840 | in the database, n single releases make of the semaphore row and of the waiting jobs what the row and their number say, under any positive limit |
| `GroupLimits.ReleaseGroupReleased` | dj_queue/operations/concurrency.py:249-324 | so does a group release of n slots |
| `GroupLimits.GroupIsRepeatedReleaseIff` | dj_queue/operations/concurrency.py:249-324 | from every consistent database and for any positive limit, a group release and as many single ones leave the same semaphores and promote the same number of jobs if and only if the limit is at least the slots in use less one, or one slot is released, or all are and no job waits |
| `GroupLimits.SameTablesIff` | dj_queue/operations/concurrency.py:468-529 | they leave the very same tables if and only if the limit covers the slots in use, or no job waits and they agree as above: otherwise a waiting job that got no slot was put back as a new row |
| `GroupLimits.GroupCanPromoteFewer` | dj_queue/operations/concurrency.py:277-283 | a consistent database with five slots in use and three waiting jobs: releasing three slots under a limit of three, the group promotes one job, single releases promote two |
| `GroupRelease.HandoffResult` | dj_queue/operations/concurrency.py:468-529 | with a slot to hand over, a release promotes the waiting job of highest priority and lowest id, and changes no other blocked row |
| `Dispatch.GroupIsRepeatedDispatch` | dj_queue/operations/dispatch.py:74-84 | serving one decision group with one batch acquire leaves what dispatching its jobs one by one leaves |
| `Dispatch.BulkIsSingleDispatchInGroupOrder` | dj_queue/operations/dispatch.py:62-85 | bulk dispatch leaves the very database of single dispatches in stable decision-group order |
| `Dispatch.DispatchOneGood` | dj_queue/operations/dispatch.py:146-199 | a dispatched job gets exactly one state and the slot count stays exact, whichever outcome |
| `Dispatch.BulkGood` | dj_queue/operations/dispatch.py:62-85 | the same for a whole batch |
| `DispatchReorder.DispatchesCommute` | dj_queue/operations/dispatch.py:146-199 | dispatches of two jobs that do not contend for one key commute up to row ids |
| `DispatchReorder.BulkIsSingleDispatchInOriginalOrder` | dj_queue/operations/dispatch.py:62-85 | when each key occurs with one decision, bulk dispatch gives the outcomes and semaphores of single dispatches in the original order |
| `LifecycleSafety.EnqueueSound` | dj_queue/operations/enqueue.py:55-91 | enqueue keeps the database valid or is rolled back for a reason that is not an inconsistency |
| `LifecycleSafety.EnqueueBulkSound` | dj_queue/operations/enqueue.py:140-160 | the same for bulk enqueue |
| `LifecycleSafety.RedispatchSound` | dj_queue/operations/jobs.py:263-309 | jobs whose rows were consumed all get exactly one new state, undecidable ones the failed state when errors are isolated |
| `LifecycleSafety.PromoteScheduledSound` | dj_queue/operations/jobs.py:41-79 | promotion of due scheduled jobs keeps the database valid |
| `LifecycleSafety.DispatchNowSound` | dj_queue/operations/jobs.py:82-117 | dispatching a scheduled job by hand keeps it valid |
| `LifecycleSafety.RetryFailedSound` | dj_queue/operations/jobs.py:172-219 | retrying failed jobs keeps it valid |
| `LifecycleSafety.RetryOneSound` | dj_queue/operations/jobs.py:143-169 | retrying one failed job keeps it valid |
| `LifecycleSafety.PromoteRetriesSound` | dj_queue/operations/jobs.py:222-260 | promoting due retries keeps it valid |
| `LifecycleSafety.ScheduleRetrySound` | dj_queue/operations/jobs.py:120-140 | scheduling a retry keeps it valid |
| `LifecycleSafety.ClaimSound` | dj_queue/operations/claiming.py:79-170 | a claim moves rows from ready to claimed with their slots and finds no conflict |
| `LifecycleSafety.CompleteSound` | dj_queue/operations/execution.py:101-139 | completion keeps the database valid, and succeeds for every claimed job of the backend |
| `LifecycleSafety.FailSound` | dj_queue/operations/execution.py:142-179 | failing keeps it valid, and succeeds for every claimed job of the backend |
| `LifecycleSafety.DiscardSound` | dj_queue/operations/jobs.py:363-424 | discarding a batch in any state keeps it valid; ready jobs give back their slots |
| `LifecycleSafety.ReleaseRecoveredGood` | dj_queue/operations/concurrency.py:204-233 | recovered jobs' slots are settled group by group, those of keys without common settings left pending for their jobs |
| `LifecycleSafety.FailClaimedBatchSound` | dj_queue/operations/recovery.py:160-207 | failing claims together and releasing their slots in groups keeps it valid |
| `LifecycleSafety.FailOrphanedSound` | dj_queue/operations/recovery.py:20-37 | failing orphaned claims keeps it valid |
| `LifecycleSafety.FailForProcessSound` | dj_queue/operations/recovery.py:40-61 | failing the claims of a process keeps it valid |
| `LifecycleSafety.PruneStaleSound` | dj_queue/operations/recovery.py:101-157 | pruning stale processes keeps it valid |
| `LifecycleSafety.CleanupValid` | dj_queue/operations/concurrency.py:614-644 | collecting expired semaphores without holders keeps every count exact: a missing row means no holder |
| `LifecycleSafety.PromoteExpiredSound` | dj_queue/operations/concurrency.py:647-702 | handling expired blocked rows, consumed first or in place, keeps it valid |
| `LifecycleSafety.ClearFinishedSound` | dj_queue/operations/cleanup.py:14-45 | retention of finished jobs keeps it valid |
| `LifecycleSafety.ClearFailedSound` | dj_queue/operations/cleanup.py:48-89 | retention of failed jobs keeps it valid |
| `Outcomes.GrantedIff` | dj_queue/operations/concurrency.py:92-119 | a slot is granted exactly when fewer slots are in use than the offered limit |
| `Outcomes.EnqueueOutcome` | dj_queue/operations/enqueue.py:55-91 | a new job is scheduled for its date when that is later, ready when it contends for nothing, and otherwise ready exactly when fewer jobs hold slots of its key than its limit, else blocked until its duration has passed, or finished at once |
| `Outcomes.BulkLands` | dj_queue/operations/dispatch.py:62-118 | bulk dispatch puts every job where its decision sends it |
| `Outcomes.RedispatchOutcome` | dj_queue/operations/jobs.py:263-309 | every job dispatched again is where its decision sends it, or failed now when it cannot be decided and errors are isolated |
| `Outcomes.PromoteScheduledLeaves` | dj_queue/operations/jobs.py:41-79 | after a promotion the rows of the batch are gone from the scheduled table, but for jobs given a later date meanwhile, and every other job is in it exactly as before |
| `Outcomes.ClaimOutcome` | dj_queue/operations/claiming.py:79-170 | exactly the selected jobs move from ready to claimed, to the claiming process, and nothing else changes; `Selections` says which they are |
| `Outcomes.CompleteOutcome` | dj_queue/operations/execution.py:101-139 | the claim is gone, its job finished now or deleted, and otherwise at most blocked jobs have become ready |
| `Outcomes.FailOutcome` | dj_queue/operations/execution.py:142-179 | the claim is gone, its job failed now without a retry, and otherwise at most blocked jobs have become ready |
| `Outcomes.FailClaimedBatchOutcome` | dj_queue/operations/recovery.py:160-207 | exactly the claims of the batch are gone and their jobs failed now; other claims and failures stay |
| `Outcomes.DiscardOutcome` | dj_queue/operations/jobs.py:363-424 | exactly the selected jobs and their rows are gone; only discarding ready jobs lets blocked ones become ready; `BatchOutcomes.DiscardTakesFirst` says which they are |
| `Outcomes.ExpireOutcome` | dj_queue/operations/concurrency.py:669-701 | an expired blocked job fails without a policy, is ready when fewer slots are in use than its limit, and else stays blocked with a new date |
| `Outcomes.ReleaseSlotPromotes` | dj_queue/operations/concurrency.py:811-840 | releasing a slot can only make blocked jobs ready |
| `Outcomes.ReleaseRecoveredPromotes` | dj_queue/operations/concurrency.py:204-226 | the same for all groups of a recovery |
| `Selections.ClaimTakesClaimable` | dj_queue/operations/claiming.py:95-139 | a job newly claimed was in ready, visible, of the backend, in a queue that no pause names, that some selector equals or is a prefix of, and that was not paused meanwhile; it went to the claiming process, and every other ready and claimed row is as it was |
| `Selections.ClaimOkIff` | dj_queue/operations/claiming.py:90-128 | a claim is refused exactly for a process that is unknown or of another backend, or when a locked row has no job of the backend, or one with another state row |
| `Selections.ClaimTakesFirst` | dj_queue/operations/claiming.py:95-106 | a row that could have been claimed and was left behind comes after every claimed row by first matching selector, priority and id |
| `Selections.ClaimFillsLimit` | dj_queue/operations/claiming.py:95-106 | when no queue was paused meanwhile and such a row was left behind, exactly `limit` rows were claimed |
| `BatchOutcomes.PromoteScheduledTakesFirst` | dj_queue/operations/jobs.py:45-79 | the first due visible rows of the backend by date, priority and id leave the scheduled table, but for jobs given a later date meanwhile; all other rows are as they were |
| `BatchOutcomes.DispatchNowOutcome` | dj_queue/operations/jobs.py:82-117 | exactly a visible scheduled job of the backend with a policy where it needs one is dispatched: its date is cleared, its row is gone and no other, and without a key it is ready |
| `BatchOutcomes.DiscardTakesFirst` | dj_queue/operations/jobs.py:363-424 | a job is gone only if it had a visible row of the table with the backend, in the queue and among the ids asked for; one that had and is still there has the batch full before it; other jobs are as they were |
| `BatchOutcomes.ClearFinishedTakesFirst` | dj_queue/operations/cleanup.py:14-45 | exactly the first visible jobs of the backend, and of the task if one is given, that finished before the cutoff are deleted, as many as fit the batch |
| `BatchOutcomes.ClearFailedTakesFirst` | dj_queue/operations/cleanup.py:48-89 | the same for jobs that failed before the cutoff, with their failures |
| `BatchOutcomes.RetryFailedTakesFirst` | dj_queue/operations/jobs.py:172-219 | the first visible failed jobs of the backend among those asked for are dispatched again: their failures are gone, but for jobs without a usable policy, which have failed anew; other failures stay |
| `BatchOutcomes.PromoteRetriesTakesFirst` | dj_queue/operations/jobs.py:222-260 | the same for failed jobs whose retry date has come, by date and id |
| `BatchOutcomes.RetryOneOutcome` | dj_queue/operations/jobs.py:143-169 | exactly a failed job of the backend whose policy can be told is retried, and its failure alone is gone |
| `BatchOutcomes.ScheduleRetryOutcome` | dj_queue/operations/jobs.py:120-140 | exactly a failed job of the backend gets the retry date, and no other failure or table changes |
| `Submissions.EnqueueStores` | dj_queue/operations/enqueue.py:94-116 | exactly a new id is stored, with the backend, task path, queue, priority, date, key and policy of the submission; no other job changes |
| `Submissions.EnqueueBulkStores` | dj_queue/operations/enqueue.py:119-160 | exactly a batch of new and distinct ids is stored, each entry with its own submission; no other job changes |
| `RecoveryOutcomes.FailOrphanedTakesFirst` | dj_queue/operations/recovery.py:20-37 | exactly the first visible claims of the backend without a process fail, as many as fit the batch; other claims and failures stay |
| `RecoveryOutcomes.FailForProcessTakesAll` | dj_queue/operations/recovery.py:40-61 | all claims of the process fail and no other |
| `RecoveryOutcomes.PruneStaleOutcome` | dj_queue/operations/recovery.py:101-157 | only visible processes of the backend, not excluded, with a heartbeat before the cutoff are gone, the longest silent first; only their claims failed, and those left over have no process; unless the batch was used up all their claims failed and as many such processes as fit the batch are gone; other processes and claims stay |
| `RecoveryOutcomes.PromoteExpiredTakesFirst` | dj_queue/operations/concurrency.py:647-702 | the first visible expired blocked rows of the backend by date, priority and id are handled: failed without a policy, else ready or blocked for the policy's duration; every other job keeps its rows |
| `RecoveryOutcomes.CleanupOutcome` | dj_queue/operations/concurrency.py:614-644 | a semaphore row goes exactly if it was locked, has expired and no ready or claimed job has its key |
| `ReleaseOutcomes.ReleaseKeyOutcome` | dj_queue/operations/concurrency.py:422-529 | a released slot goes to the visible waiting job of the key with the highest priority and then the oldest row, exactly if there is one and the offered limit has room; the semaphore counts accordingly and nothing else changes |
| `ReleaseOutcomes.ReleaseGroupOutcome` | dj_queue/operations/concurrency.py:249-324 | slots released together go to the first waiting jobs, as many as were released and as the offered limit has room for |
| `ReleaseOutcomes.ReleaseSlotOutcome` | dj_queue/operations/concurrency.py:811-840 | the settings in force are the job's own policy, else its task's, else the stored limit and the default duration |
| `ReleaseOutcomes.NothingToConsume` | dj_queue/operations/concurrency.py:422-465 | after a release that handed nothing over, the second attempt to promote a waiting job finds no slot |
| `ReleaseOutcomes.ReleaseForgetsIff` | dj_queue/operations/concurrency.py:249-324 | exact counting is given up for the released key exactly if its slots in use do not go down by the slots released less those handed on |
| `ReleaseOutcomes.AcquireForgetsIff` | dj_queue/operations/concurrency.py:65-120 | and for an acquired key exactly if they do not go up by the slot taken |
| `ReleaseOutcomes.AcquireManyForgetsIff` | dj_queue/operations/concurrency.py:123-183 | the same for a batch of slots |
| `ReleaseOutcomes.LeftoverIff` | dj_queue/operations/concurrency.py:204-226 | the jobs of a recovery that are released one by one are those of exactly the keys whose jobs do not agree on their settings |
| `Runs.AttemptSound` | dj_queue/operations/_helpers.py:69-110 | every transaction from every valid database leaves a valid one, and none raises for a second state row or a row of another backend |
| `Runs.RunValid` | dj_queue/models/jobs.py:146-164 | validity over every run of transactions in any order, with rows locked elsewhere hidden arbitrarily |
| `Runs.EveryRunKeepsOneState` | dj_queue/models/jobs.py:81-93 | in every reachable state each job is in exactly one of ready, scheduled, claimed, blocked, failed, finished, and no row is without its job |
| `Runs.EveryRunCountsSlotsExactly` | dj_queue/operations/concurrency.py:65-368 | in every reachable state limit minus value is the number of ready or claimed jobs with the key, at most the limit, and a key without a row has none - unless a limit below the slots in use was offered since the row was last collected |
| `Runs.EveryRunIsConsistent` | dj_queue/operations/_helpers.py:77-110 | no transaction of any run is stopped by the conflict or ownership checks |
| `Conservation.StepConserves` | dj_queue/operations/jobs.py:263-309 | for every step: jobs come only from enqueues, go only by the deletes it names, keep backend, task, queue, priority, key and policy, and a finish is never taken back |
| `Conservation.NoJobIsLost` | dj_queue/models/jobs.py:45-62 | over every run without discards, retention and unpreserved completions no job is lost and finished jobs stay as they finished |
| `Status.StatusCountsStates` | dj_queue/models/jobs.py:81-108 | the status is invalid exactly for two or more states and missing exactly for none |
| `Status.InvalidExecutionState` | dj_queue/models/jobs.py:146-164 | the disjunction over pairs of relations and over the finish holds exactly for the jobs whose status is invalid |
| `Status.EveryRunReportsOneStatus` | dj_queue/models/jobs.py:81-93 | in every reachable state each job reports exactly the one state it is in |
| `Waiters.AcquireSteady` | dj_queue/operations/concurrency.py:65-120 | with one limit per key a slot is refused only when none is left |
| `Waiters.ReleaseKeySteady` | dj_queue/operations/concurrency.py:811-840 | a released slot goes to a waiting job, or there is none |
| `Waiters.ReleaseGroupSteady` | dj_queue/operations/concurrency.py:249-324 | a group release leaves a free slot only when no waiting job is left |
| `Waiters.CleanupSteady` | dj_queue/operations/concurrency.py:614-644 | a collected semaphore has no waiting jobs |
| `Draining.AttemptSteady` | dj_queue/operations/concurrency.py:422-529 | every transaction keeps every waiting job's key exhausted |
| `Draining.NoStrandedWaiter` | dj_queue/operations/concurrency.py:422-529 | in every state reachable with one backend, one limit per key and no blocked row locked, a blocked job's key has value 0 and as many holders as its limit, and no count is ever forgotten |
| `Draining.Drain` | benchmarks/scenarios/runtime.py:121-138 | claiming one job at a time and completing or failing it takes at most 3 blocked + 2 ready + claimed steps and ends with no ready, claimed or blocked job |
| `Stores.Store.UnblockNextBlockedJob` | dj_queue/operations/concurrency.py:422-529 | commits the specified handoff, restore or promotion, and its error; the transaction invariant is kept, with the slots and jobs it settles |
| `Stores.Store.ReleaseConcurrencySlot` | dj_queue/operations/concurrency.py:811-840 | commits the specified release of one slot; the transaction invariant is kept, with the slots and jobs it settles |
| `Stores.Store.ReleaseRecoveredGroup` | dj_queue/operations/concurrency.py:249-324 | commits the specified group release |
| `Stores.Store.ReleaseRecoveredSlots` | dj_queue/operations/concurrency.py:204-226 | the loop over the dictionary of groups releases what the specification releases and returns the same jobs left over |
| `Stores.Store.BuildDispatchRows` | dj_queue/operations/dispatch.py:62-85 | one pass that places direct entries and fills the dictionary, one pass over its groups: the specified bulk dispatch |
| `Stores.Store.DispatchJob` | dj_queue/operations/dispatch.py:146-199 | commits the specified single dispatch; the transaction invariant is kept, with the slots and jobs it settles |
| `Stores.Store.EnqueueJob` | dj_queue/operations/enqueue.py:55-91 | commits the specified enqueue or leaves the tables as they were; a valid database stays valid |
| `Stores.PrepareBatch` | dj_queue/operations/jobs.py:270-285 | collects the decided jobs and the undecidable ones in order |
| `Stores.Store.RedispatchJobs` | dj_queue/operations/jobs.py:263-309 | commits the specified redispatch, and its errors |
| `Stores.Store.PromoteScheduledJobs` | dj_queue/operations/jobs.py:41-79 | commits the specified promotion or rolls back; a valid database stays valid |
| `Stores.Store.RetryFailedJobs` | dj_queue/operations/jobs.py:172-219 | commits the specified retry or rolls back; a valid database stays valid |
| `Stores.Store.ClaimReadyJobs` | dj_queue/operations/claiming.py:79-170 | whichever plan selects, commits the specified claim or raises without effect; a valid database stays valid |
| `Stores.Store.CompleteClaimedJob` | dj_queue/operations/execution.py:101-139 | commits the specified completion or rolls back; a valid database stays valid |
| `Stores.Store.FailClaimedJob` | dj_queue/operations/execution.py:142-179 | commits the specified failure or rolls back; a valid database stays valid |
| `Stores.Store.DiscardStateJobs` | dj_queue/operations/jobs.py:363-424 | commits the specified discard or rolls back; a valid database stays valid |
| `Stores.Store.FailClaimedJobs` | dj_queue/operations/recovery.py:160-207 | commits the specified batch failure |
| `Stores.Store.PruneStaleProcesses` | dj_queue/operations/recovery.py:101-157 | the loop with its remaining count commits the specified pruning or rolls back; a valid database stays valid |
| `Stores.Store.LockExpiredSemaphores` | dj_queue/operations/concurrency.py:618-628 | the first visible expired rows by date and key, without duplicates, under any ordering of the keys |
| `Stores.Store.CleanupExpiredSemaphores` | dj_queue/operations/concurrency.py:614-644 | of those rows the loop collects exactly the ones without a ready or claimed job, and a valid database stays valid |
| `Stores.Store.ExpireBlockedRow` | dj_queue/operations/concurrency.py:669-701 | one expired row failed, renewed or promoted as specified; the transaction invariant is kept, with the slots and jobs it settles |
| `Stores.Store.PromoteExpiredBlockedJobs` | dj_queue/operations/concurrency.py:647-702 | the loop over expired rows commits what is specified or rolls back; a valid database stays valid |
| `Grouping.GroupBy` | dj_queue/operations/dispatch.py:67-70 | filling a dictionary of lists keeps each key's elements in order under keys in order of first occurrence |
| `Calendar.OrdinalInjective` | dj_queue/cron.py:1230-1243 | day numbers tell dates apart, so stepping day by day visits every date once |
| `Calendar.NextDayOrdinal` | dj_queue/cron.py:1228-1243 | one day forward |
| `Calendar.PreviousDayOrdinal` | dj_queue/cron.py:1228-1243 | one day back |
| `Calendar.FourHundredYears` | dj_queue/cron.py:8 | the calendar repeats every 400 years, which are 146097 days and whole weeks |
| `Calendar.EveryWeekday` | dj_queue/cron.py:1388-1389 | every day of every month falls on every weekday, in some leap year and in some common year |
| `Calendar.ReferenceMonday` | dj_queue/cron.py:19 | the reference day of the week count is a Monday with the day number used |
| `Calendar.MonthLengthsAre` | dj_queue/cron.py:244 | the twelve lengths of the months of a common and of a leap year, for every year |
| `Calendar.MonthEnds` | dj_queue/cron.py:1228-1243 | the day after the last of each month is the first of the next, and the day before the first is the last of the one before, for every year |
| `Calendar.MonthStartsAre` | dj_queue/cron.py:1228-1243 | day numbers of the days on both sides of each month end, in a common year and a leap year |
| `Cron.MatchingDayIffAllowed` | dj_queue/cron.py:226-250 | without `%`, some day matches if and only if the fields allow some day of some month, weekday aside |
| `Cron.AcceptedSchedulesMatch` | dj_queue/cron.py:1354-1372 | every schedule the parser accepts has a matching day, if it has no `%` and no `&` between two restricted day fields |
| `Cron.ConjunctionCanNeverMatch` | dj_queue/cron.py:1354-1372 | a schedule with `&` that the parser accepts and no day ever matches |
| `Cron.MatchesEvery400Years` | dj_queue/cron.py:226-250 | without `%`, matching repeats every 146097 days |
| `CronFields.CyclicValues` | dj_queue/cron.py:1197-1204 | every step-th value of a range that may wrap around, normalised |
| `CronFields.ExpandItem` | dj_queue/cron.py:965-989 | an item stands for exactly the values it selects, is refused exactly for a bound out of range, and is a wildcard exactly for the whole range in steps of one |
| `CronFields.ParseField` | dj_queue/cron.py:926-962 | a field has exactly the values its items select, and is a wildcard exactly when an item is the whole range; it is refused exactly for no items or a bound out of range |
| `CronFields.ParsedFieldsInRange` | dj_queue/cron.py:345-372 | a field parsed from minute, hour or month items is in the range that matching and searching assume, and a wildcard holds the whole range |
| `CronFields.ParseMonthDays` | dj_queue/cron.py:1033-1092 | days from the start and from the end of the month, steps to the last day, ranges across both; refused exactly for no items, a bound out of range, or a range from the end to the start; a wildcard drops the days from the end |
| `CronFields.ParseWeekdays` | dj_queue/cron.py:1095-1163 | the specifications are exactly those of the items, plain, with `#` or with `%`; refused exactly for no items, a weekday or occurrence out of range, or a divisor that is not positive |
| `CronFields.ParseSchedule` | dj_queue/cron.py:345-372 | the parser accepts exactly the readable fields whose restricted days of month exist in some selected month, and the schedule it makes of them is well formed and has the fields the items stand for |
| `CronFields.NeverMatchingIsParsed` | dj_queue/cron.py:345-372 | the items of `0 0 1& 1 1#2` are accepted and stand for the schedule that never matches |
| `CronFields.MidnightsAreParsed` | dj_queue/cron.py:345-372 | the items of `0 0 * * *` and of `0 0 1 * *` are accepted and stand for the daily and the monthly schedule |
| `Cron.SpecMeans` | dj_queue/cron.py:1375-1385 | a weekday specification is met on its weekday: on every one, on that of the n-th seven days from either end of the month, or in the weeks that lie the offset and some multiple of the divisor after the week of 31 December 2018 |
| `Cron.DateMeans` | dj_queue/cron.py:226-250 | a date matches when its month is asked for, and its number in the month or its weekday: either if both restrict it, both if they are joined by `&` |
| `Cron.HashMeans` | dj_queue/cron.py:1375-1379 | `#n` is the n-th of its weekday from the start of the month, `#-n` from its end |
| `Cron.ModuloWeeks` | dj_queue/cron.py:1382-1385 | `%` matches in whole weeks counted from the reference Monday |
| `Cron.PossibleMeans` | dj_queue/cron.py:1354-1372 | the parser's own check passes exactly if weekdays may stand in or some day of 2024 has one of the numbers in one of the months |
| `CronFields.FieldNumbers` | dj_queue/cron.py:345-372 | minutes to 59, hours to 24, months from 1 to 12, weekdays to 7, hour 24 for 0 and weekday 7 for Sunday |
| `CronFields.SteppedSingle` | dj_queue/cron.py:965-989 | a step after a single minute or month runs to the last one, after a weekday it does not |
| `CronFields.SteppedHour` | dj_queue/cron.py:965-989 | after an hour it runs to hour 24, which is midnight |
| `CronFields.SpelledOutRange` | dj_queue/cron.py:965-989 | a range that spells out a whole field is a wildcard, but not for weekdays |
| `CronFields.DayItemMeans` | dj_queue/cron.py:1033-1092 | the days of steps and ranges from the start of the month and from its end, and that only a range from the end to the start is refused |
| `CronFields.WeekdayItemsRead` | dj_queue/cron.py:1095-1163 | occurrences from one to five, from either end, and divisors of at least one are read as such |
| `CronSearch.SearchDay` | dj_queue/cron.py:1284-1314 | the nested loops with their skips find the nearest candidate of the day ahead of the base, or there is none |
| `CronSearch.FindRunForSchedule` | dj_queue/cron.py:1224-1245 | the nearest run in either direction, or none in the window; without `%`, one is found exactly when a matching day exists at all |
| `CronSearch.WindowSuffices` | dj_queue/cron.py:8 | the window of 400 times 366 days holds a run ahead of any base, if there is a matching day |
| `CronSearch.FindRun` | dj_queue/cron.py:1207-1221 | over several expressions: the nearest run of their union; without `%`, found exactly when some expression has a matching day |
| `CronSearch.NextRun` | dj_queue/cron.py:318-319 | the least run strictly after the base |
| `CronSearch.PreviousRun` | dj_queue/cron.py:322-323 | the greatest run strictly before the base |
| `CronSearch.LatestRun` | dj_queue/cron.py:326-327 | the greatest run at or before the base |
| `CronSearch.AnswersIffMatchingDay` | dj_queue/cron.py:1207-1245 | without `%` the search answers, from any time and in either direction, if and only if some expression has a matching day |
| `CronSearch.NextAfterLatestIsAfterNow` | dj_queue/operations/recurring.py:317-328 | no run lies between the latest one and now |
| `NaturalTimes.FirstGraded` | dj_queue/cron.py:739-741 | the first graded slot, or none |
| `NaturalTimes.MergeGraded` | dj_queue/cron.py:738-745 | the repeated search for a first graded slot yields what one pass from left to right yields, with one slot or none graded left |
| `NaturalTimes.MergedNames` | dj_queue/cron.py:738-745 | a merged list names an hour with a minute if and only if one of its times does, a time being an ungraded slot with the graded ones that follow it |
| `NaturalTimes.UntouchedIff` | dj_queue/cron.py:738-745 | merging leaves a list as it is if and only if it has at most one slot or every grade in it is absent or of the hours alone |
| `NaturalTimes.HourRangeDoesNotMerge` | dj_queue/cron.py:657-663 | a range of hours and a time: a grade is present, and the two slots stay as they are |
| `NaturalTimes.MinutesWithinHours` | dj_queue/cron.py:277-299 | a time followed by repeated minutes names the hours of the time, less the last of a range of whole hours, with those minutes |
| `NaturalTimes.NamesIff` | dj_queue/cron.py:267-275 | a slot names each of its hours with each of its minutes, a star standing for every value |
| `NaturalTimes.GroupByHours` | dj_queue/cron.py:747-755 | the groups name exactly the hour and minute pairs of the slots |
| `NaturalTimes.DetermineTimes` | dj_queue/cron.py:734-755 | the groups name exactly the pairs of the merged list, whatever its grades, and all times when there are no slots |
| `NaturalTimes.ConflateDecides` | dj_queue/cron.py:277-299 | of two slots' hours or minutes: the only one there is, then a range of whole hours less its last for repeated minutes, then the strong one, then the one that is not weak, else both, a star only beside a star |
| `NaturalTimes.MinuteTokens` | dj_queue/cron.py:965-989 | what all minutes, every n-th, a single one and a range name to the parser |
| `NaturalTimes.HourSteps` | dj_queue/cron.py:965-989 | every n hours names every n-th hour from midnight and no other |
| `NaturalTimes.HoursWrap` | dj_queue/cron.py:1197-1204 | the hours of a range through midnight and of hour 24, as the parser reads them |
| `NaturalTimes.ShortenedIsReadableIff` | dj_queue/cron.py:809-812 | a range of hours that gives up its last hour can be read by the parser if and only if it does not end at hour 0 |
| `NaturalTimes.RangeToMidnightIsUnreadable` | dj_queue/cron.py:809-812 | repeated minutes with a range to midnight: readable apart, merged into hours the parser refuses |
| `NaturalTimes.ParsedIsExpression` | dj_queue/cron.py:763-776 | what the parser makes of the phrase's other fields with a group's hours and minutes is the expression of that group |
| `NaturalTimes.ExpressionsRunWithPhrase` | dj_queue/cron.py:763-776 | the union of the expressions runs exactly when the phrase does, its hours and minutes read as the parser reads them |
| `NaturalTimes.NearestIsPhraseAnswer` | dj_queue/cron.py:1207-1221 | the nearest run over the expressions is the phrase's nearest time in either direction, and there is none exactly when the phrase has none in the window |
| `NaturalTimes.NoAnswerIffNeverRuns` | dj_queue/cron.py:1207-1221 | without `%`, the search is in vain if and only if the phrase has no time at all |
| `Recurring.TraceSound` | dj_queue/models/recurring.py:35-56 | in every reachable world reservations are unique for task and time, a reservation's job is null or the intended one, and an intended job does not exist before it is attached |
| `Recurring.AtMostOnceUnlessExposed` | dj_queue/operations/recurring.py:332-413 | a run is published at most once as long as, once published, it keeps its reservation or stays behind the cursor |
| `Recurring.AtMostOneJobPerRun` | dj_queue/operations/recurring.py:332-413 | for any interleaving of schedulers, clocks, crashes, retention and cascades: from a task's creation on, while its schedule is kept, each run is published at most once |
| `Recurring.KeptReservationsNeverExposed` | dj_queue/models/recurring.py:51-56 | without deletions the unique reservation alone keeps every run published at most once, whatever happens to schedules |
| `Recurring.CursorNeverMovesBack` | dj_queue/operations/recurring.py:519-530 | while the schedule is kept the cursor never moves backward |
| `Recurring.ReserveGuarded` | dj_queue/operations/recurring.py:367-413 | reserving keeps every reserved or published run of the task behind its cursor |
| `RecurringFiring.FiresAgainIffExposed` | dj_queue/operations/recurring.py:377-407 | a published run would be published again if and only if its reservation is gone, the cursor does not lie past it, and its definition can be enqueued |
| `RecurringFiring.EditedScheduleCanRefire` | dj_queue/operations/recurring.py:239-245 | for any two schedules that share a run: a run of steps with an edit from one to the other in which that run is published twice |
| `RecurringFiring.FiredTaskIsNotDue` | dj_queue/operations/recurring.py:317-328 | firing the latest run moves the cursor strictly past now |
| `RecurringFiring.CrashedReservationIsPublished` | dj_queue/operations/recurring.py:381-413 | a reservation left by a crash, its schedule still matching, is published under the id drawn for it if and only if its definition can be enqueued |
| `RecurringFiring.PollReachesIff` | dj_queue/operations/recurring.py:263-329 | a poll completes its first i attempts if and only if none of them needs a run its schedule lacks and none publishes a reservation whose definition cannot be enqueued |
| `RecurringFiring.PollReachesIffRunsExist` | dj_queue/operations/recurring.py:263-329 | when all definitions can be enqueued, a poll comes to an attempt if and only if no earlier one needs a run its schedule lacks |
| `RecurringFiring.PollCommits` | dj_queue/operations/recurring.py:332-344 | what was committed up to and including the attempt that raised stays committed, and nothing after it happens |
| `RecurringFiring.ReachedReservationIsPublished` | dj_queue/operations/recurring.py:263-329 | a poll publishes such a reservation, under the id drawn for it, if and only if it comes to it, whatever else it fires |
| `RecurringDue.AttemptedIff` | dj_queue/operations/recurring.py:300-328 | a poll attempts exactly the runs of the selected rows of selected tasks and the latest run of each selected task without a cursor or with one that has come, or notes that such a task has none |
| `RecurringDue.ReservedIff` | dj_queue/operations/recurring.py:367-413 | a reservation is issued exactly for a run of the schedule with another after it whose row is open, or that has no row and is not behind the cursor; then the cursor is past it |
| `RecurringDue.DueRunFires` | dj_queue/operations/recurring.py:332-413 | the latest run of a due task is published once, under the drawn id and with the task's definition, and the cursor lies past now |
| `RecurringDue.DueRunIsPublished` | dj_queue/operations/recurring.py:300-328 | with nothing reserved or published for it, the latest run of a due task is published once and the cursor moved past now if and only if the poll comes to it |
| `RecurringDue.PollFiresEveryDueTask` | dj_queue/operations/recurring.py:263-329 | a poll with room for all selected rows, whose tasks have their runs and can be enqueued, publishes the latest run of every due task of the backend once and moves its cursor past now |
| `RecurringDue.PollPublishesEveryReservation` | dj_queue/operations/recurring.py:263-329 | and every open reservation of a run its schedule still has, under the id drawn for it |
| `RecurringCron.PlainTasksCanFire` | dj_queue/operations/recurring.py:317-328 | tasks without `%` whose fields allow some day have all runs such a poll needs |
| `RecurringStore.PendingIsAttempted` | dj_queue/operations/recurring.py:290-307 | a pending reservation of a selected task is among the attempts |
| `RecurringStore.Scheduler.ReserveRecurringTask` | dj_queue/operations/recurring.py:367-413 | commits the specified reservation and keeps the invariant, or raises without effect when the schedule lacks the run at or before the time or the one after it |
| `RecurringStore.Scheduler.PublishReservedRecurringTask` | dj_queue/operations/recurring.py:347-364 | commits the specified publication, job and attachment together, and keeps the invariant, or raises without effect |
| `RecurringStore.Scheduler.AdvanceNextRunAt` | dj_queue/operations/recurring.py:519-530 | the cursor becomes the later of the old one and the next run; the rest of the task and all other tasks stay |
| `RecurringStore.Scheduler.FireDueRecurringTasks` | dj_queue/operations/recurring.py:263-329 | the poll's loops with their remaining count commit the first attempts the batch has room for, in order and up to the first that raises, keep the invariant, and end normally if and only if none of those raises |
| `RecurringCron.SearchHostIsLawful` | dj_queue/cron.py:318-327 | the search itself, for any parsed schedules, keeps the laws that firing relies on |
| `RecurringCron.PollReachesIffDaysAllowed` | dj_queue/operations/recurring.py:317-328 | when no stored task has a schedule with `%` and every definition can be enqueued, a poll comes to its i-th attempt if and only if the fields of every earlier attempt's schedule allow some day of some month |
| `RecurringCron.NeverMatchingEndsThePoll` | dj_queue/operations/recurring.py:317-328 | a task stored with `0 0 1& 1 1#2` stays due, and every poll that comes to it first ends there with nothing done |
| `RecurringCron.NeverMatchingHoldsUpReservation` | dj_queue/operations/recurring.py:300-328 | a crashed reservation of a daily task, among the attempts of a poll that comes to the never-matching task first, stays unpublished |
| `RecurringCron.DailyFirst` | dj_queue/operations/recurring.py:300-328 | the same reservation is published by a poll that comes to the daily task first |
| `RecurringCron.DailyThenMonthlyRefires` | dj_queue/operations/recurring.py:239-245 | under the cron search a midnight shared by `0 0 * * *` and `0 0 1 * *` is published twice when one is edited into the other |
| `RecurringSync.TaskTable.ApplyStaticRecurringTasks` | dj_queue/operations/recurring.py:96-169 | fails without effect exactly on a key scheduled dynamically; otherwise configured rows equal their definitions and keep their cursor exactly if the schedule is unchanged, obsolete static rows go, all others stay |
| `RecurringSync.SyncOutcome` | dj_queue/operations/recurring.py:96-169 | row by row: other backends and dynamic tasks stay, static ones no longer configured go, configured ones carry the definition and keep the cursor exactly with the schedule |
| `RecurringSync.SavedRow` | dj_queue/operations/recurring.py:222-248 | the step that saves a task writes that row and no other |
| `RecurringSync.TaskTable.ScheduleRecurringTask` | dj_queue/operations/recurring.py:200-249 | fails without effect exactly for a key that is configured or static; otherwise the row is dynamic with the definition, and keeps its cursor exactly with the schedule |
| `RecurringSync.TaskTable.UnscheduleRecurringTask` | dj_queue/operations/recurring.py:252-260 | deletes the row exactly if it is dynamic |
| `RecurringSync.SyncIsIdempotent` | dj_queue/operations/recurring.py:96-169 | syncing again cannot clash and changes nothing |
| `RecurringSync.StaticRowsAreConfigured` | dj_queue/operations/recurring.py:57-93 | the backend's static rows are then exactly the configured tasks |
| `QueueLatency.LatencyIsUnpausedWait` | dj_queue/operations/queues.py:28-66 | over any sequence of pauses, resumes, arrivals and clock ticks the latency of a row in an unpaused queue is the time it was ready while the queue was not paused |
| `QueueLatency.RepeatedPauseChangesNothing` | dj_queue/operations/queues.py:10-25 | pausing a paused queue again, however much later, changes nothing |
| `QueueLatency.Queues.ResumeQueue` | dj_queue/operations/queues.py:28-66 | the pause is gone and each row of the queue starts later by the part of the pause it was there for, whatever the time of resuming; all else stays |
| `QueueLatency.Queues.LatencySeconds` | dj_queue/reads/queues.py:143-165 | the reported latency is the longest unpaused wait in the queue, and absent exactly for a paused or empty queue |

## Left out

- Stores.Store.ReleaseRecoveredGroup: promotes row by row, where the code deletes all selected rows and then inserts all ready rows; the checks and the resulting tables are the same.
- Stores.Store.ClaimReadyJobs: moves row by row, where the code deletes all selected rows and then inserts all claims; queues paused between selection and locking are a parameter.
- RecurringStore.Scheduler.FireDueRecurringTasks: takes the rows of the poll's two queries as parameters, since databases disagree on where null dates sort; `RecurringDue` assumes only which rows they are, when the batch has room for all.
- CronSearch.FindRunForSchedule: with `%`, says nothing about a run beyond the window, since the period of `%` can exceed it.
- DispatchReorder.BulkIsSingleDispatchInOriginalOrder: equal up to row ids, which the two orders assign differently.
- LifecycleSafety.FailForProcessSound: reads the claims of the process and fails them in one transaction, where the code reads them before it opens one.
- QueueLatency.LatencyIsUnpausedWait: the resumptions in its sequences of steps are at the current time; for a time of resuming chosen by the caller only `QueueLatency.Queues.ResumeQueue` says what becomes of the rows.
- CronFields.ParseWeekdays: the order of the specifications, and repeated ones, which no decision reads.
- Clearing of a retried job's finish and return value: a failed job has neither.
- One counter gives the ids of all state tables; the order within each table is that of separate counters.
- The clock is read once in a transaction, where the code sometimes reads it twice.
- Return values, payloads, tracebacks, worker ids, timestamps that no decision reads, and logging.
- Daylight-saving folds and gaps of named time zones, and the limits of the datetime type.
- Tokenising of cron and natural-language text, names of months and weekdays, time zone parsing.
- Other natural-language slots than times of day, and in-place mutation of slot objects: slots are values in a list.
- The text of SQL statements, object-relational mapping, transient-error retries, notifications.
- Processes, threads, signals, heartbeats as such: only registration, pruning and orphaned claims enter the model.
- Admin pages, dashboards, metrics, health reports, configuration loading, migrations, commands.
