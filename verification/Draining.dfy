/**
 The steady setting over whole runs: no reachable state strands a waiter, and claiming jobs one by
 one and completing or failing them ends with no ready, claimed or blocked job left.
 */
module Draining {
  import opened Results
  import opened Semaphores
  import opened Ordering
  import opened Tables
  import opened Slots
  import opened SlotAccounting
  import opened Dispatch
  import opened Claiming
  import opened Lifecycle
  import opened LifecycleSafety
  import opened Runs
  import opened Waiters

  // ---------------------------------------------------------------- steady steps

  predicate ConfigFits(setup: Setup, cfg: Config, tasks: Tasks) {
    cfg.backend == setup.backend && tasks == setup.tasks
  }

  predicate SubmissionFits(setup: Setup, s: Submission) {
    s.contention.Some? ==> s.contention.value.1.limit == setup.limitOf(s.contention.value.0)
  }

  predicate ProducerFits(setup: Setup, step: ProducerStep) {
    match step
    case DoEnqueue(cfg, tasks, _, submission, _) => ConfigFits(setup, cfg, tasks) && SubmissionFits(setup, submission)
    case DoEnqueueBulk(cfg, tasks, items, _) =>
      ConfigFits(setup, cfg, tasks) && forall item :: item in items ==> SubmissionFits(setup, item.1)
    case DoDispatchNow(cfg, tasks, _, _, _) => ConfigFits(setup, cfg, tasks)
    case DoRetryFailed(cfg, tasks, _, _, _, _) => ConfigFits(setup, cfg, tasks)
    case DoRetryOne(cfg, tasks, _, _) => ConfigFits(setup, cfg, tasks)
    case DoDiscard(cfg, tasks, _, _, _, _, hidden, _) => ConfigFits(setup, cfg, tasks) && hidden == {}
    case _ => true
  }

  predicate WorkerFits(setup: Setup, step: WorkerStep) {
    match step
    case DoClaim(_, _, _, _, _, _) => true
    case DoComplete(cfg, tasks, _, hidden, _) => ConfigFits(setup, cfg, tasks) && hidden == {}
    case DoFail(cfg, tasks, _, hidden, _) => ConfigFits(setup, cfg, tasks) && hidden == {}
  }

  predicate DispatcherFits(setup: Setup, step: DispatcherStep) {
    match step
    case DoPromoteScheduled(cfg, tasks, _, _, _) => ConfigFits(setup, cfg, tasks)
    case DoPromoteRetries(cfg, tasks, _, _, _) => ConfigFits(setup, cfg, tasks)
    case DoPromoteExpired(cfg, tasks, _, _, _) => ConfigFits(setup, cfg, tasks)
    case _ => true
  }

  predicate SupervisorFits(setup: Setup, step: SupervisorStep) {
    match step
    case DoFailOrphaned(cfg, tasks, _, hidden, _) => ConfigFits(setup, cfg, tasks) && hidden == {}
    case DoFailForProcess(cfg, tasks, _, hidden, _) => ConfigFits(setup, cfg, tasks) && hidden == {}
    case DoPruneStale(cfg, tasks, _, _, _, _, hidden, _) => ConfigFits(setup, cfg, tasks) && hidden == {}
    case _ => true
  }

  /** One backend, one limit per key, and no blocked row locked while a slot is released. */
  predicate StepFits(setup: Setup, step: Step) {
    match step
    case Produce(producer) => ProducerFits(setup, producer)
    case Work(worker) => WorkerFits(setup, worker)
    case Maintain(dispatcher) => DispatcherFits(setup, dispatcher)
    case Supervise(supervisor) => SupervisorFits(setup, supervisor)
  }

  ghost predicate SteadyIfOk(r: Result<Db>, setup: Setup) {
    r.Ok? ==> Steady(r.value, setup)
  }

  lemma InsertSteady(db: Db, setup: Setup, cfg: Config, id: JobId, s: Submission)
    requires Steady(db, setup) && cfg.backend == setup.backend && SubmissionFits(setup, s)
    ensures Steady(InsertJob(db, id, NewJob(cfg, s)), setup)
  {
    var after := InsertJob(db, id, NewJob(cfg, s));
    forall j | j in after.jobs
      ensures JobFits(setup, after.jobs[j])
    {
      assert j != id ==> JobFits(setup, db.jobs[j]);
    }
  }

  lemma EnqueueSteady(db: Db, setup: Setup, cfg: Config, id: JobId, s: Submission, now: Time)
    requires Steady(db, setup) && cfg.backend == setup.backend && SubmissionFits(setup, s)
    ensures SteadyIfOk(Enqueue(db, cfg, setup.tasks, id, s, now), setup)
  {
    InsertSteady(db, setup, cfg, id, s);
    var job := NewJob(cfg, s);
    assert JobFits(setup, job);
    hide Steady, DispatchOne, SubmissionFits;
    if Decide(job, setup.tasks, now).Ok? {
      DecideFits(setup, id, job, now);
      DispatchOneSteady(InsertJob(db, id, job), setup, Ticket(id, Decide(job, setup.tasks, now).value), now);
    }
  }

  lemma {:induction false} InsertAllSteady(db: Db, setup: Setup, cfg: Config, items: seq<(JobId, Submission)>)
    requires Steady(db, setup) && cfg.backend == setup.backend
    requires forall item :: item in items ==> SubmissionFits(setup, item.1)
    ensures SteadyIfOk(InsertAll(db, cfg, items), setup)
    decreases |items|
  {
    hide Steady, SubmissionFits, InsertJob, NewJob;
    if items != [] {
      assert items[0] in items;
      InsertSteady(db, setup, cfg, items[0].0, items[0].1);
      InsertAllSteady(InsertJob(db, items[0].0, NewJob(cfg, items[0].1)), setup, cfg, items[1..]);
    }
  }

  lemma EnqueueBulkSteady(db: Db, setup: Setup, cfg: Config, items: seq<(JobId, Submission)>, now: Time)
    requires Steady(db, setup) && cfg.backend == setup.backend
    requires forall item :: item in items ==> SubmissionFits(setup, item.1)
    ensures SteadyIfOk(EnqueueBulk(db, cfg, setup.tasks, items, now), setup)
  {
    hide Steady, SubmissionFits, Bulk, Tickets, InsertAll, TicketFits;
    InsertAllSteady(db, setup, cfg, items);
    var inserted := InsertAll(db, cfg, items);
    if inserted.Ok? {
      var ids := seq(|items|, i requires 0 <= i < |items| => items[i].0);
      TicketsSteady(inserted.value, setup, ids, now);
      BulkSteady(inserted.value, setup, Tickets(inserted.value, setup.tasks, ids, now), now);
    }
  }

  lemma DispatchNowSteady(db: Db, setup: Setup, cfg: Config, id: JobId, hidden: set<JobId>, now: Time)
    requires Steady(db, setup) && cfg.backend == setup.backend
    ensures SteadyIfOk(DispatchNow(db, cfg, setup.tasks, id, hidden, now), setup)
  {
    if id in db.scheduled && id in db.jobs {
      var evicted := Evict(db, Scheduled, id);
      var job := evicted.jobs[id].(scheduledAt := None);
      var cleared := evicted.(jobs := evicted.jobs[id := job]);
      assert Quiet(db, cleared);
      QuietSteady(db, cleared, setup);
      assert JobFits(setup, cleared.jobs[id]);
      hide Steady, DispatchOne, Quiet, Live;
      if Decide(job, setup.tasks, now).Ok? {
        DecideFits(setup, id, job, now);
        DispatchOneSteady(cleared, setup, Ticket(id, Decide(job, setup.tasks, now).value), now);
      }
    }
  }

  lemma ScheduleRetrySteady(db: Db, setup: Setup, cfg: Config, id: JobId, at: Time)
    requires Steady(db, setup)
    ensures SteadyIfOk(ScheduleRetry(db, cfg, id, at), setup)
  {
    hide Steady;
    if id in FailedOf(db, cfg, {}) {
      QuietSteady(db, db.(failed := db.failed[id := db.failed[id].(retryAt := Some(at))]), setup);
    }
  }

  lemma ConsumeAndDeleteSteady(db: Db, setup: Setup, table: Table, ids: seq<JobId>)
    requires Steady(db, setup)
    ensures Steady(DeleteAll(EvictAll(db, table, ids), ids), setup)
  {
    hide Steady, EvictAll, DeleteAll, Quiet;
    var evicted := EvictAll(db, table, ids);
    EvictAllQuiet(db, table, ids);
    QuietSteady(db, evicted, setup);
    DeleteAllQuiet(evicted, ids);
    QuietSteady(evicted, DeleteAll(evicted, ids), setup);
  }

  lemma DiscardSteady(
    db: Db, setup: Setup, cfg: Config, table: Table, only: Option<set<JobId>>, within: Option<string>, batch: nat,
    now: Time)
    requires Steady(db, setup) && cfg.backend == setup.backend
    ensures SteadyIfOk(DiscardRows(db, cfg, setup.tasks, table, only, within, batch, {}, now), setup)
  {
    hide Steady, EvictAll, DeleteAll, ReleaseSlots, Live, DiscardIds, JobFits;
    var ids := DiscardIds(db, cfg, table, only, within, batch, {});
    if forall id :: id in ids ==> id in db.jobs && db.jobs[id].backend == cfg.backend {
      var deleted := DeleteAll(EvictAll(db, table, ids), ids);
      ConsumeAndDeleteSteady(db, setup, table, ids);
      assert SteadyIfOk(ReleaseSlots(deleted, cfg, setup.tasks, JobsOf(db, ids), {}, now), setup) by {
        JobsOfFit(db, setup, ids);
        ReleaseSlotsSteady(deleted, setup, cfg, JobsOf(db, ids), now);
      }
    }
  }

  lemma CompleteSteady(db: Db, setup: Setup, cfg: Config, id: JobId, now: Time)
    requires Steady(db, setup) && cfg.backend == setup.backend
    ensures SteadyIfOk(CompleteClaimed(db, cfg, setup.tasks, id, {}, now), setup)
  {
    if id in db.claimed && id in db.jobs {
      assert JobFits(setup, db.jobs[id]);
      hide Steady, ReleaseSlot, Live, JobFits;
      var evicted := Evict(db, Claimed, id);
      var done := if cfg.preserveFinished then SetFinished(evicted, id, Some(now)) else DeleteJob(evicted, id);
      assert Quiet(db, done);
      QuietSteady(db, done, setup);
      ReleaseSlotSteady(done, setup, cfg, db.jobs[id], now);
    }
  }

  lemma FailSteady(db: Db, setup: Setup, cfg: Config, id: JobId, now: Time)
    requires Steady(db, setup) && cfg.backend == setup.backend
    ensures SteadyIfOk(FailClaimed(db, cfg, setup.tasks, id, {}, now), setup)
  {
    if id in db.claimed && id in db.jobs {
      assert JobFits(setup, db.jobs[id]);
      hide Steady, ReleaseSlot, Live, JobFits;
      var failed := PutFailed(Evict(db, Claimed, id), id, now);
      assert Quiet(db, failed);
      QuietSteady(db, failed, setup);
      ReleaseSlotSteady(failed, setup, cfg, db.jobs[id], now);
    }
  }

  lemma ClaimSteady(
    db: Db, setup: Setup, cfg: Config, queues: Queues, limit: nat, process: Option<ProcessId>, hidden: set<JobId>,
    paused: set<string>)
    requires Steady(db, setup)
    ensures SteadyIfOk(Claim(db, cfg, queues, limit, process, hidden, paused), setup)
  {
    hide Steady, ClaimAll, Quiet, Selection, ClaimedIds;
    var ids := ClaimedIds(db, cfg, queues, limit, hidden, paused);
    ClaimAllQuiet(db, ids, process);
    QuietSteady(db, ClaimAll(db, ids, process), setup);
  }

  lemma PromoteExpiredSteady(db: Db, setup: Setup, cfg: Config, batch: nat, hidden: set<JobId>, now: Time)
    requires Valid(db) && Steady(db, setup) && cfg.backend == setup.backend
    ensures SteadyIfOk(PromoteExpired(db, cfg, setup.tasks, batch, hidden, now), setup)
  {
    hide Good, Batch, EvictAll, ExpireEach;
    var ids := Batch(ExpiredBlocked(db, cfg, hidden, now), BlockedColumns(db), batch);
    forall id | id in ids && id in db.blocked
      ensures db.blocked[id].backend == setup.backend && id in db.jobs && db.jobs[id].key == Some(db.blocked[id].key)
    {
      GoodBlocked(db, {}, multiset{}, id);
    }
    hide Steady, Quiet;
    EvictAllQuiet(db, Blocked, ids);
    EvictAllJobs(db, Blocked, ids);
    QuietSteady(db, EvictAll(db, Blocked, ids), setup);
    var consumed := cfg.family.Sqlite?;
    ExpireEachSteady(if consumed then EvictAll(db, Blocked, ids) else db, setup, ids, db.blocked, consumed, now);
  }

  lemma ClearFinishedSteady(
    db: Db, setup: Setup, cfg: Config, cutoff: Time, task: Option<string>, batch: nat, hidden: set<JobId>)
    requires Steady(db, setup)
    ensures SteadyIfOk(ClearFinished(db, cfg, cutoff, task, batch, hidden), setup)
  {
    hide Steady, Quiet, Batch, DeleteAll, Live;
    var aged := set id | id in db.jobs && id !in hidden && db.jobs[id].backend == cfg.backend
                         && db.jobs[id].finishedAt.Some? && db.jobs[id].finishedAt.value < cutoff
                         && (task.Some? ==> db.jobs[id].taskPath == task.value);
    var ids := Batch(aged, FinishedColumns(db), batch);
    DeleteAllQuiet(db, ids);
    QuietSteady(db, DeleteAll(db, ids), setup);
  }

  lemma ClearFailedSteady(
    db: Db, setup: Setup, cfg: Config, cutoff: Time, task: Option<string>, batch: nat, hidden: set<JobId>)
    requires Steady(db, setup)
    ensures SteadyIfOk(ClearFailed(db, cfg, cutoff, task, batch, hidden), setup)
  {
    hide Steady, Batch, DeleteAll, EvictAll, Live;
    var aged := set id | id in FailedOf(db, cfg, hidden) && db.failed[id].createdAt < cutoff
                         && (task.Some? ==> db.jobs[id].taskPath == task.value);
    ConsumeAndDeleteSteady(db, setup, Failed, Batch(aged, FailureColumns(db), batch));
  }

  lemma QuietConfiguration(a: Db, b: Db, setup: Setup)
    requires Steady(a, setup) && b == a.(processes := b.processes, pauses := b.pauses, claimed := b.claimed)
    ensures Steady(b, setup)
  {
  }

  lemma ProduceSteady(db: Db, setup: Setup, step: ProducerStep)
    requires Valid(db) && Steady(db, setup) && ProducerFits(setup, step)
    ensures SteadyIfOk(AttemptProduce(db, step), setup)
  {
    hide Valid, Steady, SubmissionFits, Redispatch, EvictAll, Batch;
    hide Enqueue, EnqueueBulk, DispatchNow, ScheduleRetry, DiscardRows;
    match step
    case DoEnqueue(cfg, tasks, id, submission, now) => EnqueueSteady(db, setup, cfg, id, submission, now);
    case DoEnqueueBulk(cfg, tasks, items, now) => EnqueueBulkSteady(db, setup, cfg, items, now);
    case DoDispatchNow(cfg, tasks, id, hidden, now) => DispatchNowSteady(db, setup, cfg, id, hidden, now);
    case DoRetryFailed(cfg, tasks, only, batch, hidden, now) =>
      var eligible := set id | id in FailedOf(db, cfg, hidden) && (only.Some? ==> id in only.value);
      ConsumeAndRedispatchSteady(db, setup, Failed, Batch(eligible, FailedColumns(db), batch), true, now);
    case DoRetryOne(cfg, tasks, id, now) =>
      assert EvictAll(db, Failed, [id]) == Evict(db, Failed, id) by {
        EvictAllOne(db, Failed, id);
      }
      ConsumeAndRedispatchSteady(db, setup, Failed, [id], false, now);
    case DoScheduleRetry(cfg, id, at) => ScheduleRetrySteady(db, setup, cfg, id, at);
    case DoDiscard(cfg, tasks, table, only, within, batch, hidden, now) =>
      DiscardSteady(db, setup, cfg, table, only, within, batch, now);
    case DoPause(backend, queue) => QuietConfiguration(db, db.(pauses := db.pauses + {(backend, queue)}), setup);
    case DoResume(backend, queue) => QuietConfiguration(db, db.(pauses := db.pauses - {(backend, queue)}), setup);
  }

  lemma WorkSteady(db: Db, setup: Setup, step: WorkerStep)
    requires Valid(db) && Steady(db, setup) && WorkerFits(setup, step)
    ensures SteadyIfOk(AttemptWork(db, step), setup)
  {
    hide Valid, Steady, Claim, CompleteClaimed, FailClaimed;
    match step
    case DoClaim(cfg, queues, limit, process, hidden, paused) =>
      ClaimSteady(db, setup, cfg, queues, limit, process, hidden, paused);
    case DoComplete(cfg, tasks, id, hidden, now) => CompleteSteady(db, setup, cfg, id, now);
    case DoFail(cfg, tasks, id, hidden, now) => FailSteady(db, setup, cfg, id, now);
  }

  lemma MaintainSteady(db: Db, setup: Setup, step: DispatcherStep)
    requires Valid(db) && Steady(db, setup) && DispatcherFits(setup, step)
    ensures SteadyIfOk(AttemptMaintain(db, step), setup)
  {
    hide Valid, Steady, Redispatch, EvictAll, Batch, PromoteExpired, CleanupSemaphores, ClearFinished, ClearFailed;
    match step
    case DoPromoteScheduled(cfg, tasks, batch, hidden, now) =>
      ConsumeAndRedispatchSteady(
        db, setup, Scheduled, Batch(DueScheduled(db, cfg, hidden, now), ScheduledColumns(db), batch), true, now);
    case DoPromoteRetries(cfg, tasks, batch, hidden, now) =>
      var due := set id | id in FailedOf(db, cfg, hidden) && db.failed[id].retryAt.Some? && db.failed[id].retryAt.value <= now;
      ConsumeAndRedispatchSteady(db, setup, Failed, Batch(due, RetryColumns(db), batch), true, now);
    case DoPromoteExpired(cfg, tasks, batch, hidden, now) => PromoteExpiredSteady(db, setup, cfg, batch, hidden, now);
    case DoCleanupSemaphores(locked, now) => CleanupSteady(db, setup, locked, now);
    case DoClearFinished(cfg, cutoff, task, batch, hidden) =>
      ClearFinishedSteady(db, setup, cfg, cutoff, task, batch, hidden);
    case DoClearFailed(cfg, cutoff, task, batch, hidden) => ClearFailedSteady(db, setup, cfg, cutoff, task, batch, hidden);
  }

  lemma SuperviseSteady(db: Db, setup: Setup, step: SupervisorStep)
    requires Valid(db) && Steady(db, setup) && SupervisorFits(setup, step)
    ensures SteadyIfOk(AttemptSupervise(db, step), setup)
  {
    hide Valid, Steady, FailClaimedBatch, Batch, PruneEach;
    match step
    case DoRegister(process, row) => QuietConfiguration(db, db.(processes := db.processes[process := row]), setup);
    case DoUnregister(process) => QuietConfiguration(db, DeleteProcess(db, process), setup);
    case DoFailOrphaned(cfg, tasks, batch, hidden, now) =>
      var orphans := set id | id in db.claimed && id !in hidden && db.claimed[id].process.None?
                              && id in db.jobs && db.jobs[id].backend == cfg.backend;
      FailClaimedBatchSteady(db, setup, cfg, Batch(orphans, ClaimedColumns(db), batch), now);
    case DoFailForProcess(cfg, tasks, process, hidden, now) =>
      var claims := ClaimsOf(db, process);
      FailClaimedBatchSteady(db, setup, cfg, Batch(claims, ClaimedColumns(db), |claims|), now);
    case DoPruneStale(cfg, tasks, cutoff, exclude, batch, hiddenProcesses, hidden, now) =>
      var stale := set p | p in db.processes && p !in hiddenProcesses && Some(p) != exclude && Stale(db, cfg, p, cutoff);
      PruneEachSteady(db, setup, cfg, Batch(stale, StaleColumns(db), batch), cutoff, batch, now);
  }

  lemma AttemptSteady(db: Db, setup: Setup, step: Step)
    requires Valid(db) && Steady(db, setup) && StepFits(setup, step)
    ensures SteadyIfOk(Attempt(db, step), setup)
  {
    hide Valid, Steady, AttemptProduce, AttemptWork, AttemptMaintain, AttemptSupervise;
    match step
    case Produce(producer) => ProduceSteady(db, setup, producer);
    case Work(worker) => WorkSteady(db, setup, worker);
    case Maintain(dispatcher) => MaintainSteady(db, setup, dispatcher);
    case Supervise(supervisor) => SuperviseSteady(db, setup, supervisor);
  }

  lemma {:induction false} RunSteady(db: Db, setup: Setup, steps: seq<Step>)
    requires Valid(db) && Steady(db, setup) && forall step :: step in steps ==> StepFits(setup, step)
    ensures Valid(Run(db, steps)) && Steady(Run(db, steps), setup)
    decreases |steps|
  {
    hide Valid, Steady, Attempt, StepFits;
    if steps != [] {
      assert steps[0] in steps;
      AttemptSound(db, steps[0]);
      AttemptSteady(db, setup, steps[0]);
      RunSteady(After(db, steps[0]), setup, steps[1..]);
    }
  }

  // ---------------------------------------------------------------- no stranded waiter

  /** While a job waits, as many jobs hold slots of its key as the key has. */
  lemma WaiterHasHolders(db: Db, setup: Setup, id: JobId)
    requires Valid(db) && Steady(db, setup) && id in db.blocked
    ensures var key := db.blocked[id].key;
            Exhausted(db, key) && |Holders(db, key)| == setup.limitOf(key)
  {
    var key := db.blocked[id].key;
    assert Exhausted(db, key) && SemaphoreFits(setup, key, db.semaphores[key]);
    GoodSemaphore(db, {}, multiset{}, key);
  }

  /** In every state reachable in the steady setting a job waits only while all slots of its key are held. */
  lemma NoStrandedWaiter(setup: Setup, steps: seq<Step>, id: JobId)
    requires forall step :: step in steps ==> StepFits(setup, step)
    ensures var db := Run(EmptyDb, steps);
            db.forgotten == {}
            && (id in db.blocked ==>
                 var key := db.blocked[id].key;
                 && key in db.semaphores && db.semaphores[key].value == 0
                 && |Holders(db, key)| == setup.limitOf(key))
  {
    EmptyValid();
    hide Good, StepFits, Run;
    RunSteady(EmptyDb, setup, steps);
    var db := Run(EmptyDb, steps);
    if id in db.blocked {
      WaiterHasHolders(db, setup, id);
    }
  }

  // ---------------------------------------------------------------- draining

  /** What is still to be done: a blocked job has to become ready, then claimed, then leave. */
  function Remaining(db: Db): nat {
    3 * |db.blocked.Keys| + 2 * |db.ready.Keys| + |db.claimed.Keys|
  }

  lemma SomeMember(ids: set<JobId>)
    ensures ids == {} || exists id :: id in ids
  {
    assert (forall id :: id !in ids) ==> ids == {};
  }

  lemma Counts(ids: set<JobId>, id: JobId)
    ensures |ids + {id}| <= |ids| + 1
    ensures id in ids ==> |ids - {id}| == |ids| - 1
  {
  }

  lemma PromoteShape(db: Db, backend: string, id: JobId)
    requires id in db.blocked && Promote(db, backend, id).Ok?
    ensures var after := Promote(db, backend, id).value;
            && after.ready.Keys == db.ready.Keys + {id} && after.claimed.Keys == db.claimed.Keys
            && after.blocked.Keys == db.blocked.Keys - {id} && after.pauses == db.pauses
  {
    hide Live;
  }

  lemma PromoteRemaining(db: Db, backend: string, id: JobId)
    requires id in db.blocked && Promote(db, backend, id).Ok?
    ensures Remaining(Promote(db, backend, id).value) <= Remaining(db)
    ensures Promote(db, backend, id).value.pauses == db.pauses
  {
    hide Promote;
    PromoteShape(db, backend, id);
    Counts(db.ready.Keys, id);
    Counts(db.blocked.Keys, id);
  }

  lemma RestoreRemaining(db: Db, id: JobId)
    requires id in db.blocked && Restore(db, id).Ok?
    ensures Remaining(Restore(db, id).value) == Remaining(db)
    ensures Restore(db, id).value.pauses == db.pauses
  {
    assert Restore(db, id).value.blocked.Keys == db.blocked.Keys;
  }

  lemma UnblockNextRemaining(
    db: Db, cfg: Config, key: string, limit: Positive, duration: int, mode: HandoffMode, hidden: set<JobId>, now: Time)
    ensures var r := UnblockNext(db, cfg, key, limit, duration, mode, hidden, now);
            r.Ok? ==> Remaining(r.value.0) <= Remaining(db) && r.value.0.pauses == db.pauses
  {
    hide Promote, Restore, Remaining;
    var waiting := Waiting(db, cfg.backend, key, hidden);
    if waiting != {} {
      var id := Least(waiting).job;
      WaitingJob(db, cfg.backend, key, hidden, Least(waiting));
      hide Waiting;
      var (taken, acquired) := TakeForBlocked(db, key, limit, duration, mode, now);
      assert Remaining(taken) == Remaining(db) by {
        TakeRemaining(db, taken);
      }
      if acquired && Promote(taken, cfg.backend, id).Ok? {
        PromoteRemaining(taken, cfg.backend, id);
      } else if !acquired && Restore(taken, id).Ok? {
        RestoreRemaining(taken, id);
      }
    }
  }

  lemma TakeRemaining(a: Db, b: Db)
    requires a.blocked == b.blocked && a.ready == b.ready && a.claimed == b.claimed
    ensures Remaining(a) == Remaining(b)
  {
  }

  lemma ReleaseSlotRemaining(db: Db, cfg: Config, tasks: Tasks, job: Job, hidden: set<JobId>, now: Time)
    ensures var r := ReleaseSlot(db, cfg, tasks, job, hidden, now);
            r.Ok? ==> Remaining(r.value) <= Remaining(db) && r.value.pauses == db.pauses
  {
    hide UnblockNext, Remaining;
    match job.key
    case None =>
    case Some(key) =>
      var (limit, duration) := ReleaseSettings(db, cfg, tasks, job, key);
      UnblockNextRemaining(db, cfg, key, limit, duration, ReleaseClaimed, hidden, now);
      var first := UnblockNext(db, cfg, key, limit, duration, ReleaseClaimed, hidden, now);
      if first.Ok? && !first.value.1 {
        var released := ReleaseSemaphore(first.value.0, key, limit, duration, now);
        TakeRemaining(first.value.0, released);
        UnblockNextRemaining(released, cfg, key, limit, duration, ConsumeFreed, hidden, now);
      }
  }

  /** One claim or one finished claim leaves less to do, and leaves the setting as it was. */
  ghost predicate Progress(db: Db, setup: Setup, step: WorkerStep) {
    var r := AttemptWork(db, step);
    && r.Ok? && Valid(r.value) && Steady(r.value, setup) && r.value.pauses == db.pauses
    && Remaining(r.value) < Remaining(db)
  }

  /** A claim leaves, and its slot is released or handed over. */
  lemma ReleaseProgress(db: Db, left: Db, cfg: Config, tasks: Tasks, id: JobId, now: Time)
    requires id in db.claimed && id in db.jobs
    requires left.claimed.Keys == db.claimed.Keys - {id} && left.ready == db.ready && left.blocked == db.blocked
    requires left.pauses == db.pauses
    ensures var r := ReleaseSlot(left, cfg, tasks, db.jobs[id], {}, now);
            r.Ok? ==> Remaining(r.value) < Remaining(db) && r.value.pauses == db.pauses
  {
    hide ReleaseSlot;
    ReleaseSlotRemaining(left, cfg, tasks, db.jobs[id], {}, now);
    Counts(db.claimed.Keys, id);
  }

  lemma CompleteProgress(db: Db, setup: Setup, cfg: Config, id: JobId, now: Time)
    requires Valid(db) && Steady(db, setup) && cfg.backend == setup.backend && id in db.claimed
    ensures Progress(db, setup, DoComplete(cfg, setup.tasks, id, {}, now))
  {
    GoodRow(db, {}, multiset{}, Claimed, id);
    assert JobFits(setup, db.jobs[id]);
    hide Valid, Steady, ReleaseSlot, JobFits, Live, Remaining;
    CompleteSound(db, cfg, setup.tasks, id, {}, now);
    CompleteSteady(db, setup, cfg, id, now);
    var evicted := Evict(db, Claimed, id);
    var done := if cfg.preserveFinished then SetFinished(evicted, id, Some(now)) else DeleteJob(evicted, id);
    ReleaseProgress(db, done, cfg, setup.tasks, id, now);
  }

  lemma FailShape(db: Db, id: JobId, now: Time)
    ensures var failed := PutFailed(Evict(db, Claimed, id), id, now);
            && failed.claimed.Keys == db.claimed.Keys - {id} && failed.ready == db.ready
            && failed.blocked == db.blocked && failed.pauses == db.pauses
  {
  }

  lemma FailProgress(db: Db, setup: Setup, cfg: Config, id: JobId, now: Time)
    requires Valid(db) && Steady(db, setup) && cfg.backend == setup.backend && id in db.claimed
    ensures Progress(db, setup, DoFail(cfg, setup.tasks, id, {}, now))
  {
    GoodRow(db, {}, multiset{}, Claimed, id);
    assert JobFits(setup, db.jobs[id]);
    hide Valid, Steady, ReleaseSlot, JobFits, Live, Remaining, PutFailed, Evict;
    FailSound(db, cfg, setup.tasks, id, {}, now);
    FailSteady(db, setup, cfg, id, now);
    FailShape(db, id, now);
    ReleaseProgress(db, PutFailed(Evict(db, Claimed, id), id, now), cfg, setup.tasks, id, now);
  }

  lemma ReadyIsVisible(db: Db, setup: Setup, cfg: Config, id: JobId)
    requires Valid(db) && Steady(db, setup) && cfg.backend == setup.backend && db.pauses == {} && id in db.ready
    ensures id in Matching(db.ready, SelectorsOf(AllQueues), Visible(db, cfg, {}))
  {
    GoodRow(db, {}, multiset{}, Ready, id);
    GoodReady(db, {}, multiset{}, id);
    assert JobFits(setup, db.jobs[id]);
  }

  /** When some job is ready and nothing is paused or locked, one claim takes exactly one job. */
  lemma OneIsClaimed(db: Db, setup: Setup, cfg: Config)
    requires Valid(db) && Steady(db, setup) && cfg.backend == setup.backend && db.pauses == {} && db.ready.Keys != {}
    ensures var ids := ClaimedIds(db, cfg, AllQueues, 1, {}, {});
            |ids| == 1 && ids[0] in db.ready
  {
    hide Good, Steady, Query, Visible, Matching;
    var (visible, selectors) := (Visible(db, cfg, {}), SelectorsOf(AllQueues));
    SomeMember(db.ready.Keys);
    var id :| id in db.ready.Keys;
    ReadyIsVisible(db, setup, cfg, id);
    QueryMembers(db.ready, RankBy(db.ready, selectors), Matching(db.ready, selectors, visible), 1);
    var rows := Selection(db.ready, selectors, visible, 1);
    assert |rows| == 1 && rows[0] in rows;
  }

  lemma ClaimShape(db: Db, id: JobId)
    requires id in db.ready
    ensures var after := ClaimAll(db, [id], None);
            && after.ready.Keys == db.ready.Keys - {id} && after.claimed.Keys == db.claimed.Keys + {id}
            && after.blocked.Keys == db.blocked.Keys && after.pauses == db.pauses
  {
    var after := PutClaimed(Evict(db, Ready, id), id, None);
    assert ClaimAll(after, [], None) == after;
  }

  lemma ClaimOne(db: Db, id: JobId)
    requires id in db.ready
    ensures var after := ClaimAll(db, [id], None);
            Remaining(after) < Remaining(db) && after.pauses == db.pauses
  {
    hide ClaimAll;
    ClaimShape(db, id);
    Counts(db.ready.Keys, id);
    Counts(db.claimed.Keys, id);
  }

  lemma ClaimProgress(db: Db, setup: Setup, cfg: Config)
    requires Valid(db) && Steady(db, setup) && cfg.backend == setup.backend && db.pauses == {} && db.ready.Keys != {}
    ensures Progress(db, setup, DoClaim(cfg, AllQueues, 1, None, {}, {}))
  {
    hide Valid, Steady, ClaimedIds, Selection, Live, ClaimAll, Remaining;
    OneIsClaimed(db, setup, cfg);
    ClaimSound(db, cfg, AllQueues, 1, None, {}, {});
    ClaimSteady(db, setup, cfg, AllQueues, 1, None, {}, {});
    var ids := ClaimedIds(db, cfg, AllQueues, 1, {}, {});
    assert ids == [ids[0]];
    ClaimOne(db, ids[0]);
  }

  /** Nothing is left that a worker could finish. */
  predicate Drained(db: Db) {
    db.ready.Keys == {} && db.claimed.Keys == {} && db.blocked.Keys == {}
  }

  /**
   Jobs claimed one at a time and completed or failed, as `completes` tells, until neither a ready
   nor a claimed job is left: then no blocked job is left either.
   */
  method Drain(db: Db, ghost setup: Setup, cfg: Config, tasks: Tasks, completes: JobId -> bool, now: Time)
    returns (after: Db, steps: seq<Step>)
    requires Valid(db) && Steady(db, setup) && ConfigFits(setup, cfg, tasks) && db.pauses == {}
    ensures Drained(after)
    ensures after == Run(db, steps) && |steps| <= Remaining(db)
    ensures forall step :: step in steps ==> step.Work? && StepFits(setup, step)
    ensures Valid(after) && Steady(after, setup)
  {
    hide Valid, Steady, Remaining, AttemptWork, Run;
    after, steps := db, [];
    assert Run(db, []) == db by {
      RunNothing(db);
    }
    while after.claimed.Keys != {} || after.ready.Keys != {}
      invariant Valid(after) && Steady(after, setup) && after.pauses == {}
      invariant after == Run(db, steps) && |steps| + Remaining(after) <= Remaining(db)
      invariant forall step :: step in steps ==> step.Work? && StepFits(setup, step)
      decreases Remaining(after)
    {
      var step: WorkerStep;
      if after.claimed.Keys != {} {
        SomeMember(after.claimed.Keys);
        var id :| id in after.claimed.Keys;
        if completes(id) {
          step := DoComplete(cfg, tasks, id, {}, now);
          CompleteProgress(after, setup, cfg, id, now);
        } else {
          step := DoFail(cfg, tasks, id, {}, now);
          FailProgress(after, setup, cfg, id, now);
        }
      } else {
        step := DoClaim(cfg, AllQueues, 1, None, {}, {});
        ClaimProgress(after, setup, cfg);
      }
      RunMore(db, steps, Work(step));
      after, steps := AttemptWork(after, step).value, steps + [Work(step)];
    }
    NothingWaits(after, setup);
  }

  lemma RunNothing(db: Db)
    ensures Run(db, []) == db
  {
  }

  lemma {:induction false} RunMore(db: Db, steps: seq<Step>, step: Step)
    ensures Run(db, steps + [step]) == After(Run(db, steps), step)
    decreases |steps|
  {
    hide Attempt;
    if steps == [] {
      assert steps + [step] == [step];
      assert Run(After(db, step), []) == After(db, step);
    } else {
      assert (steps + [step])[1..] == steps[1..] + [step];
      RunMore(After(db, steps[0]), steps[1..], step);
    }
  }

  lemma NothingWaits(db: Db, setup: Setup)
    requires Valid(db) && Steady(db, setup) && db.ready.Keys == {} && db.claimed.Keys == {}
    ensures db.blocked.Keys == {}
  {
    hide Valid, Steady;
    forall key
      ensures Holders(db, key) == {}
    {
    }
    forall id | id in db.blocked
      ensures |Holders(db, db.blocked[id].key)| >= 1
    {
      WaiterHasHolders(db, setup, id);
    }
  }
}
