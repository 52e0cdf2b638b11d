/**
 Conservation of jobs: who may create one, who may delete one, and what no step ever changes about
 one. A finished job is never touched again until it is deleted.
 */
module Conservation {
  import opened Results
  import opened Semaphores
  import opened Ordering
  import opened Tables
  import opened Slots
  import opened SlotAccounting
  import opened Dispatch
  import opened Claiming
  import opened Grouping
  import opened Lifecycle
  import opened LifecycleSafety
  import opened Outcomes
  import opened Runs

  /** All that a step may change about a job is its date and its finish. */
  predicate SameOrder(a: Job, b: Job) {
    b.(scheduledAt := a.scheduledAt, finishedAt := a.finishedAt) == a
  }

  /** The same jobs, none changed but for the finish of the jobs in `finishing`. */
  ghost predicate Kept(a: Db, b: Db, finishing: set<JobId>) {
    && b.jobs.Keys == a.jobs.Keys
    && (forall id :: id in a.jobs ==> b.jobs[id].(finishedAt := a.jobs[id].finishedAt) == a.jobs[id])
    && (forall id :: id in a.jobs && id !in finishing ==> b.jobs[id].finishedAt == a.jobs[id].finishedAt)
  }

  lemma KeptTransitive(a: Db, b: Db, c: Db, first: set<JobId>, second: set<JobId>)
    requires Kept(a, b, first) && Kept(b, c, second)
    ensures Kept(a, c, first + second)
  {
  }

  // ---------------------------------------------------------------- what keeps the jobs table as it is

  lemma {:induction false} FailAllJobs(db: Db, ids: seq<JobId>, now: Time)
    ensures FailAll(db, ids, now).jobs == db.jobs
    decreases |ids|
  {
    if ids != [] {
      FailAllJobs(PutFailed(db, ids[0], now), ids[1..], now);
    }
  }

  lemma {:induction false} PruneEachJobs(
    db: Db, cfg: Config, tasks: Tasks, processes: seq<ProcessId>, cutoff: Time, remaining: nat, hidden: set<JobId>,
    now: Time)
    ensures var r := PruneEach(db, cfg, tasks, processes, cutoff, remaining, hidden, now);
            r.Ok? ==> r.value.jobs == db.jobs
    decreases |processes|
  {
    hide FailClaimedBatch, Batch, Stale;
    if processes != [] {
      if !Stale(db, cfg, processes[0], cutoff) {
        PruneEachJobs(db, cfg, tasks, processes[1..], cutoff, remaining, hidden, now);
      } else {
        var ids := Batch(ClaimsOf(db, processes[0]), ClaimedColumns(db), remaining);
        var deleted := DeleteProcess(db, processes[0]);
        var pruned := FailClaimedBatch(deleted, cfg, tasks, ids, hidden, now);
        if pruned.Ok? {
          FailClaimedBatchOutcome(deleted, cfg, tasks, ids, hidden, now);
        }
        hide OnlyPromotes;
        if pruned.Ok? && |ids| < remaining {
          PruneEachJobs(pruned.value, cfg, tasks, processes[1..], cutoff, remaining - |ids|, hidden, now);
        }
      }
    }
  }

  lemma ExpireOneJobs(db: Db, tasks: Tasks, id: JobId, row: BlockedRow, consumed: bool, now: Time)
    ensures var r := ExpireOne(db, tasks, id, row, consumed, now);
            r.Ok? ==> r.value.jobs == db.jobs
  {
    hide Live, AcquireSlot, Settings;
    if id in db.jobs && Settings(db.jobs[id], tasks).Ok? {
      var p := Settings(db.jobs[id], tasks).value;
      AcquireSlotFrame(db, row.key, p.limit, p.duration, now);
      var (taken, acquired) := AcquireSlot(db, row.key, p.limit, p.duration, now);
      if acquired {
      } else if consumed {
      } else {
      }
    }
  }

  lemma AcquireSlotFrame(db: Db, key: string, limit: Positive, duration: int, now: Time)
    ensures var after := AcquireSlot(db, key, limit, duration, now).0;
            after.jobs == db.jobs && after.blocked == db.blocked
  {
  }

  lemma {:induction false} ExpireEachJobs(
    db: Db, tasks: Tasks, ids: seq<JobId>, rows: map<JobId, BlockedRow>, consumed: bool, now: Time)
    ensures var r := ExpireEach(db, tasks, ids, rows, consumed, now);
            r.Ok? ==> r.value.jobs == db.jobs
    decreases |ids|
  {
    hide ExpireOne;
    if ids != [] && ids[0] in rows {
      ExpireOneJobs(db, tasks, ids[0], rows[ids[0]], consumed, now);
      var first := ExpireOne(db, tasks, ids[0], rows[ids[0]], consumed, now);
      if first.Ok? {
        ExpireEachJobs(first.value, tasks, ids[1..], rows, consumed, now);
      }
    }
  }

  // ---------------------------------------------------------------- dispatch

  lemma PlaceKept(db: Db, t: Ticket, acquired: bool, now: Time)
    ensures Kept(db, Place(db, t, acquired, now), {t.id})
  {
    hide Kept;
    if t.id in db.jobs {
      PlaceAsKept(db, t.id, db.jobs[t.id], OutcomeOf(t.decision, acquired), now);
    } else {
      assert Kept(db, db, {t.id}) by {
        KeptSame(db, db, {t.id});
      }
    }
  }

  lemma KeptSame(a: Db, b: Db, finishing: set<JobId>)
    requires a.jobs == b.jobs
    ensures Kept(a, b, finishing)
  {
  }

  lemma PlaceAsKept(db: Db, id: JobId, job: Job, outcome: Outcome, now: Time)
    requires id in db.jobs
    ensures Kept(db, PlaceAs(db, id, job, outcome, now), {id})
  {
    match outcome
    case ToDiscard =>
    case ToReady => hide Kept; KeptSame(db, PlaceAs(db, id, job, outcome, now), {id});
    case ToScheduled => hide Kept; KeptSame(db, PlaceAs(db, id, job, outcome, now), {id});
    case ToBlocked(_, _) => hide Kept; KeptSame(db, PlaceAs(db, id, job, outcome, now), {id});
  }

  lemma DispatchOneKept(db: Db, t: Ticket, now: Time)
    ensures Kept(db, DispatchOne(db, t, now), {t.id})
  {
    hide Place, AcquireSlot;
    match t.decision
    case Contend(key, policy) =>
      var (after, acquired) := AcquireSlot(db, key, policy.limit, policy.duration, now);
      AcquireSlotFrame(db, key, policy.limit, policy.duration, now);
      PlaceKept(after, t, acquired, now);
    case _ => PlaceKept(db, t, true, now);
  }

  lemma {:induction false} DispatchAllKept(db: Db, ts: seq<Ticket>, now: Time)
    ensures Kept(db, DispatchAll(db, ts, now), Ids(ts))
    decreases |ts|
  {
    if ts != [] {
      hide DispatchOne;
      DispatchOneKept(db, ts[0], now);
      var first := DispatchOne(db, ts[0], now);
      DispatchAllKept(first, ts[1..], now);
      hide Kept;
      KeptTransitive(db, first, DispatchAll(first, ts[1..], now), {ts[0].id}, Ids(ts[1..]));
      assert {ts[0].id} + Ids(ts[1..]) == Ids(ts) by {
        assert forall t :: t in ts <==> t == ts[0] || t in ts[1..];
      }
    }
  }

  lemma BulkKept(db: Db, ts: seq<Ticket>, now: Time)
    ensures Kept(db, Bulk(db, ts, now), Ids(ts))
  {
    hide Kept, Bulk, DispatchAll;
    BulkIsSingleDispatchInGroupOrder(db, ts, now);
    WhereSplits(ts, Direct, Contends);
    var order := DispatchOrder(ts);
    DispatchAllKept(db, order, now);
    assert Ids(order) == Ids(ts) by {
      assert forall t :: t in order <==> t in multiset(order);
      assert forall t :: t in ts <==> t in multiset(ts);
    }
  }

  lemma {:induction false} TicketIds(db: Db, tasks: Tasks, ids: seq<JobId>, now: Time)
    ensures Ids(Tickets(db, tasks, ids, now)) <= Members(ids)
    decreases |ids|
  {
    if ids != [] {
      TicketIds(db, tasks, ids[1..], now);
      var (all, rest) := (Tickets(db, tasks, ids, now), Tickets(db, tasks, ids[1..], now));
      assert forall t :: t in all ==> t in rest || t.id == ids[0];
      assert forall t :: t in rest ==> t.id in Ids(rest);
    }
  }

  lemma RedispatchKept(db: Db, tasks: Tasks, ids: seq<JobId>, isolate: bool, now: Time)
    ensures var r := Redispatch(db, tasks, ids, isolate, now);
            r.Ok? ==> Kept(db, r.value, Members(ids))
  {
    hide Bulk, FailAll, Tickets, Undecidable, Live;
    var ts := Tickets(db, tasks, ids, now);
    TicketIds(db, tasks, ids, now);
    BulkKept(db, ts, now);
    FailAllJobs(Bulk(db, ts, now), Where(ids, (id: JobId) => Undecidable(db, tasks, id, now)), now);
  }

  // ---------------------------------------------------------------- steps

  /** Jobs come only from `created` and go only in `deleted`; the rest are the same, and finishes stay. */
  ghost predicate Conserved(a: Db, b: Db, deleted: set<JobId>, created: set<JobId>) {
    && (forall id :: id in a.jobs ==> id in b.jobs || id in deleted)
    && (forall id :: id in b.jobs ==> id in a.jobs || id in created)
    && (forall id :: id in a.jobs && id in b.jobs ==> SameOrder(a.jobs[id], b.jobs[id]))
    && (forall id :: id in a.jobs && id in b.jobs && a.jobs[id].finishedAt.Some? ==>
          b.jobs[id].finishedAt == a.jobs[id].finishedAt)
  }

  ghost predicate ConservedIfOk(a: Db, r: Result<Db>, deleted: set<JobId>, created: set<JobId>) {
    r.Ok? ==> Conserved(a, r.value, deleted, created)
  }

  lemma SameJobs(a: Db, b: Db)
    requires a.jobs == b.jobs
    ensures Conserved(a, b, {}, {})
  {
  }

  /** Only jobs without a finish were finished. */
  lemma KeptConserved(a: Db, b: Db, finishing: set<JobId>)
    requires Kept(a, b, finishing)
    requires forall id :: id in finishing && id in a.jobs ==> a.jobs[id].finishedAt == None
    ensures Conserved(a, b, {}, {})
  {
  }

  lemma ConservedBefore(a: Db, b: Db, c: Db)
    requires a.jobs == b.jobs && Conserved(b, c, {}, {})
    ensures Conserved(a, c, {}, {})
  {
  }

  lemma EnqueueConserved(db: Db, cfg: Config, tasks: Tasks, id: JobId, s: Submission, now: Time)
    ensures ConservedIfOk(db, Enqueue(db, cfg, tasks, id, s, now), {}, {id})
  {
    hide DispatchOne;
    var job := NewJob(cfg, s);
    if id !in db.jobs && Decide(job, tasks, now).Ok? {
      DispatchOneKept(InsertJob(db, id, job), Ticket(id, Decide(job, tasks, now).value), now);
    }
  }

  lemma {:induction false} InsertAllAdds(db: Db, cfg: Config, items: seq<(JobId, Submission)>)
    ensures var r := InsertAll(db, cfg, items);
            r.Ok? ==> && (forall id :: id in db.jobs ==> id in r.value.jobs && r.value.jobs[id] == db.jobs[id])
                      && (forall id :: id in r.value.jobs <==> id in db.jobs || id in NewIds(items))
                      && db.jobs.Keys !! NewIds(items)
    decreases |items|
  {
    if items != [] && items[0].0 !in db.jobs {
      InsertAllAdds(InsertJob(db, items[0].0, NewJob(cfg, items[0].1)), cfg, items[1..]);
      assert NewIds(items) == {items[0].0} + NewIds(items[1..]) by {
        assert forall item :: item in items <==> item == items[0] || item in items[1..];
      }
    }
  }

  function NewIds(items: seq<(JobId, Submission)>): set<JobId> {
    set item | item in items :: item.0
  }

  lemma EnqueueBulkConserved(db: Db, cfg: Config, tasks: Tasks, items: seq<(JobId, Submission)>, now: Time)
    ensures ConservedIfOk(db, EnqueueBulk(db, cfg, tasks, items, now), {}, NewIds(items))
  {
    hide Bulk, InsertAll, Tickets, NewIds;
    InsertAllAdds(db, cfg, items);
    var inserted := InsertAll(db, cfg, items);
    if inserted.Ok? {
      var ids := seq(|items|, i requires 0 <= i < |items| => items[i].0);
      var ts := Tickets(inserted.value, tasks, ids, now);
      TicketIds(inserted.value, tasks, ids, now);
      assert Members(ids) <= NewIds(items) by {
        BulkIds(items);
      }
      BulkKept(inserted.value, ts, now);
    }
  }

  lemma BulkIds(items: seq<(JobId, Submission)>)
    ensures Members(seq(|items|, i requires 0 <= i < |items| => items[i].0)) <= NewIds(items)
  {
    var ids := seq(|items|, i requires 0 <= i < |items| => items[i].0);
    forall id | id in ids
      ensures id in NewIds(items)
    {
      var i :| 0 <= i < |ids| && ids[i] == id;
      assert items[i] in items;
    }
  }

  /** A batch with state rows has no finish yet, so dispatching it again finishes no job twice. */
  lemma RedispatchConserved(db: Db, tasks: Tasks, table: Table, ids: seq<JobId>, isolate: bool, now: Time)
    requires Valid(db) && forall id :: id in ids ==> Has(db, table, id)
    ensures ConservedIfOk(db, Redispatch(EvictAll(db, table, ids), tasks, ids, isolate, now), {}, {})
  {
    forall id | id in ids
      ensures id in db.jobs && db.jobs[id].finishedAt == None
    {
      GoodRow(db, {}, multiset{}, table, id);
    }
    hide Valid, Redispatch, EvictAll, Kept, Conserved;
    EvictAllJobs(db, table, ids);
    var evicted := EvictAll(db, table, ids);
    RedispatchKept(evicted, tasks, ids, isolate, now);
    var r := Redispatch(evicted, tasks, ids, isolate, now);
    if r.Ok? {
      KeptConserved(evicted, r.value, Members(ids));
      ConservedBefore(db, evicted, r.value);
    }
  }

  lemma DispatchNowConserved(db: Db, cfg: Config, tasks: Tasks, id: JobId, hidden: set<JobId>, now: Time)
    requires Valid(db)
    ensures ConservedIfOk(db, DispatchNow(db, cfg, tasks, id, hidden, now), {}, {})
  {
    hide DispatchOne, Live, Good;
    if id in db.scheduled {
      GoodRow(db, {}, multiset{}, Scheduled, id);
      var evicted := Evict(db, Scheduled, id);
      var cleared := evicted.(jobs := evicted.jobs[id := evicted.jobs[id].(scheduledAt := None)]);
      if Decide(cleared.jobs[id], tasks, now).Ok? {
        DispatchOneKept(cleared, Ticket(id, Decide(cleared.jobs[id], tasks, now).value), now);
      }
    }
  }

  lemma RemovedConserved(a: Db, b: Db, deleted: set<JobId>, named: set<JobId>)
    requires b.jobs == a.jobs - deleted && deleted <= named
    ensures Conserved(a, b, named, {})
  {
  }

  lemma DiscardConserved(
    db: Db, cfg: Config, tasks: Tasks, table: Table, only: Option<set<JobId>>, within: Option<string>, batch: nat,
    hidden: set<JobId>, now: Time)
    ensures ConservedIfOk(db, DiscardRows(db, cfg, tasks, table, only, within, batch, hidden, now),
                          Members(DiscardIds(db, cfg, table, only, within, batch, hidden)), {})
  {
    hide DiscardRows, DiscardIds, Conserved, OnlyPromotes;
    var r := DiscardRows(db, cfg, tasks, table, only, within, batch, hidden, now);
    if r.Ok? {
      DiscardOutcome(db, cfg, tasks, table, only, within, batch, hidden, now);
      var ids := Members(DiscardIds(db, cfg, table, only, within, batch, hidden));
      RemovedConserved(db, r.value, ids, ids);
    }
  }

  lemma CompleteConserved(db: Db, cfg: Config, tasks: Tasks, id: JobId, hidden: set<JobId>, now: Time)
    requires Valid(db)
    ensures ConservedIfOk(db, CompleteClaimed(db, cfg, tasks, id, hidden, now),
                          if cfg.preserveFinished then {} else {id}, {})
  {
    if CompleteClaimed(db, cfg, tasks, id, hidden, now).Ok? {
      CompleteOutcome(db, cfg, tasks, id, hidden, now);
      GoodRow(db, {}, multiset{}, Claimed, id);
      hide CompleteClaimed, OnlyPromotes, Valid;
    }
  }

  lemma FailConserved(db: Db, cfg: Config, tasks: Tasks, id: JobId, hidden: set<JobId>, now: Time)
    ensures ConservedIfOk(db, FailClaimed(db, cfg, tasks, id, hidden, now), {}, {})
  {
    hide FailClaimed, OnlyPromotes;
    if FailClaimed(db, cfg, tasks, id, hidden, now).Ok? {
      FailOutcome(db, cfg, tasks, id, hidden, now);
    }
  }

  lemma ClaimConserved(
    db: Db, cfg: Config, queues: Queues, limit: nat, process: Option<ProcessId>, hidden: set<JobId>, paused: set<string>)
    ensures ConservedIfOk(db, Claim(db, cfg, queues, limit, process, hidden, paused), {}, {})
  {
    hide Claim, ClaimedIds;
    if Claim(db, cfg, queues, limit, process, hidden, paused).Ok? {
      ClaimOutcome(db, cfg, queues, limit, process, hidden, paused);
    }
  }

  lemma PromoteExpiredConserved(db: Db, cfg: Config, tasks: Tasks, batch: nat, hidden: set<JobId>, now: Time)
    ensures ConservedIfOk(db, PromoteExpired(db, cfg, tasks, batch, hidden, now), {}, {})
  {
    hide EvictAll, ExpireEach, Batch;
    var ids := Batch(ExpiredBlocked(db, cfg, hidden, now), BlockedColumns(db), batch);
    EvictAllJobs(db, Blocked, ids);
    var consumed := cfg.family.Sqlite?;
    ExpireEachJobs(if consumed then EvictAll(db, Blocked, ids) else db, tasks, ids, db.blocked, consumed, now);
  }

  function Aged(db: Db, cutoff: Time): set<JobId> {
    set id | id in db.jobs && db.jobs[id].finishedAt.Some? && db.jobs[id].finishedAt.value < cutoff
  }

  function AgedFailures(db: Db, cutoff: Time): set<JobId> {
    set id | id in db.failed && db.failed[id].createdAt < cutoff
  }

  lemma ClearFinishedConserved(
    db: Db, cfg: Config, cutoff: Time, task: Option<string>, batch: nat, hidden: set<JobId>)
    ensures ConservedIfOk(db, ClearFinished(db, cfg, cutoff, task, batch, hidden), Aged(db, cutoff), {})
  {
    hide Batch, DeleteAll, Live, Conserved;
    var aged := set id | id in db.jobs && id !in hidden && db.jobs[id].backend == cfg.backend
                         && db.jobs[id].finishedAt.Some? && db.jobs[id].finishedAt.value < cutoff
                         && (task.Some? ==> db.jobs[id].taskPath == task.value);
    var ids := Batch(aged, FinishedColumns(db), batch);
    BatchMembers(aged, FinishedColumns(db), batch);
    DeleteAllIs(db, ids);
    forall id | id in Members(ids)
      ensures id in Aged(db, cutoff)
    {
      assert id in ids && id in aged;
    }
    RemovedConserved(db, DeleteAll(db, ids), Members(ids), Aged(db, cutoff));
  }

  lemma ClearFailedConserved(
    db: Db, cfg: Config, cutoff: Time, task: Option<string>, batch: nat, hidden: set<JobId>)
    ensures ConservedIfOk(db, ClearFailed(db, cfg, cutoff, task, batch, hidden), AgedFailures(db, cutoff), {})
  {
    hide Batch, DeleteAll, EvictAll, Live, Conserved;
    var aged := set id | id in FailedOf(db, cfg, hidden) && db.failed[id].createdAt < cutoff
                         && (task.Some? ==> db.jobs[id].taskPath == task.value);
    var ids := Batch(aged, FailureColumns(db), batch);
    BatchMembers(aged, FailureColumns(db), batch);
    EvictAllJobs(db, Failed, ids);
    DeleteAllIs(EvictAll(db, Failed, ids), ids);
    forall id | id in Members(ids)
      ensures id in AgedFailures(db, cutoff)
    {
      assert id in ids && id in aged;
    }
    RemovedConserved(db, DeleteAll(EvictAll(db, Failed, ids), ids), Members(ids), AgedFailures(db, cutoff));
  }

  /** The jobs a step may delete. */
  function DeletedBy(db: Db, step: Step): set<JobId> {
    match step
    case Produce(DoDiscard(cfg, _, table, only, within, batch, hidden, _)) =>
      Members(DiscardIds(db, cfg, table, only, within, batch, hidden))
    case Work(DoComplete(cfg, _, id, _, _)) => if cfg.preserveFinished then {} else {id}
    case Maintain(DoClearFinished(_, cutoff, _, _, _)) => Aged(db, cutoff)
    case Maintain(DoClearFailed(_, cutoff, _, _, _)) => AgedFailures(db, cutoff)
    case _ => {}
  }

  function CreatedBy(step: Step): set<JobId> {
    match step
    case Produce(DoEnqueue(_, _, id, _, _)) => {id}
    case Produce(DoEnqueueBulk(_, _, items, _)) => NewIds(items)
    case _ => {}
  }

  lemma ProduceConserved(db: Db, step: ProducerStep)
    requires Valid(db)
    ensures ConservedIfOk(db, AttemptProduce(db, step), DeletedBy(db, Produce(step)), CreatedBy(Produce(step)))
  {
    hide Valid, Conserved, Redispatch, EvictAll, Batch, Enqueue, EnqueueBulk, DispatchNow, DiscardRows, DiscardIds;
    match step
    case DoEnqueue(cfg, tasks, id, submission, now) => EnqueueConserved(db, cfg, tasks, id, submission, now);
    case DoEnqueueBulk(cfg, tasks, items, now) => EnqueueBulkConserved(db, cfg, tasks, items, now);
    case DoDispatchNow(cfg, tasks, id, hidden, now) => DispatchNowConserved(db, cfg, tasks, id, hidden, now);
    case DoRetryFailed(cfg, tasks, only, batch, hidden, now) =>
      var eligible := set id | id in FailedOf(db, cfg, hidden) && (only.Some? ==> id in only.value);
      BatchMembers(eligible, FailedColumns(db), batch);
      RedispatchConserved(db, tasks, Failed, Batch(eligible, FailedColumns(db), batch), true, now);
    case DoRetryOne(cfg, tasks, id, now) =>
      if id in db.failed {
        EvictAllOne(db, Failed, id);
        RedispatchConserved(db, tasks, Failed, [id], false, now);
      }
    case DoScheduleRetry(cfg, id, at) =>
      if id in FailedOf(db, cfg, {}) {
        SameJobs(db, ScheduleRetry(db, cfg, id, at).value);
      }
    case DoDiscard(cfg, tasks, table, only, within, batch, hidden, now) =>
      DiscardConserved(db, cfg, tasks, table, only, within, batch, hidden, now);
    case DoPause(backend, queue) => SameJobs(db, db.(pauses := db.pauses + {(backend, queue)}));
    case DoResume(backend, queue) => SameJobs(db, db.(pauses := db.pauses - {(backend, queue)}));
  }

  lemma WorkConserved(db: Db, step: WorkerStep)
    requires Valid(db)
    ensures ConservedIfOk(db, AttemptWork(db, step), DeletedBy(db, Work(step)), {})
  {
    hide Valid, Conserved, Claim, CompleteClaimed, FailClaimed;
    match step
    case DoClaim(cfg, queues, limit, process, hidden, paused) =>
      ClaimConserved(db, cfg, queues, limit, process, hidden, paused);
    case DoComplete(cfg, tasks, id, hidden, now) => CompleteConserved(db, cfg, tasks, id, hidden, now);
    case DoFail(cfg, tasks, id, hidden, now) => FailConserved(db, cfg, tasks, id, hidden, now);
  }

  lemma MaintainConserved(db: Db, step: DispatcherStep)
    requires Valid(db)
    ensures ConservedIfOk(db, AttemptMaintain(db, step), DeletedBy(db, Maintain(step)), {})
  {
    hide Valid, Conserved, Redispatch, EvictAll, Batch, PromoteExpired, ClearFinished, ClearFailed;
    match step
    case DoPromoteScheduled(cfg, tasks, batch, hidden, now) =>
      BatchMembers(DueScheduled(db, cfg, hidden, now), ScheduledColumns(db), batch);
      RedispatchConserved(
        db, tasks, Scheduled, Batch(DueScheduled(db, cfg, hidden, now), ScheduledColumns(db), batch), true, now);
    case DoPromoteRetries(cfg, tasks, batch, hidden, now) =>
      var due := set id | id in FailedOf(db, cfg, hidden) && db.failed[id].retryAt.Some? && db.failed[id].retryAt.value <= now;
      BatchMembers(due, RetryColumns(db), batch);
      RedispatchConserved(db, tasks, Failed, Batch(due, RetryColumns(db), batch), true, now);
    case DoPromoteExpired(cfg, tasks, batch, hidden, now) => PromoteExpiredConserved(db, cfg, tasks, batch, hidden, now);
    case DoCleanupSemaphores(locked, now) => SameJobs(db, CleanupSemaphores(db, locked, now));
    case DoClearFinished(cfg, cutoff, task, batch, hidden) =>
      ClearFinishedConserved(db, cfg, cutoff, task, batch, hidden);
    case DoClearFailed(cfg, cutoff, task, batch, hidden) => ClearFailedConserved(db, cfg, cutoff, task, batch, hidden);
  }

  lemma SuperviseConserved(db: Db, step: SupervisorStep)
    ensures ConservedIfOk(db, AttemptSupervise(db, step), {}, {})
  {
    hide Conserved, FailClaimedBatch, Batch, PruneEach;
    match step
    case DoRegister(process, row) => SameJobs(db, db.(processes := db.processes[process := row]));
    case DoUnregister(process) => SameJobs(db, DeleteProcess(db, process));
    case DoFailOrphaned(cfg, tasks, batch, hidden, now) =>
      var orphans := set id | id in db.claimed && id !in hidden && db.claimed[id].process.None?
                              && id in db.jobs && db.jobs[id].backend == cfg.backend;
      FailBatchConserved(db, cfg, tasks, Batch(orphans, ClaimedColumns(db), batch), hidden, now);
    case DoFailForProcess(cfg, tasks, process, hidden, now) =>
      var claims := ClaimsOf(db, process);
      FailBatchConserved(db, cfg, tasks, Batch(claims, ClaimedColumns(db), |claims|), hidden, now);
    case DoPruneStale(cfg, tasks, cutoff, exclude, batch, hiddenProcesses, hidden, now) =>
      var stale := set p | p in db.processes && p !in hiddenProcesses && Some(p) != exclude && Stale(db, cfg, p, cutoff);
      var processes := Batch(stale, StaleColumns(db), batch);
      PruneEachJobs(db, cfg, tasks, processes, cutoff, batch, hidden, now);
      var r := PruneEach(db, cfg, tasks, processes, cutoff, batch, hidden, now);
      if r.Ok? {
        SameJobs(db, r.value);
      }
  }

  lemma FailBatchConserved(db: Db, cfg: Config, tasks: Tasks, ids: seq<JobId>, hidden: set<JobId>, now: Time)
    ensures ConservedIfOk(db, FailClaimedBatch(db, cfg, tasks, ids, hidden, now), {}, {})
  {
    hide FailClaimedBatch, OnlyPromotes;
    if FailClaimedBatch(db, cfg, tasks, ids, hidden, now).Ok? {
      FailClaimedBatchOutcome(db, cfg, tasks, ids, hidden, now);
    }
  }

  /**
   What every step conserves: jobs come only from enqueues and go only by a delete the step names;
   queue, priority, key and policy never change; a finish is never taken back or moved.
   */
  lemma StepConserves(db: Db, step: Step)
    requires Valid(db)
    ensures Conserved(db, After(db, step), DeletedBy(db, step), CreatedBy(step))
  {
    hide Valid, AttemptProduce, AttemptWork, AttemptMaintain, AttemptSupervise;
    match step
    case Produce(producer) => ProduceConserved(db, producer);
    case Work(worker) => WorkConserved(db, worker);
    case Maintain(dispatcher) => MaintainConserved(db, dispatcher);
    case Supervise(supervisor) => SuperviseConserved(db, supervisor);
  }

  /** Neither a discard, nor retention, nor the completion of a job that is not to be preserved. */
  predicate Preserving(step: Step) {
    match step
    case Produce(producer) => !producer.DoDiscard?
    case Work(worker) => worker.DoComplete? ==> worker.cfg.preserveFinished
    case Maintain(dispatcher) => !dispatcher.DoClearFinished? && !dispatcher.DoClearFailed?
    case Supervise(_) => true
  }

  /** No job is lost in any run of preserving steps, and a finished job stays as it finished. */
  lemma {:induction false} NoJobIsLost(db: Db, steps: seq<Step>)
    requires Valid(db) && forall step :: step in steps ==> Preserving(step)
    ensures var after := Run(db, steps);
            && (forall id :: id in db.jobs ==> id in after.jobs && SameOrder(db.jobs[id], after.jobs[id]))
            && (forall id :: id in db.jobs && db.jobs[id].finishedAt.Some? ==>
                  after.jobs[id].finishedAt == db.jobs[id].finishedAt)
    decreases |steps|
  {
    hide Valid, Attempt;
    if steps != [] {
      assert steps[0] in steps;
      assert DeletedBy(db, steps[0]) == {};
      StepConserves(db, steps[0]);
      AttemptSound(db, steps[0]);
      NoJobIsLost(After(db, steps[0]), steps[1..]);
    }
  }
}
