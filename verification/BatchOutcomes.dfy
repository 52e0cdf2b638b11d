/** What the batch transactions leave in the tables: discards, retention, retries and handled expiries. */
module BatchOutcomes {
  import opened Results
  import opened Semaphores
  import opened Ordering
  import opened Grouping
  import opened Tables
  import opened Slots
  import opened SlotAccounting
  import opened Dispatch
  import opened Claiming
  import opened Lifecycle
  import opened LifecycleSafety
  import opened Outcomes
  import opened Selections

  /** The jobs that are gone. */
  function Gone(a: Db, b: Db): set<JobId> {
    a.jobs.Keys - b.jobs.Keys
  }

  lemma GoneAre(db: Db, after: Db, ids: seq<JobId>)
    requires after.jobs == db.jobs - Members(ids) && forall id :: id in ids ==> id in db.jobs
    ensures Gone(db, after) == Members(ids)
  {
    assert forall id :: id in Gone(db, after) <==> id in ids;
  }

  // ---------------------------------------------------------------- discards

  /** The columns of a state row that discarding looks at; a failed row has its backend from its job, and no queue. */
  datatype StateRow = StateRow(backend: string, queue: Option<string>, pk: int)

  function RowOf(db: Db, table: Table, id: JobId): Option<StateRow> {
    match table
    case Ready => if id in db.ready then Some(StateRow(db.ready[id].backend, Some(db.ready[id].queue), db.ready[id].pk)) else None
    case Scheduled =>
      if id in db.scheduled then Some(StateRow(db.scheduled[id].backend, Some(db.scheduled[id].queue), db.scheduled[id].pk)) else None
    case Blocked =>
      if id in db.blocked then Some(StateRow(db.blocked[id].backend, Some(db.blocked[id].queue), db.blocked[id].pk)) else None
    case Failed =>
      if id in db.failed && id in db.jobs then Some(StateRow(db.jobs[id].backend, None, db.failed[id].pk)) else None
    case Claimed => None
  }

  /** A job with a row of the table, of the backend, not locked, in the queue and among the jobs asked for. */
  predicate MayGo(
    db: Db, cfg: Config, table: Table, only: Option<set<JobId>>, queue: Option<string>, hidden: set<JobId>, id: JobId)
  {
    && id in db.jobs && id !in hidden
    && var row := RowOf(db, table, id);
       && row.Some? && row.value.backend == cfg.backend
       && (queue.Some? && row.value.queue.Some? ==> row.value.queue == queue)
       && (only.Some? ==> id in only.value)
  }

  function MayGoIn(
    db: Db, cfg: Config, table: Table, only: Option<set<JobId>>, queue: Option<string>, hidden: set<JobId>): JobId -> bool
  {
    (id: JobId) => MayGo(db, cfg, table, only, queue, hidden, id)
  }

  function PkColumns(db: Db, table: Table): JobId -> Columns {
    (id: JobId) => (0, 0, if RowOf(db, table, id).Some? then RowOf(db, table, id).value.pk else 0)
  }

  lemma DiscardIdsAreFirst(
    db: Db, cfg: Config, table: Table, only: Option<set<JobId>>, queue: Option<string>, batch: nat, hidden: set<JobId>)
    ensures AreFirst(Members(DiscardIds(db, cfg, table, only, queue, batch, hidden)),
                     MayGoIn(db, cfg, table, only, queue, hidden), PkColumns(db, table), batch)
  {
    var eligible := set id | id in db.jobs && id !in hidden && Discardable(db, cfg, table, id, queue)
                             && (only.Some? ==> id in only.value);
    forall id
      ensures id in eligible <==> MayGoIn(db, cfg, table, only, queue, hidden)(id)
      ensures id in eligible ==> RowColumns(db, table)(id).rank == 0 && RowColumns(db, table)(id).priority == 0
                                 && RowColumns(db, table)(id).pk == PkColumns(db, table)(id).2
    {
      DiscardableIff(db, cfg, table, only, queue, hidden, id);
      hide MayGo;
    }
    hide Batch, AreFirst, Discardable, RowColumns, MayGoIn, RowOf, MayGo;
    BatchIsFirstOf(eligible, RowColumns(db, table), batch, MayGoIn(db, cfg, table, only, queue, hidden), PkColumns(db, table));
  }

  lemma DiscardableIff(
    db: Db, cfg: Config, table: Table, only: Option<set<JobId>>, queue: Option<string>, hidden: set<JobId>, id: JobId)
    ensures MayGo(db, cfg, table, only, queue, hidden, id) <==>
              id in db.jobs && id !in hidden && Discardable(db, cfg, table, id, queue) && (only.Some? ==> id in only.value)
    ensures Discardable(db, cfg, table, id, queue) ==>
              RowOf(db, table, id).Some? && RowColumns(db, table)(id) == Entry(0, 0, RowOf(db, table, id).value.pk, id)
  {
    match table
    case Ready =>
    case Scheduled =>
    case Blocked =>
    case Failed =>
    case Claimed =>
  }

  lemma DiscardedHadJobs(
    db: Db, cfg: Config, table: Table, only: Option<set<JobId>>, queue: Option<string>, batch: nat, hidden: set<JobId>)
    ensures forall id :: id in DiscardIds(db, cfg, table, only, queue, batch, hidden) ==> id in db.jobs
  {
    var eligible := set id | id in db.jobs && id !in hidden && Discardable(db, cfg, table, id, queue)
                             && (only.Some? ==> id in only.value);
    BatchMembers(eligible, RowColumns(db, table), batch);
    hide Batch, Discardable, RowColumns;
  }

  /**
   A discarded job had such a row; a job with such a row is still there only if as many jobs went as fit the batch,
   none of them with a later row. All other jobs are as they were.
   */
  lemma DiscardTakesFirst(
    db: Db, cfg: Config, tasks: Tasks, table: Table, only: Option<set<JobId>>, queue: Option<string>, batch: nat,
    hidden: set<JobId>, now: Time)
    requires DiscardRows(db, cfg, tasks, table, only, queue, batch, hidden, now).Ok?
    ensures var after := DiscardRows(db, cfg, tasks, table, only, queue, batch, hidden, now).value;
            && AreFirst(Gone(db, after), MayGoIn(db, cfg, table, only, queue, hidden),
                        PkColumns(db, table), batch)
            && (forall id :: id in after.jobs ==> id in db.jobs && after.jobs[id] == db.jobs[id])
  {
    hide *;
    DiscardOutcome(db, cfg, tasks, table, only, queue, batch, hidden, now);
    var after := DiscardRows(db, cfg, tasks, table, only, queue, batch, hidden, now).value;
    var ids := DiscardIds(db, cfg, table, only, queue, batch, hidden);
    DiscardedHadJobs(db, cfg, table, only, queue, batch, hidden);
    GoneAre(db, after, ids);
    DiscardIdsAreFirst(db, cfg, table, only, queue, batch, hidden);
  }

  // ---------------------------------------------------------------- retention

  /** Finished before the cutoff, not locked, of the backend, and of the task if one is given. */
  predicate FinishedBefore(db: Db, cfg: Config, cutoff: Time, task: Option<string>, hidden: set<JobId>, id: JobId) {
    && id in db.jobs && id !in hidden && db.jobs[id].backend == cfg.backend
    && db.jobs[id].finishedAt.Some? && db.jobs[id].finishedAt.value < cutoff
    && (task.Some? ==> db.jobs[id].taskPath == task.value)
  }

  function FinishedBeforeIn(db: Db, cfg: Config, cutoff: Time, task: Option<string>, hidden: set<JobId>): JobId -> bool {
    (id: JobId) => FinishedBefore(db, cfg, cutoff, task, hidden, id)
  }

  function FinishDates(db: Db): JobId -> Columns {
    (id: JobId) => (if id in db.jobs && db.jobs[id].finishedAt.Some? then db.jobs[id].finishedAt.value else 0, 0, 0)
  }

  lemma ClearFinishedTakesFirst(db: Db, cfg: Config, cutoff: Time, task: Option<string>, batch: nat, hidden: set<JobId>)
    requires ClearFinished(db, cfg, cutoff, task, batch, hidden).Ok?
    ensures var after := ClearFinished(db, cfg, cutoff, task, batch, hidden).value;
            && AreFirst(Gone(db, after), FinishedBeforeIn(db, cfg, cutoff, task, hidden),
                        FinishDates(db),
                        batch)
            && after == db.(jobs := db.jobs - Gone(db, after))
  {
    var aged := set id | id in db.jobs && id !in hidden && db.jobs[id].backend == cfg.backend
                        && db.jobs[id].finishedAt.Some? && db.jobs[id].finishedAt.value < cutoff
                        && (task.Some? ==> db.jobs[id].taskPath == task.value);
    var ids := Batch(aged, FinishedColumns(db), batch);
    BatchMembers(aged, FinishedColumns(db), batch);
    DeleteAllIs(db, ids);
    hide Batch, AreFirst, DeleteAll, Live;
    BatchIsFirstOf(aged, FinishedColumns(db), batch, FinishedBeforeIn(db, cfg, cutoff, task, hidden),
                   FinishDates(db));
    GoneAre(db, ClearFinished(db, cfg, cutoff, task, batch, hidden).value, ids);
  }

  predicate FailedBefore(db: Db, cfg: Config, cutoff: Time, task: Option<string>, hidden: set<JobId>, id: JobId) {
    && id in db.failed && id !in hidden && id in db.jobs && db.jobs[id].backend == cfg.backend
    && db.failed[id].createdAt < cutoff && (task.Some? ==> db.jobs[id].taskPath == task.value)
  }

  function FailedBeforeIn(db: Db, cfg: Config, cutoff: Time, task: Option<string>, hidden: set<JobId>): JobId -> bool {
    (id: JobId) => FailedBefore(db, cfg, cutoff, task, hidden, id)
  }

  function FailureDates(db: Db): JobId -> Columns {
    (id: JobId) => (if id in db.failed then db.failed[id].createdAt else 0, 0, 0)
  }

  lemma ClearFailedTakesFirst(db: Db, cfg: Config, cutoff: Time, task: Option<string>, batch: nat, hidden: set<JobId>)
    requires ClearFailed(db, cfg, cutoff, task, batch, hidden).Ok?
    ensures var after := ClearFailed(db, cfg, cutoff, task, batch, hidden).value;
            && AreFirst(Gone(db, after), FailedBeforeIn(db, cfg, cutoff, task, hidden),
                        FailureDates(db), batch)
            && after == db.(jobs := db.jobs - Gone(db, after), failed := db.failed - Gone(db, after))
  {
    var after := ClearFailed(db, cfg, cutoff, task, batch, hidden).value;
    var ids := AgedFailures(db, cfg, cutoff, task, batch, hidden);
    AgedFailuresAreFirst(db, cfg, cutoff, task, batch, hidden);
    hide EvictAll, DeleteAll, Live, AgedFailures, AreFirst, Gone, FailedBeforeIn, Members;
    EvictedFailures(db, ids);
    DeleteAllIs(EvictAll(db, Failed, ids), ids);
    ClearFailedUnfold(db, cfg, cutoff, task, batch, hidden);
    hide ClearFailed;
    GoneAre(db, after, ids);
  }

  lemma ClearFailedUnfold(db: Db, cfg: Config, cutoff: Time, task: Option<string>, batch: nat, hidden: set<JobId>)
    requires ClearFailed(db, cfg, cutoff, task, batch, hidden).Ok?
    ensures var ids := AgedFailures(db, cfg, cutoff, task, batch, hidden);
            ClearFailed(db, cfg, cutoff, task, batch, hidden).value == DeleteAll(EvictAll(db, Failed, ids), ids)
  {
    hide EvictAll, DeleteAll, Live, Batch;
  }

  function AgedFailures(db: Db, cfg: Config, cutoff: Time, task: Option<string>, batch: nat, hidden: set<JobId>): seq<JobId> {
    var aged := set id | id in FailedOf(db, cfg, hidden) && db.failed[id].createdAt < cutoff
                         && (task.Some? ==> db.jobs[id].taskPath == task.value);
    Batch(aged, FailureColumns(db), batch)
  }

  lemma AgedFailuresAreFirst(db: Db, cfg: Config, cutoff: Time, task: Option<string>, batch: nat, hidden: set<JobId>)
    ensures var ids := AgedFailures(db, cfg, cutoff, task, batch, hidden);
            && AreFirst(Members(ids), FailedBeforeIn(db, cfg, cutoff, task, hidden), FailureDates(db), batch)
            && forall id :: id in ids ==> id in db.jobs
  {
    var aged := set id | id in FailedOf(db, cfg, hidden) && db.failed[id].createdAt < cutoff
                         && (task.Some? ==> db.jobs[id].taskPath == task.value);
    BatchMembers(aged, FailureColumns(db), batch);
    hide Batch, AreFirst;
    BatchIsFirstOf(aged, FailureColumns(db), batch, FailedBeforeIn(db, cfg, cutoff, task, hidden), FailureDates(db));
  }

  // ---------------------------------------------------------------- dispatched again

  /** No date ahead, a key, and neither the job nor its task has a policy for it. */
  predicate LacksPolicy(job: Job, tasks: Tasks, now: Time) {
    && !(job.scheduledAt.Some? && job.scheduledAt.value > now) && job.key.Some?
    && (job.policy.Unusable? || (job.policy.Historical? && job.taskPath !in tasks))
  }

  lemma LacksPolicyIff(job: Job, tasks: Tasks, now: Time)
    ensures LacksPolicy(job, tasks, now) <==> Decide(job, tasks, now).Err?
  {
  }

  lemma DispatchOneFailed(db: Db, t: Ticket, now: Time)
    ensures DispatchOne(db, t, now).failed == db.failed
  {
    hide Acquire;
    match t.decision
    case Contend(key, policy) =>
      PlaceFailed(AcquireSlot(db, key, policy.limit, policy.duration, now).0, t, true, now);
      PlaceFailed(AcquireSlot(db, key, policy.limit, policy.duration, now).0, t, false, now);
      hide Place;
    case _ => PlaceFailed(db, t, true, now);
  }

  lemma PlaceFailed(db: Db, t: Ticket, acquired: bool, now: Time)
    ensures Place(db, t, acquired, now).failed == db.failed
  {
    hide PlaceAs;
    if t.id in db.jobs {
      PlaceAsFailed(db, t.id, db.jobs[t.id], OutcomeOf(t.decision, acquired), now);
    }
  }

  lemma PlaceAsFailed(db: Db, id: JobId, job: Job, outcome: Outcome, now: Time)
    requires id in db.jobs
    ensures PlaceAs(db, id, job, outcome, now).failed == db.failed
  {
    match outcome
    case ToReady =>
    case ToScheduled =>
    case ToBlocked(_, _) =>
    case ToDiscard =>
  }

  lemma {:induction false} DispatchAllFailed(db: Db, ts: seq<Ticket>, now: Time)
    ensures DispatchAll(db, ts, now).failed == db.failed
    decreases |ts|
  {
    hide DispatchOne;
    if ts != [] {
      DispatchOneFailed(db, ts[0], now);
      DispatchAllFailed(DispatchOne(db, ts[0], now), ts[1..], now);
    }
  }

  lemma BulkFailed(db: Db, ts: seq<Ticket>, now: Time)
    ensures Bulk(db, ts, now).failed == db.failed
  {
    hide Bulk, DispatchAll;
    BulkIsSingleDispatchInGroupOrder(db, ts, now);
    DispatchAllFailed(db, DispatchOrder(ts), now);
  }

  /** Among the jobs dispatched again, exactly those without a policy have failed, now and with no retry. */
  ghost predicate Refailed(db: Db, after: Db, tasks: Tasks, ids: seq<JobId>, now: Time) {
    && (forall id :: id in ids && id in db.jobs && LacksPolicy(db.jobs[id], tasks, now) ==>
          id in after.failed && after.failed[id].createdAt == now && after.failed[id].retryAt == None)
    && (forall id :: id in after.failed ==>
          || (id in ids && id in db.jobs && LacksPolicy(db.jobs[id], tasks, now))
          || (id in db.failed && after.failed[id] == db.failed[id]))
    && (forall id :: id in db.failed ==> id in after.failed)
  }

  lemma RedispatchRefails(db: Db, tasks: Tasks, ids: seq<JobId>, isolate: bool, now: Time)
    requires Redispatch(db, tasks, ids, isolate, now).Ok? && Distinct(ids)
    ensures Refailed(db, Redispatch(db, tasks, ids, isolate, now).value, tasks, ids, now)
  {
    hide *;
    var failures := Undecided(db, tasks, ids, now);
    UndecidedAre(db, tasks, ids, now);
    var dispatched := Bulk(db, Tickets(db, tasks, ids, now), now);
    BulkFailed(db, Tickets(db, tasks, ids, now), now);
    RedispatchIs(db, tasks, ids, isolate, now);
    FailedAre(db, dispatched, tasks, ids, failures, now);
  }

  function Undecided(db: Db, tasks: Tasks, ids: seq<JobId>, now: Time): seq<JobId> {
    Where(ids, (id: JobId) => Undecidable(db, tasks, id, now))
  }

  lemma RedispatchIs(db: Db, tasks: Tasks, ids: seq<JobId>, isolate: bool, now: Time)
    requires Redispatch(db, tasks, ids, isolate, now).Ok?
    ensures Redispatch(db, tasks, ids, isolate, now).value
         == FailAll(Bulk(db, Tickets(db, tasks, ids, now), now), Undecided(db, tasks, ids, now), now)
  {
    hide Bulk, FailAll, Tickets, Where, Live, Decide;
  }

  lemma UndecidedAre(db: Db, tasks: Tasks, ids: seq<JobId>, now: Time)
    requires Distinct(ids)
    ensures Distinct(Undecided(db, tasks, ids, now))
    ensures forall id :: id in Undecided(db, tasks, ids, now) <==>
                           id in ids && id in db.jobs && LacksPolicy(db.jobs[id], tasks, now)
  {
    hide LacksPolicy, Decide;
    var undecidable := (id: JobId) => Undecidable(db, tasks, id, now);
    KeepDistinct(ids, undecidable);
    forall id
      ensures id in Undecided(db, tasks, ids, now) <==> id in ids && id in db.jobs && LacksPolicy(db.jobs[id], tasks, now)
    {
      if id in db.jobs {
        LacksPolicyIff(db.jobs[id], tasks, now);
      }
    }
  }

  lemma FailedAre(db: Db, dispatched: Db, tasks: Tasks, ids: seq<JobId>, failures: seq<JobId>, now: Time)
    requires dispatched.failed == db.failed && Distinct(failures)
    requires forall id :: id in failures <==> id in ids && id in db.jobs && LacksPolicy(db.jobs[id], tasks, now)
    ensures Refailed(db, FailAll(dispatched, failures, now), tasks, ids, now)
  {
    FailAllIs(dispatched, failures, now);
    hide FailAll, LacksPolicy, Distinct;
  }

  /** Rows taken from the failed table, and what became of them. */
  ghost predicate Retried(db: Db, after: Db, tasks: Tasks, taken: set<JobId>, now: Time) {
    && (forall id :: id !in taken ==> (id in after.failed <==> id in db.failed)
                                      && (id in db.failed ==> after.failed[id] == db.failed[id]))
    && (forall id :: id in taken ==> id in db.jobs && (id in after.failed <==> LacksPolicy(db.jobs[id], tasks, now)))
    && (forall id :: id in taken && id in after.failed ==>
          after.failed[id].createdAt == now && after.failed[id].retryAt == None)
  }

  lemma RetriedFromRefailed(db: Db, evicted: Db, after: Db, tasks: Tasks, ids: seq<JobId>, now: Time)
    requires evicted == db.(failed := db.failed - Members(ids)) && Refailed(evicted, after, tasks, ids, now)
    requires forall id :: id in ids ==> id in db.jobs
    ensures Retried(db, after, tasks, Members(ids), now)
  {
    hide LacksPolicy;
  }

  lemma EvictedFailures(db: Db, ids: seq<JobId>)
    ensures EvictAll(db, Failed, ids) == db.(failed := db.failed - Members(ids))
  {
    EvictAllIs(db, Failed, ids);
    hide EvictAll;
  }

  /** A failed job of the backend, not locked, among those asked for. */
  predicate MayRetry(db: Db, cfg: Config, only: Option<set<JobId>>, hidden: set<JobId>, id: JobId) {
    id in db.failed && id !in hidden && id in db.jobs && db.jobs[id].backend == cfg.backend && (only.Some? ==> id in only.value)
  }

  function MayRetryIn(db: Db, cfg: Config, only: Option<set<JobId>>, hidden: set<JobId>): JobId -> bool {
    (id: JobId) => MayRetry(db, cfg, only, hidden, id)
  }

  function FailedPks(db: Db): JobId -> Columns {
    (id: JobId) => (0, 0, if id in db.failed then db.failed[id].pk else 0)
  }

  function RetriedIds(db: Db, cfg: Config, only: Option<set<JobId>>, batch: nat, hidden: set<JobId>): seq<JobId> {
    var eligible := set id | id in FailedOf(db, cfg, hidden) && (only.Some? ==> id in only.value);
    Batch(eligible, FailedColumns(db), batch)
  }

  lemma RetriedIdsAreFirst(db: Db, cfg: Config, only: Option<set<JobId>>, batch: nat, hidden: set<JobId>)
    ensures AreFirst(Members(RetriedIds(db, cfg, only, batch, hidden)), MayRetryIn(db, cfg, only, hidden), FailedPks(db), batch)
    ensures Distinct(RetriedIds(db, cfg, only, batch, hidden))
    ensures forall id :: id in RetriedIds(db, cfg, only, batch, hidden) ==> id in db.jobs
  {
    var eligible := set id | id in FailedOf(db, cfg, hidden) && (only.Some? ==> id in only.value);
    BatchMembers(eligible, FailedColumns(db), batch);
    hide Batch, AreFirst, Distinct;
    BatchIsFirstOf(eligible, FailedColumns(db), batch, MayRetryIn(db, cfg, only, hidden), FailedPks(db));
  }

  lemma RetryFailedTakesFirst(
    db: Db, cfg: Config, tasks: Tasks, only: Option<set<JobId>>, batch: nat, hidden: set<JobId>, now: Time)
    returns (taken: set<JobId>)
    requires RetryFailed(db, cfg, tasks, only, batch, hidden, now).Ok?
    ensures AreFirst(taken, MayRetryIn(db, cfg, only, hidden), FailedPks(db), batch)
    ensures Retried(db, RetryFailed(db, cfg, tasks, only, batch, hidden, now).value, tasks, taken, now)
  {
    hide *;
    var ids := RetriedIds(db, cfg, only, batch, hidden);
    taken := Members(ids);
    var evicted := EvictAll(db, Failed, ids);
    RetriedIdsUnfold(db, cfg, tasks, only, batch, hidden, now);
    EvictedFailures(db, ids);
    RetriedIdsAreFirst(db, cfg, only, batch, hidden);
    RedispatchRefails(evicted, tasks, ids, true, now);
    RetriedFromRefailed(db, evicted, Redispatch(evicted, tasks, ids, true, now).value, tasks, ids, now);
  }

  lemma RetriedIdsUnfold(
    db: Db, cfg: Config, tasks: Tasks, only: Option<set<JobId>>, batch: nat, hidden: set<JobId>, now: Time)
    ensures var ids := RetriedIds(db, cfg, only, batch, hidden);
            RetryFailed(db, cfg, tasks, only, batch, hidden, now)
            == Redispatch(EvictAll(db, Failed, ids), tasks, ids, true, now)
  {
    hide Redispatch, EvictAll, Batch;
  }

  /** A failed job of the backend, not locked, with a retry date that has come. */
  predicate RetryDue(db: Db, cfg: Config, hidden: set<JobId>, now: Time, id: JobId) {
    && id in db.failed && id !in hidden && id in db.jobs && db.jobs[id].backend == cfg.backend
    && db.failed[id].retryAt.Some? && db.failed[id].retryAt.value <= now
  }

  function RetryDueIn(db: Db, cfg: Config, hidden: set<JobId>, now: Time): JobId -> bool {
    (id: JobId) => RetryDue(db, cfg, hidden, now, id)
  }

  function RetryDates(db: Db): JobId -> Columns {
    (id: JobId) => if id in db.failed && db.failed[id].retryAt.Some? then (db.failed[id].retryAt.value, 0, db.failed[id].pk) else (0, 0, 0)
  }

  function DueRetries(db: Db, cfg: Config, batch: nat, hidden: set<JobId>, now: Time): seq<JobId> {
    var eligible := set id | id in FailedOf(db, cfg, hidden) && db.failed[id].retryAt.Some? && db.failed[id].retryAt.value <= now;
    Batch(eligible, RetryColumns(db), batch)
  }

  lemma DueRetriesAreFirst(db: Db, cfg: Config, batch: nat, hidden: set<JobId>, now: Time)
    ensures AreFirst(Members(DueRetries(db, cfg, batch, hidden, now)), RetryDueIn(db, cfg, hidden, now), RetryDates(db), batch)
    ensures Distinct(DueRetries(db, cfg, batch, hidden, now))
    ensures forall id :: id in DueRetries(db, cfg, batch, hidden, now) ==> id in db.jobs
  {
    var eligible := set id | id in FailedOf(db, cfg, hidden) && db.failed[id].retryAt.Some? && db.failed[id].retryAt.value <= now;
    BatchMembers(eligible, RetryColumns(db), batch);
    hide Batch, AreFirst, Distinct;
    BatchIsFirstOf(eligible, RetryColumns(db), batch, RetryDueIn(db, cfg, hidden, now), RetryDates(db));
  }

  lemma PromoteRetriesTakesFirst(db: Db, cfg: Config, tasks: Tasks, batch: nat, hidden: set<JobId>, now: Time)
    returns (taken: set<JobId>)
    requires PromoteRetries(db, cfg, tasks, batch, hidden, now).Ok?
    ensures AreFirst(taken, RetryDueIn(db, cfg, hidden, now), RetryDates(db), batch)
    ensures Retried(db, PromoteRetries(db, cfg, tasks, batch, hidden, now).value, tasks, taken, now)
  {
    hide *;
    var ids := DueRetries(db, cfg, batch, hidden, now);
    taken := Members(ids);
    var evicted := EvictAll(db, Failed, ids);
    DueRetriesUnfold(db, cfg, tasks, batch, hidden, now);
    EvictedFailures(db, ids);
    DueRetriesAreFirst(db, cfg, batch, hidden, now);
    RedispatchRefails(evicted, tasks, ids, true, now);
    RetriedFromRefailed(db, evicted, Redispatch(evicted, tasks, ids, true, now).value, tasks, ids, now);
  }

  lemma DueRetriesUnfold(db: Db, cfg: Config, tasks: Tasks, batch: nat, hidden: set<JobId>, now: Time)
    ensures var ids := DueRetries(db, cfg, batch, hidden, now);
            PromoteRetries(db, cfg, tasks, batch, hidden, now)
            == Redispatch(EvictAll(db, Failed, ids), tasks, ids, true, now)
  {
    hide Redispatch, EvictAll, Batch;
  }

  /** One failed job by hand: it is retried if the backend has it as failed and its policy can be told. */
  lemma RetryOneOutcome(db: Db, cfg: Config, tasks: Tasks, id: JobId, now: Time)
    requires Valid(db)
    ensures var r := RetryOne(db, cfg, tasks, id, now);
            && (r.Ok? <==> id in db.failed && db.jobs[id].backend == cfg.backend && !LacksPolicy(db.jobs[id], tasks, now))
            && (r.Ok? ==> r.value.failed == db.failed - {id})
  {
    hide Good, Redispatch, LacksPolicy, Live, Valid;
    if id in db.failed {
      GoodFailed(db, id);
      var evicted := Evict(db, Failed, id);
      RedispatchOneIff(evicted, tasks, id, now);
      if RetryOne(db, cfg, tasks, id, now).Ok? {
        RedispatchRefails(evicted, tasks, [id], false, now);
        OneRefailed(evicted, Redispatch(evicted, tasks, [id], false, now).value, tasks, id, now);
      }
    }
  }

  lemma OneRefailed(db: Db, after: Db, tasks: Tasks, id: JobId, now: Time)
    requires Refailed(db, after, tasks, [id], now) && id in db.jobs && !LacksPolicy(db.jobs[id], tasks, now)
    ensures after.failed == db.failed
  {
    hide LacksPolicy;
    forall j
      ensures j in after.failed <==> j in db.failed
      ensures j in after.failed ==> j in db.failed && after.failed[j] == db.failed[j]
    {
      if j in [id] {
        assert j == id;
      }
    }
  }

  lemma RedispatchOneIff(db: Db, tasks: Tasks, id: JobId, now: Time)
    requires id in db.jobs && !Live(db, id)
    ensures Redispatch(db, tasks, [id], false, now).Ok? <==> !LacksPolicy(db.jobs[id], tasks, now)
  {
    OneFailure(db, tasks, id, now);
    hide Bulk, FailAll, Tickets, LacksPolicy, Live, Decide, Where;
  }

  lemma GoodFailed(db: Db, id: JobId)
    requires Valid(db) && id in db.failed
    ensures id in db.jobs && !Live(Evict(db, Failed, id), id)
  {
    assert Live(db, id);
    assert StateCount(db, id) == 1;
  }

  lemma OneFailure(db: Db, tasks: Tasks, id: JobId, now: Time)
    requires id in db.jobs
    ensures Where([id], (j: JobId) => Undecidable(db, tasks, j, now)) == [] <==> !LacksPolicy(db.jobs[id], tasks, now)
  {
    LacksPolicyIff(db.jobs[id], tasks, now);
    assert [id][1..] == [];
    hide LacksPolicy, Decide;
  }

  lemma ScheduleRetryOutcome(db: Db, cfg: Config, id: JobId, at: Time)
    ensures var r := ScheduleRetry(db, cfg, id, at);
            && (r.Ok? <==> id in db.failed && id in db.jobs && db.jobs[id].backend == cfg.backend)
            && (r.Ok? ==> && r.value == db.(failed := r.value.failed) && r.value.failed.Keys == db.failed.Keys
                          && r.value.failed[id] == FailedRow(db.failed[id].pk, db.failed[id].createdAt, Some(at))
                          && forall j :: j in db.failed && j != id ==> r.value.failed[j] == db.failed[j])
  {
  }

  // ---------------------------------------------------------------- due jobs

  /** A scheduled row of the backend, not locked, whose date has come. */
  predicate Due(db: Db, cfg: Config, hidden: set<JobId>, now: Time, id: JobId) {
    && id in db.scheduled && id !in hidden && db.scheduled[id].backend == cfg.backend
    && db.scheduled[id].scheduledAt <= now
  }

  function DueIn(db: Db, cfg: Config, hidden: set<JobId>, now: Time): JobId -> bool {
    (id: JobId) => Due(db, cfg, hidden, now, id)
  }

  function Schedules(db: Db): JobId -> Columns {
    (id: JobId) => if id in db.scheduled then (db.scheduled[id].scheduledAt, db.scheduled[id].priority, db.scheduled[id].pk)
                   else (0, 0, 0)
  }

  /**
   The first due rows by date, priority and id leave the scheduled table, but for jobs given a later date meanwhile;
   every other row stays as it is.
   */
  lemma PromoteScheduledTakesFirst(db: Db, cfg: Config, tasks: Tasks, batch: nat, hidden: set<JobId>, now: Time)
    returns (taken: set<JobId>)
    requires PromoteScheduled(db, cfg, tasks, batch, hidden, now).Ok?
    ensures AreFirst(taken, DueIn(db, cfg, hidden, now), Schedules(db), batch)
    ensures var after := PromoteScheduled(db, cfg, tasks, batch, hidden, now).value;
            && (forall id :: id !in taken ==> (id in after.scheduled <==> id in db.scheduled)
                                              && (id in db.scheduled ==> after.scheduled[id] == db.scheduled[id]))
            && (forall id :: id in taken && !Postponed(db, id, now) ==> id !in after.scheduled)
  {
    var due := DueScheduled(db, cfg, hidden, now);
    taken := Members(Batch(due, ScheduledColumns(db), batch));
    hide Batch, AreFirst, PromoteScheduled;
    BatchIsFirstOf(due, ScheduledColumns(db), batch, DueIn(db, cfg, hidden, now), Schedules(db));
    forall id
      ensures id in taken <==> id in Batch(due, ScheduledColumns(db), batch)
    {
    }
    forall id
    {
      PromoteScheduledLeaves(db, cfg, tasks, batch, hidden, now, id);
    }
  }

  /** One scheduled job by hand: its row goes and its date with it, and without a key it is ready. */
  lemma DispatchNowOutcome(db: Db, cfg: Config, tasks: Tasks, id: JobId, hidden: set<JobId>, now: Time)
    requires Valid(db)
    ensures var r := DispatchNow(db, cfg, tasks, id, hidden, now);
            && (r.Ok? <==> && id in db.scheduled && id !in hidden && db.scheduled[id].backend == cfg.backend
                           && !LacksPolicy(db.jobs[id].(scheduledAt := None), tasks, now))
            && (r.Ok? ==> && id in r.value.jobs && r.value.jobs[id].scheduledAt == None
                          && r.value.scheduled == db.scheduled - {id}
                          && (db.jobs[id].key == None ==> id in r.value.ready))
  {
    if id in db.scheduled && id !in hidden && db.scheduled[id].backend == cfg.backend {
      ClearedGood(db, id);
      var evicted := Evict(db, Scheduled, id);
      var cleared := evicted.(jobs := evicted.jobs[id := evicted.jobs[id].(scheduledAt := None)]);
      LacksPolicyIff(cleared.jobs[id], tasks, now);
      DecidedWithoutDate(cleared.jobs[id], tasks, now);
      hide Good, Live, LacksPolicy, Decide, DispatchOne;
      if DispatchNow(db, cfg, tasks, id, hidden, now).Ok? {
        DispatchedByHand(cleared, Ticket(id, Decide(cleared.jobs[id], tasks, now).value), now);
      }
    }
  }

  lemma DecidedWithoutDate(job: Job, tasks: Tasks, now: Time)
    requires job.scheduledAt == None
    ensures Decide(job, tasks, now).Ok? ==> !Decide(job, tasks, now).value.Later?
    ensures job.key == None ==> Decide(job, tasks, now) == Ok(Immediately)
  {
  }

  lemma DispatchedByHand(db: Db, t: Ticket, now: Time)
    requires t.id in db.jobs && !t.decision.Later?
    ensures var after := DispatchOne(db, t, now);
            && t.id in after.jobs && after.jobs[t.id].scheduledAt == db.jobs[t.id].scheduledAt
            && after.scheduled == db.scheduled && (t.decision.Immediately? ==> t.id in after.ready)
  {
    hide Acquire;
    match t.decision
    case Contend(key, policy) =>
      var (after, acquired) := AcquireSlot(db, key, policy.limit, policy.duration, now);
      PlacedByHand(after, t, acquired, now);
      hide Place;
    case Immediately => PlacedByHand(db, t, true, now);
    case Later =>
  }

  lemma PlacedByHand(db: Db, t: Ticket, acquired: bool, now: Time)
    requires t.id in db.jobs && !OutcomeOf(t.decision, acquired).ToScheduled?
    ensures var after := Place(db, t, acquired, now);
            && t.id in after.jobs && after.jobs[t.id].scheduledAt == db.jobs[t.id].scheduledAt
            && after.scheduled == db.scheduled && (OutcomeOf(t.decision, acquired).ToReady? ==> t.id in after.ready)
  {
    match OutcomeOf(t.decision, acquired)
    case ToReady =>
    case ToBlocked(_, _) =>
    case ToDiscard =>
    case ToScheduled =>
  }
}
