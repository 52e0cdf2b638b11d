/** Every transaction of the job lifecycle, as a function from database to database. */
module Lifecycle {
  import opened Results
  import opened Semaphores
  import opened Ordering
  import opened Tables
  import opened Slots
  import opened Dispatch
  import opened Claiming
  import opened Grouping

  // ---------------------------------------------------------------- batches

  /** `ORDER BY ... LIMIT k` over the rows of the given jobs. */
  function Batch(ids: set<JobId>, columns: JobId -> Entry, k: nat): seq<JobId> {
    Jobs(Take(set id | id in ids :: columns(id).(job := id), k))
  }

  // ---------------------------------------------------------------- enqueue

  datatype Submission = Submission(
    taskPath: string,
    queue: string,
    priority: int,
    runAfter: Option<Time>,
    contention: Option<(string, Policy)>
  )

  function NewJob(cfg: Config, s: Submission): Job {
    Job(cfg.backend, s.taskPath, s.queue, s.priority, s.runAfter,
        if s.contention.Some? then Some(s.contention.value.0) else None,
        if s.contention.Some? then Persisted(s.contention.value.1) else Historical,
        None)
  }

  function InsertJob(db: Db, id: JobId, job: Job): Db {
    db.(jobs := db.jobs[id := job])
  }

  function Enqueue(db: Db, cfg: Config, tasks: Tasks, id: JobId, s: Submission, now: Time): Result<Db> {
    var _ :- Need(id !in db.jobs, Duplicate);
    var job := NewJob(cfg, s);
    var decision :- Decide(job, tasks, now);
    Ok(DispatchOne(InsertJob(db, id, job), Ticket(id, decision), now))
  }

  function InsertAll(db: Db, cfg: Config, items: seq<(JobId, Submission)>): Result<Db>
    decreases |items|
  {
    if items == [] then
      Ok(db)
    else
      var _ :- Need(items[0].0 !in db.jobs, Duplicate);
      InsertAll(InsertJob(db, items[0].0, NewJob(cfg, items[0].1)), cfg, items[1..])
  }

  /** The jobs with a dispatch decision, in order. */
  function Tickets(db: Db, tasks: Tasks, ids: seq<JobId>, now: Time): seq<Ticket>
    decreases |ids|
  {
    if ids == [] then
      []
    else
      var rest := Tickets(db, tasks, ids[1..], now);
      if ids[0] !in db.jobs then
        rest
      else
        match Decide(db.jobs[ids[0]], tasks, now)
        case Ok(decision) => [Ticket(ids[0], decision)] + rest
        case Err(_) => rest
  }

  predicate Undecidable(db: Db, tasks: Tasks, id: JobId, now: Time) {
    id in db.jobs && Decide(db.jobs[id], tasks, now).Err?
  }

  function EnqueueBulk(db: Db, cfg: Config, tasks: Tasks, items: seq<(JobId, Submission)>, now: Time): Result<Db> {
    var inserted :- InsertAll(db, cfg, items);
    var ids := seq(|items|, i requires 0 <= i < |items| => items[i].0);
    Ok(Bulk(inserted, Tickets(inserted, tasks, ids, now), now))
  }

  // ---------------------------------------------------------------- redispatch

  function FailAll(db: Db, ids: seq<JobId>, now: Time): Db
    decreases |ids|
  {
    if ids == [] then db else FailAll(PutFailed(db, ids[0], now), ids[1..], now)
  }

  /** Jobs whose state rows were consumed go through dispatch again. */
  function Redispatch(db: Db, tasks: Tasks, ids: seq<JobId>, isolate: bool, now: Time): Result<Db> {
    var _ :- Need(forall id :: id in ids ==> !Live(db, id), Conflict);
    var failures := Where(ids, (id: JobId) => Undecidable(db, tasks, id, now));
    var _ :- Need(isolate || failures == [], PolicyError);
    Ok(FailAll(Bulk(db, Tickets(db, tasks, ids, now), now), failures, now))
  }

  function DueScheduled(db: Db, cfg: Config, hidden: set<JobId>, now: Time): set<JobId> {
    set id | id in db.scheduled && id !in hidden && db.scheduled[id].backend == cfg.backend
             && db.scheduled[id].scheduledAt <= now
  }

  function ScheduledColumns(db: Db): JobId -> Entry {
    (id: JobId) => if id in db.scheduled
                   then Entry(db.scheduled[id].scheduledAt, db.scheduled[id].priority, db.scheduled[id].pk, id)
                   else Entry(0, 0, 0, id)
  }

  function PromoteScheduled(db: Db, cfg: Config, tasks: Tasks, batch: nat, hidden: set<JobId>, now: Time): Result<Db> {
    var ids := Batch(DueScheduled(db, cfg, hidden, now), ScheduledColumns(db), batch);
    Redispatch(EvictAll(db, Scheduled, ids), tasks, ids, true, now)
  }

  /** A scheduled job dispatched by hand, its date cleared. */
  function DispatchNow(db: Db, cfg: Config, tasks: Tasks, id: JobId, hidden: set<JobId>, now: Time): Result<Db> {
    var _ :- Need(id in db.scheduled && id !in hidden && db.scheduled[id].backend == cfg.backend, Missing);
    var _ :- Need(id in db.jobs && db.jobs[id].backend == cfg.backend, ForeignBackend);
    var evicted := Evict(db, Scheduled, id);
    var cleared := evicted.(jobs := evicted.jobs[id := evicted.jobs[id].(scheduledAt := None)]);
    var decision :- Decide(cleared.jobs[id], tasks, now);
    var _ :- Need(!Live(cleared, id), Conflict);
    Ok(DispatchOne(cleared, Ticket(id, decision), now))
  }

  function FailedOf(db: Db, cfg: Config, hidden: set<JobId>): set<JobId> {
    set id | id in db.failed && id !in hidden && id in db.jobs && db.jobs[id].backend == cfg.backend
  }

  function FailedColumns(db: Db): JobId -> Entry {
    (id: JobId) => if id in db.failed then Entry(0, 0, db.failed[id].pk, id) else Entry(0, 0, 0, id)
  }

  function RetryColumns(db: Db): JobId -> Entry {
    (id: JobId) => if id in db.failed && db.failed[id].retryAt.Some?
                   then Entry(db.failed[id].retryAt.value, 0, db.failed[id].pk, id) else Entry(0, 0, 0, id)
  }

  function RetryFailed(
    db: Db, cfg: Config, tasks: Tasks, only: Option<set<JobId>>, batch: nat, hidden: set<JobId>, now: Time): Result<Db>
  {
    var eligible := set id | id in FailedOf(db, cfg, hidden) && (only.Some? ==> id in only.value);
    var ids := Batch(eligible, FailedColumns(db), batch);
    Redispatch(EvictAll(db, Failed, ids), tasks, ids, true, now)
  }

  function RetryOne(db: Db, cfg: Config, tasks: Tasks, id: JobId, now: Time): Result<Db> {
    var _ :- Need(id in FailedOf(db, cfg, {}), Missing);
    Redispatch(Evict(db, Failed, id), tasks, [id], false, now)
  }

  function PromoteRetries(db: Db, cfg: Config, tasks: Tasks, batch: nat, hidden: set<JobId>, now: Time): Result<Db> {
    var due := set id | id in FailedOf(db, cfg, hidden) && db.failed[id].retryAt.Some? && db.failed[id].retryAt.value <= now;
    var ids := Batch(due, RetryColumns(db), batch);
    Redispatch(EvictAll(db, Failed, ids), tasks, ids, true, now)
  }

  function ScheduleRetry(db: Db, cfg: Config, id: JobId, at: Time): Result<Db> {
    var _ :- Need(id in FailedOf(db, cfg, {}), Missing);
    Ok(db.(failed := db.failed[id := db.failed[id].(retryAt := Some(at))]))
  }

  // ---------------------------------------------------------------- claim

  function Visible(db: Db, cfg: Config, hidden: set<JobId>): set<JobId> {
    set id | id in db.ready && id !in hidden && db.ready[id].backend == cfg.backend
             && (cfg.backend, db.ready[id].queue) !in db.pauses
  }

  function ClaimAll(db: Db, ids: seq<JobId>, process: Option<ProcessId>): Db
    decreases |ids|
  {
    if ids == [] then db else ClaimAll(PutClaimed(Evict(db, Ready, ids[0]), ids[0], process), ids[1..], process)
  }

  /** The jobs a claim takes; `paused` are queues paused after the rows were selected. */
  function ClaimedIds(db: Db, cfg: Config, queues: Queues, limit: nat, hidden: set<JobId>, paused: set<string>)
    : seq<JobId>
  {
    Where(Selection(db.ready, SelectorsOf(queues), Visible(db, cfg, hidden), limit),
         (id: JobId) => id in db.ready && db.ready[id].queue !in paused)
  }

  /** The selected rows belong to the backend, and their jobs have no other state row. */
  function CheckSelected(db: Db, cfg: Config, rows: seq<JobId>): Result<()> {
    var _ :- Need(forall id :: id in rows ==> id in db.jobs && db.jobs[id].backend == cfg.backend, ForeignBackend);
    Need(forall id :: id in rows ==> !Live(Evict(db, Ready, id), id), Conflict)
  }

  function Claim(
    db: Db, cfg: Config, queues: Queues, limit: nat, process: Option<ProcessId>, hidden: set<JobId>,
    paused: set<string>): Result<Db>
  {
    var _ :- Need(process.Some? ==> process.value in db.processes && db.processes[process.value].backend == cfg.backend,
                  ForeignProcess);
    var rows := Selection(db.ready, SelectorsOf(queues), Visible(db, cfg, hidden), limit);
    var _ :- CheckSelected(db, cfg, rows);
    Ok(ClaimAll(db, ClaimedIds(db, cfg, queues, limit, hidden, paused), process))
  }

  // ---------------------------------------------------------------- complete, fail, discard

  function CompleteClaimed(db: Db, cfg: Config, tasks: Tasks, id: JobId, hidden: set<JobId>, now: Time): Result<Db> {
    var _ :- Need(id in db.claimed && id in db.jobs && db.jobs[id].backend == cfg.backend, Missing);
    var evicted := Evict(db, Claimed, id);
    var _ :- Need(!Live(evicted, id), Conflict);
    var done := if cfg.preserveFinished then SetFinished(evicted, id, Some(now)) else DeleteJob(evicted, id);
    ReleaseSlot(done, cfg, tasks, db.jobs[id], hidden, now)
  }

  function FailClaimed(db: Db, cfg: Config, tasks: Tasks, id: JobId, hidden: set<JobId>, now: Time): Result<Db> {
    var _ :- Need(id in db.claimed && id in db.jobs && db.jobs[id].backend == cfg.backend, Missing);
    var evicted := Evict(db, Claimed, id);
    var _ :- Need(!Live(evicted, id), Conflict);
    ReleaseSlot(PutFailed(evicted, id, now), cfg, tasks, db.jobs[id], hidden, now)
  }

  function DeleteAll(db: Db, ids: seq<JobId>): Db
    decreases |ids|
  {
    if ids == [] then db else DeleteAll(DeleteJob(db, ids[0]), ids[1..])
  }

  predicate Discardable(db: Db, cfg: Config, table: Table, id: JobId, queue: Option<string>) {
    match table
    case Ready => id in db.ready && db.ready[id].backend == cfg.backend && (queue.Some? ==> db.ready[id].queue == queue.value)
    case Scheduled =>
      id in db.scheduled && db.scheduled[id].backend == cfg.backend && (queue.Some? ==> db.scheduled[id].queue == queue.value)
    case Blocked =>
      id in db.blocked && db.blocked[id].backend == cfg.backend && (queue.Some? ==> db.blocked[id].queue == queue.value)
    case Failed => id in FailedOf(db, cfg, {})
    case Claimed => false
  }

  function RowColumns(db: Db, table: Table): JobId -> Entry {
    (id: JobId) =>
      if table.Ready? && id in db.ready then Entry(0, 0, db.ready[id].pk, id)
      else if table.Scheduled? && id in db.scheduled then Entry(0, 0, db.scheduled[id].pk, id)
      else if table.Blocked? && id in db.blocked then Entry(0, 0, db.blocked[id].pk, id)
      else if table.Failed? && id in db.failed then Entry(0, 0, db.failed[id].pk, id)
      else Entry(0, 0, 0, id)
  }

  function DiscardIds(
    db: Db, cfg: Config, table: Table, only: Option<set<JobId>>, queue: Option<string>, batch: nat, hidden: set<JobId>)
    : seq<JobId>
  {
    var eligible := set id | id in db.jobs && id !in hidden && Discardable(db, cfg, table, id, queue)
                             && (only.Some? ==> id in only.value);
    Batch(eligible, RowColumns(db, table), batch)
  }

  /** Jobs in one state deleted in a batch; ready jobs give their slots back. */
  function DiscardRows(
    db: Db, cfg: Config, tasks: Tasks, table: Table, only: Option<set<JobId>>, queue: Option<string>, batch: nat,
    hidden: set<JobId>, now: Time): Result<Db>
  {
    var _ :- Need(!table.Claimed?, Missing);
    var ids := DiscardIds(db, cfg, table, only, queue, batch, hidden);
    var _ :- Need(forall id :: id in ids ==> id in db.jobs && db.jobs[id].backend == cfg.backend, ForeignBackend);
    DeleteAndRelease(db, cfg, tasks, table, ids, hidden, now)
  }

  function DeleteAndRelease(
    db: Db, cfg: Config, tasks: Tasks, table: Table, ids: seq<JobId>, hidden: set<JobId>, now: Time): Result<Db>
    requires forall id :: id in ids ==> id in db.jobs
  {
    var evicted := EvictAll(db, table, ids);
    var _ :- Need(forall id :: id in ids ==> !Live(evicted, id), Conflict);
    var deleted := DeleteAll(evicted, ids);
    if table.Ready? then ReleaseSlots(deleted, cfg, tasks, JobsOf(db, ids), hidden, now) else Ok(deleted)
  }

  // ---------------------------------------------------------------- crash recovery

  const KeyOf: Job -> Option<string> := (job: Job) => job.key

  const HasKey: Job -> bool := (job: Job) => job.key.Some?

  /** The jobs with the key, or the jobs without it. */
  function KeepJobs(jobs: seq<Job>, key: string, same: bool): (r: seq<Job>)
    ensures |r| <= |jobs|
  {
    Where(jobs, if same then KeyIs(KeyOf, Some(key)) else KeyIsNot(KeyOf, Some(key)))
  }

  /** The release settings all jobs of a group agree on, if they do. */
  function GroupSettings(db: Db, cfg: Config, tasks: Tasks, group: seq<Job>, key: string): Option<(Positive, Positive)>
  {
    if group == [] then None else
    var first := ReleaseSettings(db, cfg, tasks, group[0], key);
    if forall j :: j in group ==> ReleaseSettings(db, cfg, tasks, j, key) == first then Some(first) else None
  }

  /** Key by key, in the order the keys first occur; groups without common settings are left over. */
  function ReleaseRecovered(
    db: Db, cfg: Config, tasks: Tasks, jobs: seq<Job>, leftover: seq<Job>, hidden: set<JobId>, now: Time)
    : Result<(Db, seq<Job>)>
    decreases |jobs|
  {
    if jobs == [] then
      Ok((db, leftover))
    else if jobs[0].key.None? then
      ReleaseRecovered(db, cfg, tasks, jobs[1..], leftover, hidden, now)
    else
      var key := jobs[0].key.value;
      var group := KeepJobs(jobs, key, true);
      var rest := KeepJobs(jobs[1..], key, false);
      match GroupSettings(db, cfg, tasks, group, key)
      case None => ReleaseRecovered(db, cfg, tasks, rest, leftover + group, hidden, now)
      case Some(settings) =>
        var released :- ReleaseGroupOf(db, cfg, key, |group|, settings.0, settings.1, hidden, now);
        ReleaseRecovered(released, cfg, tasks, rest, leftover, hidden, now)
  }

  /** Claims of dead processes failed together, their slots released in groups. */
  function FailClaimedBatch(db: Db, cfg: Config, tasks: Tasks, ids: seq<JobId>, hidden: set<JobId>, now: Time): Result<Db> {
    var _ :- Need(forall id :: id in ids ==> id in db.jobs && db.jobs[id].backend == cfg.backend, Missing);
    var _ :- Need(Distinct(ids) && forall id :: id in ids ==> id in db.claimed, Missing);
    var evicted := EvictAll(db, Claimed, ids);
    var _ :- Need(forall id :: id in ids ==> !Live(evicted, id), Conflict);
    var failed := FailAll(evicted, ids, now);
    var (recovered, leftover) :- ReleaseRecovered(failed, cfg, tasks, Where(JobsOf(db, ids), HasKey), [], hidden, now);
    ReleaseSlots(recovered, cfg, tasks, leftover, hidden, now)
  }

  function ClaimedColumns(db: Db): JobId -> Entry {
    (id: JobId) => if id in db.claimed then Entry(0, 0, db.claimed[id].pk, id) else Entry(0, 0, 0, id)
  }

  function FailOrphaned(db: Db, cfg: Config, tasks: Tasks, batch: nat, hidden: set<JobId>, now: Time): Result<Db> {
    var orphans := set id | id in db.claimed && id !in hidden && db.claimed[id].process.None?
                            && id in db.jobs && db.jobs[id].backend == cfg.backend;
    FailClaimedBatch(db, cfg, tasks, Batch(orphans, ClaimedColumns(db), batch), hidden, now)
  }

  function ClaimsOf(db: Db, process: ProcessId): set<JobId> {
    set id | id in db.claimed && db.claimed[id].process == Some(process)
  }

  function FailForProcess(db: Db, cfg: Config, tasks: Tasks, process: ProcessId, hidden: set<JobId>, now: Time): Result<Db> {
    var claims := ClaimsOf(db, process);
    FailClaimedBatch(db, cfg, tasks, Batch(claims, ClaimedColumns(db), |claims|), hidden, now)
  }

  /** A deleted process leaves its claims orphaned. */
  function DeleteProcess(db: Db, process: ProcessId): Db {
    db.(processes := db.processes - {process},
        claimed := map id | id in db.claimed ::
                     if db.claimed[id].process == Some(process) then db.claimed[id].(process := None) else db.claimed[id])
  }

  predicate Stale(db: Db, cfg: Config, process: ProcessId, cutoff: Time) {
    process in db.processes && db.processes[process].backend == cfg.backend && db.processes[process].heartbeatAt < cutoff
  }

  /** Stale processes one after another, failing at most `remaining` claims in all. */
  function PruneEach(
    db: Db, cfg: Config, tasks: Tasks, processes: seq<ProcessId>, cutoff: Time, remaining: nat, hidden: set<JobId>,
    now: Time): Result<Db>
    decreases |processes|
  {
    if processes == [] then
      Ok(db)
    else if !Stale(db, cfg, processes[0], cutoff) then
      PruneEach(db, cfg, tasks, processes[1..], cutoff, remaining, hidden, now)
    else
      var ids := Batch(ClaimsOf(db, processes[0]), ClaimedColumns(db), remaining);
      var pruned :- FailClaimedBatch(DeleteProcess(db, processes[0]), cfg, tasks, ids, hidden, now);
      if |ids| >= remaining then
        Ok(pruned)
      else
        PruneEach(pruned, cfg, tasks, processes[1..], cutoff, remaining - |ids|, hidden, now)
  }

  function StaleColumns(db: Db): ProcessId -> Entry {
    (p: ProcessId) => if p in db.processes then Entry(db.processes[p].heartbeatAt, 0, p, p) else Entry(0, 0, p, p)
  }

  function PruneStale(
    db: Db, cfg: Config, tasks: Tasks, cutoff: Time, exclude: Option<ProcessId>, batch: nat,
    hiddenProcesses: set<ProcessId>, hidden: set<JobId>, now: Time): Result<Db>
  {
    var stale := set p | p in db.processes && p !in hiddenProcesses && Some(p) != exclude && Stale(db, cfg, p, cutoff);
    PruneEach(db, cfg, tasks, Batch(stale, StaleColumns(db), batch), cutoff, batch, hidden, now)
  }

  // ---------------------------------------------------------------- maintenance

  predicate Collectable(db: Db, key: string, now: Time) {
    key in db.semaphores && db.semaphores[key].expiresAt <= now && Holders(db, key) == {}
  }

  function StaleKeys(db: Db, locked: set<string>, now: Time): set<string> {
    set key | key in locked && Collectable(db, key, now)
  }

  /** Expired semaphore rows among the locked ones, deleted when no ready or claimed job has the key. */
  function CleanupSemaphores(db: Db, locked: set<string>, now: Time): Db {
    var stale := StaleKeys(db, locked, now);
    db.(semaphores := db.semaphores - stale, forgotten := db.forgotten - stale)
  }

  /** One expired blocked row: failed, renewed or promoted; `consumed` rows are already deleted. */
  function ExpireOne(
    db: Db, tasks: Tasks, id: JobId, row: BlockedRow, consumed: bool, now: Time): Result<Db>
  {
    var _ :- Need(id in db.jobs && (consumed || id in db.blocked), Missing);
    match Settings(db.jobs[id], tasks)
    case Err(_) =>
      var evicted := if consumed then db else Evict(db, Blocked, id);
      var _ :- Need(!Live(evicted, id), Conflict);
      Ok(PutFailed(evicted, id, now))
    case Ok(policy) =>
      var (taken, acquired) := AcquireSlot(db, row.key, policy.limit, policy.duration, now);
      if !acquired && !consumed then
        Ok(taken.(blocked := taken.blocked[id := taken.blocked[id].(expiresAt := now + policy.duration)]))
      else
        var evicted := if consumed then taken else Evict(taken, Blocked, id);
        var _ :- Need(!Live(evicted, id), Conflict);
        if acquired then Ok(PutReady(evicted, id, row.backend, row.queue, row.priority))
        else Ok(PutBlocked(evicted, id, row.(expiresAt := now + policy.duration)))
  }

  function ExpireEach(
    db: Db, tasks: Tasks, ids: seq<JobId>, rows: map<JobId, BlockedRow>, consumed: bool, now: Time): Result<Db>
    decreases |ids|
  {
    if ids == [] then
      Ok(db)
    else
      var _ :- Need(ids[0] in rows, Missing);
      var first :- ExpireOne(db, tasks, ids[0], rows[ids[0]], consumed, now);
      ExpireEach(first, tasks, ids[1..], rows, consumed, now)
  }

  function ExpiredBlocked(db: Db, cfg: Config, hidden: set<JobId>, now: Time): set<JobId> {
    set id | id in db.blocked && id !in hidden && db.blocked[id].backend == cfg.backend && db.blocked[id].expiresAt <= now
  }

  function BlockedColumns(db: Db): JobId -> Entry {
    (id: JobId) => if id in db.blocked then Entry(db.blocked[id].expiresAt, db.blocked[id].priority, db.blocked[id].pk, id)
                   else Entry(0, 0, 0, id)
  }

  function PromoteExpired(db: Db, cfg: Config, tasks: Tasks, batch: nat, hidden: set<JobId>, now: Time): Result<Db> {
    var ids := Batch(ExpiredBlocked(db, cfg, hidden, now), BlockedColumns(db), batch);
    var _ :- Need(forall id :: id in ids ==> id in db.jobs && db.jobs[id].backend == cfg.backend, ForeignBackend);
    var consumed := cfg.family.Sqlite?;
    ExpireEach(if consumed then EvictAll(db, Blocked, ids) else db, tasks, ids, db.blocked, consumed, now)
  }

  function FinishedColumns(db: Db): JobId -> Entry {
    (id: JobId) => if id in db.jobs && db.jobs[id].finishedAt.Some? then Entry(db.jobs[id].finishedAt.value, 0, 0, id)
                   else Entry(0, 0, 0, id)
  }

  function ClearFinished(db: Db, cfg: Config, cutoff: Time, task: Option<string>, batch: nat, hidden: set<JobId>): Result<Db> {
    var aged := set id | id in db.jobs && id !in hidden && db.jobs[id].backend == cfg.backend
                        && db.jobs[id].finishedAt.Some? && db.jobs[id].finishedAt.value < cutoff
                        && (task.Some? ==> db.jobs[id].taskPath == task.value);
    var ids := Batch(aged, FinishedColumns(db), batch);
    var _ :- Need(forall id :: id in ids ==> !Live(db, id), Conflict);
    Ok(DeleteAll(db, ids))
  }

  function FailureColumns(db: Db): JobId -> Entry {
    (id: JobId) => if id in db.failed then Entry(db.failed[id].createdAt, 0, 0, id) else Entry(0, 0, 0, id)
  }

  function ClearFailed(db: Db, cfg: Config, cutoff: Time, task: Option<string>, batch: nat, hidden: set<JobId>): Result<Db> {
    var aged := set id | id in FailedOf(db, cfg, hidden) && db.failed[id].createdAt < cutoff
                        && (task.Some? ==> db.jobs[id].taskPath == task.value);
    var ids := Batch(aged, FailureColumns(db), batch);
    var evicted := EvictAll(db, Failed, ids);
    var _ :- Need(forall id :: id in ids ==> !Live(evicted, id), Conflict);
    Ok(DeleteAll(evicted, ids))
  }
}
