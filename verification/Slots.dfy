/**
 Slots of the queue database: taking them, handing them from a departing job to a blocked one,
 releasing them one by one or as a recovered group.

 `hidden` is the set of blocked jobs whose rows another transaction has locked, which
 `SKIP LOCKED` leaves out of a selection.
 */
module Slots {
  import opened Results
  import opened Semaphores
  import opened Ordering
  import opened Tables

  // ---------------------------------------------------------------- policies

  function Settings(job: Job, tasks: Tasks): Result<Policy> {
    match job.policy
    case Persisted(policy) => Ok(policy)
    case Historical => if job.taskPath in tasks then Ok(tasks[job.taskPath]) else Err(PolicyError)
    case Unusable => Err(PolicyError)
  }

  /** A release falls back to the stored limit when the policy cannot be resolved. */
  function ReleaseSettings(db: Db, cfg: Config, tasks: Tasks, job: Job, key: string): (Positive, Positive) {
    match Settings(job, tasks)
    case Ok(policy) => (policy.limit, policy.duration)
    case Err(_) =>
      (if key in db.semaphores && db.semaphores[key].limit >= 1 then db.semaphores[key].limit else 1,
       cfg.defaultDuration)
  }

  // ---------------------------------------------------------------- semaphore rows in the database

  /** Records in the history that `limit` was offered with `returned` slots coming back. */
  function Offer(db: Db, key: string, limit: Positive, returned: nat): set<string> {
    if limit < Slots(db, key) - returned then db.forgotten + {key} else db.forgotten
  }

  function AcquireSlot(db: Db, key: string, limit: Positive, duration: int, now: Time): (Db, bool) {
    var (row, acquired) := Acquire(Lookup(db.semaphores, key), limit, now + duration, now);
    (db.(semaphores := db.semaphores[key := row], forgotten := Offer(db, key, limit, 0)), acquired)
  }

  function AcquireSlots(db: Db, key: string, count: nat, limit: Positive, duration: int, now: Time): (Db, nat) {
    var (row, taken) := AcquireMany(Lookup(db.semaphores, key), count, limit, now + duration, now);
    if row.None? then
      (db, taken)
    else
      (db.(semaphores := db.semaphores[key := row.value],
           forgotten := if count == 0 then db.forgotten else Offer(db, key, limit, 0)), taken)
  }

  function ReleaseSemaphore(db: Db, key: string, limit: Positive, duration: int, now: Time): Db {
    if key in db.semaphores then
      db.(semaphores := db.semaphores[key := Release(db.semaphores[key], limit, now + duration, now)],
          forgotten := Offer(db, key, limit, 1))
    else
      db
  }

  datatype HandoffMode = ReleaseClaimed | ConsumeFreed

  function TakeForBlocked(db: Db, key: string, limit: Positive, duration: int, mode: HandoffMode, now: Time)
    : (Db, bool)
  {
    if key !in db.semaphores then
      (db, false)
    else
      var s := db.semaphores[key];
      var (row, acquired) := if mode.ReleaseClaimed? then Handoff(s, limit, now + duration, now)
                             else ConsumeReleased(s, limit, now + duration, now);
      (db.(semaphores := db.semaphores[key := row]), acquired)
  }

  // ---------------------------------------------------------------- blocked jobs

  predicate Waits(db: Db, backend: string, key: string, hidden: set<JobId>, id: JobId) {
    id in db.blocked && id !in hidden && db.blocked[id].backend == backend && db.blocked[id].key == key
  }

  /** The sort columns of the visible blocked rows of a key. */
  function Waiting(db: Db, backend: string, key: string, hidden: set<JobId>): set<Entry> {
    set id | id in db.blocked && Waits(db, backend, key, hidden, id)
      :: Entry(0, db.blocked[id].priority, db.blocked[id].pk, id)
  }

  /** A blocked job becomes ready in the queue and with the priority of its blocked row. */
  function Promote(db: Db, backend: string, id: JobId): Result<Db>
    requires id in db.blocked
  {
    var row := db.blocked[id];
    var evicted := Evict(db, Blocked, id);
    var _ :- Need(!Live(evicted, id), Conflict);
    Ok(PutReady(evicted, id, backend, row.queue, row.priority))
  }

  /** A consumed blocked row put back, as a new row. */
  function Restore(db: Db, id: JobId): Result<Db>
    requires id in db.blocked
  {
    var evicted := Evict(db, Blocked, id);
    var _ :- Need(!Live(evicted, id), Conflict);
    Ok(PutBlocked(evicted, id, db.blocked[id]))
  }

  function UnblockNext(
    db: Db, cfg: Config, key: string, limit: Positive, duration: int, mode: HandoffMode, hidden: set<JobId>,
    now: Time): Result<(Db, bool)>
  {
    var waiting := Waiting(db, cfg.backend, key, hidden);
    if waiting == {} then
      Ok((db, false))
    else
      var id := Least(waiting).job;
      var _ :- Need(id in db.jobs && db.jobs[id].backend == cfg.backend, ForeignBackend);
      var (taken, acquired) := TakeForBlocked(db, key, limit, duration, mode, now);
      if acquired then
        var promoted :- Promote(taken, cfg.backend, id);
        Ok((promoted, true))
      else if mode.ReleaseClaimed? && cfg.family.Postgres? then
        Ok((taken, false))
      else
        var restored :- Restore(taken, id);
        Ok((restored, false))
  }

  /** The slot of a job that has left goes to the first blocked job, else back to the semaphore. */
  function ReleaseKey(
    db: Db, cfg: Config, key: string, limit: Positive, duration: int, hidden: set<JobId>, now: Time): Result<Db>
  {
    var (first, unblocked) :- UnblockNext(db, cfg, key, limit, duration, ReleaseClaimed, hidden, now);
    if unblocked then
      Ok(first)
    else
      var released := ReleaseSemaphore(first, key, limit, duration, now);
      var (second, _) :- UnblockNext(released, cfg, key, limit, duration, ConsumeFreed, hidden, now);
      Ok(second)
  }

  function ReleaseSlot(db: Db, cfg: Config, tasks: Tasks, job: Job, hidden: set<JobId>, now: Time): Result<Db> {
    match job.key
    case None => Ok(db)
    case Some(key) =>
      var (limit, duration) := ReleaseSettings(db, cfg, tasks, job, key);
      ReleaseKey(db, cfg, key, limit, duration, hidden, now)
  }

  function ReleaseSlots(db: Db, cfg: Config, tasks: Tasks, jobs: seq<Job>, hidden: set<JobId>, now: Time)
    : Result<Db>
    decreases |jobs|
  {
    if jobs == [] then
      Ok(db)
    else
      var first :- ReleaseSlot(db, cfg, tasks, jobs[0], hidden, now);
      ReleaseSlots(first, cfg, tasks, jobs[1..], hidden, now)
  }

  // ---------------------------------------------------------------- recovered groups

  function PromoteAll(db: Db, backend: string, ids: seq<JobId>): Result<Db>
    decreases |ids|
  {
    if ids == [] then
      Ok(db)
    else
      var _ :- Need(ids[0] in db.blocked, Missing);
      var first :- Promote(db, backend, ids[0]);
      PromoteAll(first, backend, ids[1..])
  }

  function SettleGroup(
    db: Db, key: string, count: nat, promoted: nat, limit: Positive, duration: int, now: Time): Db
    requires key in db.semaphores
  {
    var row := ReleaseGroup(db.semaphores[key], count, promoted, limit, now + duration, now);
    db.(semaphores := db.semaphores[key := row], forgotten := Offer(db, key, limit, count))
  }

  /** `count` slots of one key released together, the first blocked jobs promoted into them. */
  function ReleaseGroupOf(
    db: Db, cfg: Config, key: string, count: nat, limit: Positive, duration: int, hidden: set<JobId>, now: Time)
    : Result<Db>
  {
    var rows := Jobs(Take(Waiting(db, cfg.backend, key, hidden), count));
    var _ :- Need(forall id :: id in rows ==> id in db.jobs && db.jobs[id].backend == cfg.backend, ForeignBackend);
    if key !in db.semaphores then
      Ok(db)
    else
      var promoted := Min(count, Min(Available(db.semaphores[key], limit, count), |rows|));
      PromoteAll(SettleGroup(db, key, count, promoted, limit, duration, now), cfg.backend, rows[..promoted])
  }
}
