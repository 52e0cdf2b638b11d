/**
 The queue database: one table of jobs, five tables of execution state keyed by job (each row has a
 unique job), the semaphore rows, the process rows and the pauses. Primary keys of the state tables
 come from one counter, which orders the rows of each table as separate counters would.
 */
module Tables {
  import opened Results
  import opened Semaphores

  type JobId = int

  type ProcessId = int

  datatype OnConflict = Block | Discard

  datatype Policy = Policy(limit: Positive, duration: Positive, onConflict: OnConflict)

  /** The three policy columns of a job: all set, all null, or unusable. */
  datatype StoredPolicy = Persisted(policy: Policy) | Historical | Unusable

  datatype Job = Job(
    backend: string,
    taskPath: string,
    queue: string,
    priority: int,
    scheduledAt: Option<Time>,
    key: Option<string>,
    policy: StoredPolicy,
    finishedAt: Option<Time>
  )

  datatype ReadyRow = ReadyRow(pk: int, backend: string, queue: string, priority: int)

  datatype ScheduledRow = ScheduledRow(pk: int, backend: string, queue: string, priority: int, scheduledAt: Time)

  datatype ClaimedRow = ClaimedRow(pk: int, process: Option<ProcessId>)

  datatype BlockedRow = BlockedRow(
    pk: int, backend: string, queue: string, priority: int, key: string, expiresAt: Time)

  datatype FailedRow = FailedRow(pk: int, createdAt: Time, retryAt: Option<Time>)

  datatype Process = Process(backend: string, heartbeatAt: Time)

  datatype Family = Postgres | MySql | Sqlite

  datatype Config = Config(backend: string, family: Family, preserveFinished: bool, defaultDuration: Positive)

  /** The policies declared by the tasks that can be imported, by task path. */
  type Tasks = map<string, Policy>

  /**
   `forgotten` is a history variable: the keys for which some operation has offered a limit below the
   slots in use since the key's semaphore row was last collected. No transition reads it.
   */
  datatype Db = Db(
    jobs: map<JobId, Job>,
    ready: map<JobId, ReadyRow>,
    scheduled: map<JobId, ScheduledRow>,
    claimed: map<JobId, ClaimedRow>,
    blocked: map<JobId, BlockedRow>,
    failed: map<JobId, FailedRow>,
    semaphores: map<string, Semaphore>,
    processes: map<ProcessId, Process>,
    pauses: set<(string, string)>,
    nextPk: int,
    forgotten: set<string>
  )

  const EmptyDb := Db(map[], map[], map[], map[], map[], map[], map[], map[], {}, 1, {})

  /** Some state table has a row for the job. */
  predicate Live(db: Db, id: JobId) {
    id in db.ready || id in db.scheduled || id in db.claimed || id in db.blocked || id in db.failed
  }

  // ---------------------------------------------------------------- row updates

  datatype Table = Ready | Scheduled | Claimed | Blocked | Failed

  predicate Has(db: Db, table: Table, id: JobId) {
    match table
    case Ready => id in db.ready
    case Scheduled => id in db.scheduled
    case Claimed => id in db.claimed
    case Blocked => id in db.blocked
    case Failed => id in db.failed
  }

  function Evict(db: Db, table: Table, id: JobId): Db {
    match table
    case Ready => db.(ready := db.ready - {id})
    case Scheduled => db.(scheduled := db.scheduled - {id})
    case Claimed => db.(claimed := db.claimed - {id})
    case Blocked => db.(blocked := db.blocked - {id})
    case Failed => db.(failed := db.failed - {id})
  }

  function EvictAll(db: Db, table: Table, ids: seq<JobId>): Db
    decreases |ids|
  {
    if ids == [] then db else EvictAll(Evict(db, table, ids[0]), table, ids[1..])
  }

  function PutReady(db: Db, id: JobId, backend: string, queue: string, priority: int): Db {
    db.(ready := db.ready[id := ReadyRow(db.nextPk, backend, queue, priority)], nextPk := db.nextPk + 1)
  }

  function PutScheduled(db: Db, id: JobId, job: Job, at: Time): Db {
    db.(scheduled := db.scheduled[id := ScheduledRow(db.nextPk, job.backend, job.queue, job.priority, at)],
        nextPk := db.nextPk + 1)
  }

  function PutClaimed(db: Db, id: JobId, process: Option<ProcessId>): Db {
    db.(claimed := db.claimed[id := ClaimedRow(db.nextPk, process)], nextPk := db.nextPk + 1)
  }

  function PutBlocked(db: Db, id: JobId, row: BlockedRow): Db {
    db.(blocked := db.blocked[id := row.(pk := db.nextPk)], nextPk := db.nextPk + 1)
  }

  function PutFailed(db: Db, id: JobId, now: Time): Db {
    db.(failed := db.failed[id := FailedRow(db.nextPk, now, None)], nextPk := db.nextPk + 1)
  }

  function SetFinished(db: Db, id: JobId, at: Option<Time>): Db
    requires id in db.jobs
  {
    db.(jobs := db.jobs[id := db.jobs[id].(finishedAt := at)])
  }

  function DeleteJob(db: Db, id: JobId): Db {
    db.(jobs := db.jobs - {id})
  }

  // ---------------------------------------------------------------- one state per job

  function One(b: bool): nat {
    if b then 1 else 0
  }

  /** In how many of ready, scheduled, claimed, blocked, failed, finished the job is. */
  function StateCount(db: Db, id: JobId): nat
    requires id in db.jobs
  {
    One(id in db.ready) + One(id in db.scheduled) + One(id in db.claimed) + One(id in db.blocked)
    + One(id in db.failed) + One(db.jobs[id].finishedAt.Some?)
  }

  /** Every state row has its job, and every job has exactly one state; `loose` jobs have none yet. */
  ghost predicate OneState(db: Db, loose: set<JobId>) {
    && (forall id :: Live(db, id) ==> id in db.jobs)
    && loose <= db.jobs.Keys
    && (forall id :: id in db.jobs ==> StateCount(db, id) == if id in loose then 0 else 1)
  }

  /** State rows repeat the columns of their job. */
  ghost predicate Owned(db: Db) {
    && (forall id :: id in db.ready && id in db.jobs ==>
          var (r, j) := (db.ready[id], db.jobs[id]);
          r.backend == j.backend && r.queue == j.queue && r.priority == j.priority)
    && (forall id :: id in db.scheduled && id in db.jobs ==>
          var (r, j) := (db.scheduled[id], db.jobs[id]);
          r.backend == j.backend && r.queue == j.queue && r.priority == j.priority)
    && (forall id :: id in db.blocked && id in db.jobs ==>
          var (r, j) := (db.blocked[id], db.jobs[id]);
          r.backend == j.backend && r.queue == j.queue && r.priority == j.priority && j.key == Some(r.key))
  }

  // ---------------------------------------------------------------- slot accounting

  function Running(db: Db): set<JobId> {
    db.ready.Keys + db.claimed.Keys
  }

  function WithKey(jobs: map<JobId, Job>, ids: set<JobId>, key: string): set<JobId> {
    set id | id in ids && id in jobs && jobs[id].key == Some(key)
  }

  /** The jobs that hold a slot of `key`. */
  function Holders(db: Db, key: string): set<JobId> {
    WithKey(db.jobs, Running(db), key)
  }

  /** The slots of `key` its semaphore row counts as occupied; none without a row. */
  function Slots(db: Db, key: string): int {
    Occupied(Lookup(db.semaphores, key))
  }

  /** Exact slot counting: `pending` are slots still counted, or already counted, for no holder. */
  ghost predicate Accounted(db: Db, pending: multiset<string>) {
    forall key :: key !in db.forgotten ==> Slots(db, key) == |Holders(db, key)| + pending[key]
  }

  ghost predicate SemaphoresWellFormed(db: Db) {
    forall key :: key in db.semaphores ==> WellFormed(db.semaphores[key])
  }

  /** The invariant inside a transaction. */
  ghost predicate Good(db: Db, loose: set<JobId>, pending: multiset<string>) {
    OneState(db, loose) && Owned(db) && Accounted(db, pending) && SemaphoresWellFormed(db)
  }

  /** The invariant between transactions. */
  ghost predicate Valid(db: Db) {
    Good(db, {}, multiset{})
  }

  function KeyBag(job: Job): multiset<string> {
    if job.key.Some? then multiset{job.key.value} else multiset{}
  }

  function Bag(jobs: seq<Job>): multiset<string> {
    if jobs == [] then multiset{} else KeyBag(jobs[0]) + Bag(jobs[1..])
  }

  // ---------------------------------------------------------------- frame lemmas

  /** Counting looks only at the running jobs, their keys and the semaphore rows. */
  lemma AccountedFrame(a: Db, b: Db, pending: multiset<string>)
    requires Accounted(a, pending)
    requires a.semaphores == b.semaphores && a.forgotten == b.forgotten
    requires Running(a) == Running(b)
    requires forall id :: id in Running(a) ==> (id in a.jobs <==> id in b.jobs)
    requires forall id :: id in Running(a) && id in a.jobs ==> a.jobs[id].key == b.jobs[id].key
    ensures Accounted(b, pending)
  {
    forall key | key !in b.forgotten
      ensures Slots(b, key) == |Holders(b, key)| + pending[key]
    {
      forall id
        ensures id in Holders(a, key) <==> id in Holders(b, key)
      {
        assert id in Running(a) <==> id in Running(b);
      }
      assert Holders(a, key) == Holders(b, key);
      assert Slots(a, key) == Slots(b, key);
    }
  }

  lemma WithKeyEnter(jobs: map<JobId, Job>, ids: set<JobId>, id: JobId, key: string)
    requires id in jobs && id !in ids
    ensures |WithKey(jobs, ids + {id}, key)| == |WithKey(jobs, ids, key)| + One(jobs[id].key == Some(key))
  {
    var (before, after) := (WithKey(jobs, ids, key), WithKey(jobs, ids + {id}, key));
    if jobs[id].key == Some(key) {
      assert after == before + {id};
    } else {
      assert after == before;
    }
  }

  /** A job that stops running leaves its slot pending. */
  lemma AccountedLeave(a: Db, b: Db, id: JobId, pending: multiset<string>)
    requires Accounted(a, pending)
    requires a.semaphores == b.semaphores && a.forgotten == b.forgotten && a.jobs == b.jobs
    requires id in Running(a) && id in a.jobs
    requires Running(b) == Running(a) - {id}
    ensures Accounted(b, pending + KeyBag(a.jobs[id]))
  {
    forall key | key !in b.forgotten
      ensures Slots(b, key) == |Holders(b, key)| + (pending + KeyBag(a.jobs[id]))[key]
    {
      WithKeyEnter(a.jobs, Running(b), id, key);
      assert Running(b) + {id} == Running(a);
      assert Slots(a, key) == Slots(b, key);
    }
  }

  /** A job that starts running takes over a pending slot. */
  lemma AccountedEnter(a: Db, b: Db, id: JobId, pending: multiset<string>)
    requires id in a.jobs && KeyBag(a.jobs[id]) <= pending
    requires Accounted(a, pending)
    requires a.semaphores == b.semaphores && a.forgotten == b.forgotten && a.jobs == b.jobs
    requires id !in Running(a)
    requires Running(b) == Running(a) + {id}
    ensures Accounted(b, pending - KeyBag(a.jobs[id]))
  {
    forall key | key !in b.forgotten
      ensures Slots(b, key) == |Holders(b, key)| + (pending - KeyBag(a.jobs[id]))[key]
    {
      WithKeyEnter(a.jobs, Running(a), id, key);
      assert Slots(a, key) == Slots(b, key);
    }
  }

  /** A semaphore row that now counts `delta` more slots moves the pending slots along. */
  lemma AccountedReslot(a: Db, b: Db, key: string, before: multiset<string>, after: multiset<string>)
    requires Accounted(a, before)
    requires a.jobs == b.jobs && Running(a) == Running(b)
    requires forall k :: k != key ==> Lookup(a.semaphores, k) == Lookup(b.semaphores, k)
    requires a.forgotten <= b.forgotten && (forall k :: k in b.forgotten && k != key ==> k in a.forgotten)
    requires forall k :: k != key ==> before[k] == after[k]
    requires key !in b.forgotten ==> Slots(b, key) + before[key] == Slots(a, key) + after[key]
    ensures Accounted(b, after)
  {
    forall k | k !in b.forgotten
      ensures Slots(b, k) == |Holders(b, k)| + after[k]
    {
      assert Holders(a, k) == Holders(b, k);
      assert Slots(a, k) == |Holders(a, k)| + before[k];
    }
  }

  /** What the invariant says about the semaphore row of one key. */
  lemma GoodSemaphore(db: Db, loose: set<JobId>, pending: multiset<string>, key: string)
    requires Good(db, loose, pending)
    ensures key in db.semaphores ==> WellFormed(db.semaphores[key])
    ensures key !in db.forgotten ==> Slots(db, key) == |Holders(db, key)| + pending[key]
  {
  }

  /** What the invariant says about one blocked row. */
  lemma GoodBlocked(db: Db, loose: set<JobId>, pending: multiset<string>, id: JobId)
    requires Good(db, loose, pending) && id in db.blocked
    ensures id in db.jobs && id !in loose && !Live(Evict(db, Blocked, id), id)
    ensures var (r, j) := (db.blocked[id], db.jobs[id]);
            r.backend == j.backend && r.queue == j.queue && r.priority == j.priority && j.key == Some(r.key)
  {
    assert Live(db, id);
    assert StateCount(db, id) == 1;
  }

  // ---------------------------------------------------------------- good row updates

  lemma EvictOneState(db: Db, table: Table, id: JobId, loose: set<JobId>)
    requires OneState(db, loose) && Has(db, table, id)
    ensures id in db.jobs && id !in loose
    ensures OneState(Evict(db, table, id), loose + {id})
  {
    var after := Evict(db, table, id);
    assert Live(db, id);
    forall j | j in after.jobs
      ensures StateCount(after, j) == if j in loose + {id} then 0 else 1
    {
      assert StateCount(db, j) == if j in loose then 0 else 1;
    }
    assert forall j :: Live(after, j) ==> Live(db, j);
  }

  /** The slots that leave with rows of a table: only ready and claimed jobs hold one. */
  function Freed(table: Table, bag: multiset<string>): multiset<string> {
    if table.Ready? || table.Claimed? then bag else multiset{}
  }

  lemma EvictAccounted(db: Db, table: Table, id: JobId, loose: set<JobId>, pending: multiset<string>)
    requires OneState(db, loose) && Accounted(db, pending) && Has(db, table, id) && id in db.jobs
    ensures Accounted(Evict(db, table, id), pending + Freed(table, KeyBag(db.jobs[id])))
  {
    var after := Evict(db, table, id);
    if table.Ready? || table.Claimed? {
      assert StateCount(db, id) <= 1;
      assert Running(after) == Running(db) - {id};
      AccountedLeave(db, after, id, pending);
    } else {
      AccountedFrame(db, after, pending);
      assert pending + multiset{} == pending;
    }
  }

  lemma EvictOwned(db: Db, table: Table, id: JobId)
    requires Owned(db)
    ensures Owned(Evict(db, table, id))
  {
  }

  lemma EvictGood(db: Db, table: Table, id: JobId, loose: set<JobId>, pending: multiset<string>)
    requires Good(db, loose, pending) && Has(db, table, id)
    ensures id in db.jobs
    ensures Good(Evict(db, table, id), loose + {id}, pending + Freed(table, KeyBag(db.jobs[id])))
  {
    EvictOneState(db, table, id, loose);
    EvictOwned(db, table, id);
    EvictAccounted(db, table, id, loose, pending);
    assert SemaphoresWellFormed(Evict(db, table, id));
  }

  predicate Distinct(ids: seq<JobId>) {
    forall i, j :: 0 <= i < j < |ids| ==> ids[i] != ids[j]
  }

  function JobsOf(db: Db, ids: seq<JobId>): (jobs: seq<Job>)
    requires forall id :: id in ids ==> id in db.jobs
    ensures |jobs| == |ids| && forall i :: 0 <= i < |ids| ==> ids[i] in db.jobs && jobs[i] == db.jobs[ids[i]]
  {
    assert forall i :: 0 <= i < |ids| ==> ids[i] in db.jobs by {
      forall i | 0 <= i < |ids|
        ensures ids[i] in db.jobs
      {
        var id := ids[i];
        assert id in ids;
      }
    }
    seq(|ids|, i requires 0 <= i < |ids| => db.jobs[ids[i]])
  }

  lemma {:induction false} EvictAllGood(
    db: Db, table: Table, ids: seq<JobId>, loose: set<JobId>, pending: multiset<string>)
    requires Good(db, loose, pending) && Distinct(ids)
    requires forall id :: id in ids ==> Has(db, table, id)
    ensures forall id :: id in ids ==> id in db.jobs
    ensures EvictAll(db, table, ids).jobs == db.jobs
    ensures Good(EvictAll(db, table, ids), loose + Members(ids), pending + Freed(table, Bag(JobsOf(db, ids))))
    decreases |ids|
  {
    HasJobs(db, table, ids, loose);
    hide Good, Evict, Has;
    if ids == [] {
      assert loose + Members(ids) == loose;
      assert pending + Freed(table, Bag(JobsOf(db, ids))) == pending;
    } else {
      var (first, rest) := (ids[0], ids[1..]);
      EvictGood(db, table, first, loose, pending);
      var db1 := Evict(db, table, first);
      HasAfterEvict(db, table, ids);
      EvictAllGood(db1, table, rest, loose + {first}, pending + Freed(table, KeyBag(db.jobs[first])));
      MembersSplit(ids, loose);
      JobsOfRest(db, ids);
      assert JobsOf(db1, rest) == JobsOf(db, rest);
      FreedBag(table, pending, JobsOf(db, ids));
    }
  }

  lemma {:induction false} EvictAllJobs(db: Db, table: Table, ids: seq<JobId>)
    ensures EvictAll(db, table, ids).jobs == db.jobs
    decreases |ids|
  {
    if ids != [] {
      assert Evict(db, table, ids[0]).jobs == db.jobs;
      hide Evict;
      EvictAllJobs(Evict(db, table, ids[0]), table, ids[1..]);
    }
  }

  lemma EvictAllOne(db: Db, table: Table, id: JobId)
    ensures EvictAll(db, table, [id]) == Evict(db, table, id)
  {
    assert EvictAll(Evict(db, table, id), table, []) == Evict(db, table, id);
  }

  lemma MembersSplit(ids: seq<JobId>, loose: set<JobId>)
    requires ids != []
    ensures loose + {ids[0]} + Members(ids[1..]) == loose + Members(ids)
  {
    assert forall id :: id in ids <==> id == ids[0] || id in ids[1..];
  }

  lemma JobsOfRest(db: Db, ids: seq<JobId>)
    requires ids != [] && forall id :: id in ids ==> id in db.jobs
    ensures JobsOf(db, ids)[1..] == JobsOf(db, ids[1..])
  {
  }

  lemma HasJobs(db: Db, table: Table, ids: seq<JobId>, loose: set<JobId>)
    requires OneState(db, loose)
    requires forall id :: id in ids ==> Has(db, table, id)
    ensures forall id :: id in ids ==> id in db.jobs
    ensures forall id :: Evict(db, table, id).jobs == db.jobs
  {
    assert forall id :: id in ids ==> Live(db, id);
  }

  function Members(ids: seq<JobId>): set<JobId> {
    set id | id in ids
  }

  lemma HasAfterEvict(db: Db, table: Table, ids: seq<JobId>)
    requires Distinct(ids) && ids != []
    requires forall id :: id in ids ==> Has(db, table, id)
    ensures forall id :: id in ids[1..] ==> Has(Evict(db, table, ids[0]), table, id)
  {
    forall id | id in ids[1..]
      ensures Has(Evict(db, table, ids[0]), table, id)
    {
      assert id in ids && id != ids[0];
    }
  }

  lemma FreedBag(table: Table, pending: multiset<string>, jobs: seq<Job>)
    requires jobs != []
    ensures pending + Freed(table, KeyBag(jobs[0])) + Freed(table, Bag(jobs[1..])) == pending + Freed(table, Bag(jobs))
  {
  }

  /** A loose job was given its one state. */
  lemma PlacedOneState(a: Db, b: Db, id: JobId, loose: set<JobId>)
    requires OneState(a, loose) && id in loose
    requires b.jobs.Keys == a.jobs.Keys
    requires forall j :: Live(b, j) ==> Live(a, j) || j == id
    requires StateCount(b, id) == 1
    requires forall j :: j in a.jobs && j != id ==> StateCount(b, j) == StateCount(a, j)
    ensures OneState(b, loose - {id})
  {
  }

  lemma PutReadyOneState(db: Db, id: JobId, backend: string, queue: string, priority: int, loose: set<JobId>)
    requires OneState(db, loose) && id in loose
    ensures OneState(PutReady(db, id, backend, queue, priority), loose - {id})
  {
    assert StateCount(db, id) == 0;
    PlacedOneState(db, PutReady(db, id, backend, queue, priority), id, loose);
  }

  lemma PutReadyGood(db: Db, id: JobId, loose: set<JobId>, pending: multiset<string>)
    requires Good(db, loose, pending) && id in loose
    requires KeyBag(db.jobs[id]) <= pending
    ensures var job := db.jobs[id];
            Good(PutReady(db, id, job.backend, job.queue, job.priority), loose - {id}, pending - KeyBag(job))
  {
    assert StateCount(db, id) == 0;
    hide OneState, Accounted;
    var job := db.jobs[id];
    var after := PutReady(db, id, job.backend, job.queue, job.priority);
    PutReadyOneState(db, id, job.backend, job.queue, job.priority, loose);
    AccountedEnter(db, after, id, pending);
  }

  lemma PutClaimedOneState(db: Db, id: JobId, process: Option<ProcessId>, loose: set<JobId>)
    requires OneState(db, loose) && id in loose
    ensures OneState(PutClaimed(db, id, process), loose - {id})
  {
    assert StateCount(db, id) == 0;
    PlacedOneState(db, PutClaimed(db, id, process), id, loose);
  }

  lemma PutClaimedGood(db: Db, id: JobId, process: Option<ProcessId>, loose: set<JobId>, pending: multiset<string>)
    requires Good(db, loose, pending) && id in loose
    requires KeyBag(db.jobs[id]) <= pending
    ensures Good(PutClaimed(db, id, process), loose - {id}, pending - KeyBag(db.jobs[id]))
  {
    assert StateCount(db, id) == 0;
    hide OneState, Accounted;
    PutClaimedOneState(db, id, process, loose);
    AccountedEnter(db, PutClaimed(db, id, process), id, pending);
  }

  /** Rows of the tables that hold no slot leave the counting alone. */
  lemma SettleGood(a: Db, b: Db, id: JobId, loose: set<JobId>, pending: multiset<string>)
    requires Good(a, loose, pending)
    requires OneState(b, loose - {id}) && Owned(b)
    requires b.semaphores == a.semaphores && b.forgotten == a.forgotten
    requires b.ready == a.ready && b.claimed == a.claimed
    requires b.jobs.Keys == a.jobs.Keys && forall j :: j in a.jobs ==> b.jobs[j].key == a.jobs[j].key
    ensures Good(b, loose - {id}, pending)
  {
    hide OneState, Owned;
    AccountedFrame(a, b, pending);
  }

  lemma PutScheduledGood(db: Db, id: JobId, at: Time, loose: set<JobId>, pending: multiset<string>)
    requires Good(db, loose, pending) && id in loose
    ensures Good(PutScheduled(db, id, db.jobs[id], at), loose - {id}, pending)
  {
    hide Accounted;
    var after := PutScheduled(db, id, db.jobs[id], at);
    assert StateCount(db, id) == 0;
    PlacedOneState(db, after, id, loose);
    SettleGood(db, after, id, loose, pending);
  }

  lemma PutBlockedGood(db: Db, id: JobId, row: BlockedRow, loose: set<JobId>, pending: multiset<string>)
    requires Good(db, loose, pending) && id in loose
    requires var job := db.jobs[id];
             row.backend == job.backend && row.queue == job.queue && row.priority == job.priority
             && job.key == Some(row.key)
    ensures Good(PutBlocked(db, id, row), loose - {id}, pending)
  {
    hide Accounted;
    var after := PutBlocked(db, id, row);
    assert StateCount(db, id) == 0;
    PlacedOneState(db, after, id, loose);
    SettleGood(db, after, id, loose, pending);
  }

  lemma PutFailedGood(db: Db, id: JobId, now: Time, loose: set<JobId>, pending: multiset<string>)
    requires Good(db, loose, pending) && id in loose
    ensures Good(PutFailed(db, id, now), loose - {id}, pending)
  {
    hide Accounted;
    var after := PutFailed(db, id, now);
    assert StateCount(db, id) == 0;
    PlacedOneState(db, after, id, loose);
    SettleGood(db, after, id, loose, pending);
  }

  lemma FinishOneState(db: Db, id: JobId, at: Time, loose: set<JobId>)
    requires OneState(db, loose) && id in loose
    ensures OneState(SetFinished(db, id, Some(at)), loose - {id})
  {
    var after := SetFinished(db, id, Some(at));
    assert StateCount(db, id) == 0;
    assert forall j :: Live(after, j) <==> Live(db, j);
    PlacedOneState(db, after, id, loose);
  }

  lemma FinishGood(db: Db, id: JobId, at: Time, loose: set<JobId>, pending: multiset<string>)
    requires Good(db, loose, pending) && id in loose
    ensures Good(SetFinished(db, id, Some(at)), loose - {id}, pending)
  {
    assert id in db.jobs;
    hide Accounted, OneState;
    FinishOneState(db, id, at, loose);
    SettleGood(db, SetFinished(db, id, Some(at)), id, loose, pending);
  }

  lemma DeleteOneState(db: Db, id: JobId, loose: set<JobId>)
    requires OneState(db, loose) && id in db.jobs && !Live(db, id)
    ensures OneState(DeleteJob(db, id), loose - {id})
  {
    var after := DeleteJob(db, id);
    assert forall j :: j in after.jobs ==> StateCount(after, j) == StateCount(db, j);
    assert forall j :: Live(after, j) ==> Live(db, j);
  }

  /** A job without a row can be deleted, with nothing left to cascade to. */
  lemma DeleteGood(db: Db, id: JobId, loose: set<JobId>, pending: multiset<string>)
    requires Good(db, loose, pending) && id in db.jobs && !Live(db, id)
    ensures Good(DeleteJob(db, id), loose - {id}, pending)
  {
    hide OneState, Accounted;
    DeleteOneState(db, id, loose);
    AccountedFrame(db, DeleteJob(db, id), pending);
  }
}
