/**
 No stranded waiters. With one backend, one fixed limit per key and no blocked row locked elsewhere,
 a job waits for a slot only while every slot of its key is taken.
 */
module Waiters {
  import opened Results
  import opened Semaphores
  import opened Ordering
  import opened Tables
  import opened Slots
  import opened SlotAccounting
  import opened Dispatch
  import opened Claiming
  import opened Grouping
  import opened Lifecycle
  import opened LifecycleSafety

  /** One backend, one set of importable tasks, and the limit every policy gives a key. */
  datatype Setup = Setup(backend: string, tasks: Tasks, limitOf: string -> Positive)

  predicate JobFits(setup: Setup, job: Job) {
    && job.backend == setup.backend
    && (job.key.Some? && Settings(job, setup.tasks).Ok? ==>
          Settings(job, setup.tasks).value.limit == setup.limitOf(job.key.value))
  }

  predicate SemaphoreFits(setup: Setup, key: string, s: Semaphore) {
    s.limit == setup.limitOf(key) && 0 <= s.value <= s.limit
  }

  /** Every slot of the key is taken. */
  predicate Exhausted(db: Db, key: string) {
    key in db.semaphores && db.semaphores[key].value == 0
  }

  ghost predicate Steady(db: Db, setup: Setup) {
    && db.forgotten == {}
    && (forall id :: id in db.jobs ==> JobFits(setup, db.jobs[id]))
    && (forall key :: key in db.semaphores ==> SemaphoreFits(setup, key, db.semaphores[key]))
    && (forall id :: id in db.blocked ==> db.blocked[id].backend == setup.backend && Exhausted(db, db.blocked[id].key))
  }

  // ---------------------------------------------------------------- row updates

  predicate SameContract(a: Job, b: Job) {
    a.backend == b.backend && a.taskPath == b.taskPath && a.key == b.key && a.policy == b.policy
  }

  /** No job, no blocked row and no semaphore row is new or newly bound. */
  ghost predicate Quiet(a: Db, b: Db) {
    && b.semaphores == a.semaphores && b.forgotten == a.forgotten
    && (forall id :: id in b.jobs ==> id in a.jobs && SameContract(a.jobs[id], b.jobs[id]))
    && (forall id :: id in b.blocked ==>
          id in a.blocked && b.blocked[id].backend == a.blocked[id].backend && b.blocked[id].key == a.blocked[id].key)
  }

  lemma QuietSteady(a: Db, b: Db, setup: Setup)
    requires Steady(a, setup) && Quiet(a, b)
    ensures Steady(b, setup)
  {
  }

  lemma QuietTransitive(a: Db, b: Db, c: Db)
    requires Quiet(a, b) && Quiet(b, c)
    ensures Quiet(a, c)
  {
  }

  lemma {:induction false} EvictAllQuiet(db: Db, table: Table, ids: seq<JobId>)
    ensures Quiet(db, EvictAll(db, table, ids))
    decreases |ids|
  {
    if ids != [] {
      var first := Evict(db, table, ids[0]);
      assert Quiet(db, first);
      hide Evict, Quiet;
      EvictAllQuiet(first, table, ids[1..]);
      QuietTransitive(db, first, EvictAll(db, table, ids));
    }
  }

  lemma {:induction false} FailAllQuiet(db: Db, ids: seq<JobId>, now: Time)
    ensures Quiet(db, FailAll(db, ids, now))
    decreases |ids|
  {
    if ids != [] {
      var first := PutFailed(db, ids[0], now);
      assert Quiet(db, first);
      hide PutFailed, Quiet;
      FailAllQuiet(first, ids[1..], now);
      QuietTransitive(db, first, FailAll(db, ids, now));
    }
  }

  lemma {:induction false} DeleteAllQuiet(db: Db, ids: seq<JobId>)
    ensures Quiet(db, DeleteAll(db, ids))
    decreases |ids|
  {
    if ids != [] {
      var first := DeleteJob(db, ids[0]);
      assert Quiet(db, first);
      hide DeleteJob, Quiet;
      DeleteAllQuiet(first, ids[1..]);
      QuietTransitive(db, first, DeleteAll(db, ids));
    }
  }

  lemma {:induction false} ClaimAllQuiet(db: Db, ids: seq<JobId>, process: Option<ProcessId>)
    ensures Quiet(db, ClaimAll(db, ids, process))
    decreases |ids|
  {
    if ids != [] {
      var first := PutClaimed(Evict(db, Ready, ids[0]), ids[0], process);
      assert Quiet(db, first);
      hide Quiet;
      ClaimAllQuiet(first, ids[1..], process);
      QuietTransitive(db, first, ClaimAll(db, ids, process));
    }
  }

  // ---------------------------------------------------------------- dispatch

  /** A slot is refused only when none is left. */
  lemma AcquireSteady(db: Db, setup: Setup, key: string, duration: int, now: Time)
    requires Steady(db, setup)
    ensures var (after, acquired) := AcquireSlot(db, key, setup.limitOf(key), duration, now);
            Steady(after, setup) && (acquired || Exhausted(after, key))
  {
  }

  lemma PutBlockedSteady(db: Db, setup: Setup, id: JobId, row: BlockedRow)
    requires Steady(db, setup) && row.backend == setup.backend && Exhausted(db, row.key)
    ensures Steady(PutBlocked(db, id, row), setup)
  {
  }

  /** The decision offers the key's own limit. */
  predicate TicketFits(setup: Setup, t: Ticket) {
    t.decision.Contend? ==> t.decision.policy.limit == setup.limitOf(t.decision.key)
  }

  lemma PlaceAsSteady(db: Db, setup: Setup, id: JobId, outcome: Outcome, now: Time)
    requires Steady(db, setup) && id in db.jobs
    requires outcome.ToBlocked? ==> Exhausted(db, outcome.key)
    ensures Steady(PlaceAs(db, id, db.jobs[id], outcome, now), setup)
  {
    var job := db.jobs[id];
    var after := PlaceAs(db, id, job, outcome, now);
    match outcome
    case ToBlocked(key, duration) =>
      assert JobFits(setup, job);
      hide Steady;
      PutBlockedSteady(db, setup, id, BlockedRow(0, job.backend, job.queue, job.priority, key, now + duration));
    case ToReady => hide Steady; QuietSteady(db, after, setup);
    case ToScheduled => hide Steady; QuietSteady(db, after, setup);
    case ToDiscard => hide Steady; QuietSteady(db, after, setup);
  }

  lemma PlaceSteady(db: Db, setup: Setup, t: Ticket, acquired: bool, now: Time)
    requires Steady(db, setup)
    requires t.decision.Contend? && !acquired ==> Exhausted(db, t.decision.key)
    ensures Steady(Place(db, t, acquired, now), setup)
  {
    hide Steady, PlaceAs;
    if t.id in db.jobs {
      PlaceAsSteady(db, setup, t.id, OutcomeOf(t.decision, acquired), now);
    }
  }

  lemma DispatchOneSteady(db: Db, setup: Setup, t: Ticket, now: Time)
    requires Steady(db, setup) && TicketFits(setup, t)
    ensures Steady(DispatchOne(db, t, now), setup)
  {
    hide Steady, Place, AcquireSlot;
    match t.decision
    case Contend(key, policy) =>
      AcquireSteady(db, setup, key, policy.duration, now);
      var (after, acquired) := AcquireSlot(db, key, policy.limit, policy.duration, now);
      PlaceSteady(after, setup, t, acquired, now);
    case _ => PlaceSteady(db, setup, t, true, now);
  }

  lemma {:induction false} DispatchAllSteady(db: Db, setup: Setup, ts: seq<Ticket>, now: Time)
    requires Steady(db, setup) && forall t :: t in ts ==> TicketFits(setup, t)
    ensures Steady(DispatchAll(db, ts, now), setup)
    decreases |ts|
  {
    hide Steady, DispatchOne;
    if ts != [] {
      assert ts[0] in ts;
      DispatchOneSteady(db, setup, ts[0], now);
      DispatchAllSteady(DispatchOne(db, ts[0], now), setup, ts[1..], now);
    }
  }

  lemma BulkSteady(db: Db, setup: Setup, ts: seq<Ticket>, now: Time)
    requires Steady(db, setup) && forall t :: t in ts ==> TicketFits(setup, t)
    ensures Steady(Bulk(db, ts, now), setup)
  {
    hide Steady, Bulk, DispatchAll, TicketFits;
    BulkIsSingleDispatchInGroupOrder(db, ts, now);
    WhereSplits(ts, Direct, Contends);
    var order := DispatchOrder(ts);
    forall t | t in order
      ensures t in ts
    {
      assert t in multiset(order) && t in multiset(ts);
    }
    DispatchAllSteady(db, setup, order, now);
  }

  lemma DecideFits(setup: Setup, id: JobId, job: Job, now: Time)
    requires JobFits(setup, job) && Decide(job, setup.tasks, now).Ok?
    ensures TicketFits(setup, Ticket(id, Decide(job, setup.tasks, now).value))
  {
  }

  lemma {:induction false} TicketsSteady(db: Db, setup: Setup, ids: seq<JobId>, now: Time)
    requires Steady(db, setup)
    ensures forall t :: t in Tickets(db, setup.tasks, ids, now) ==> TicketFits(setup, t)
    decreases |ids|
  {
    if ids != [] {
      TicketsSteady(db, setup, ids[1..], now);
      if ids[0] in db.jobs && Decide(db.jobs[ids[0]], setup.tasks, now).Ok? {
        DecideFits(setup, ids[0], db.jobs[ids[0]], now);
      }
    }
  }

  lemma RedispatchSteady(db: Db, setup: Setup, ids: seq<JobId>, isolate: bool, now: Time)
    requires Steady(db, setup)
    ensures var r := Redispatch(db, setup.tasks, ids, isolate, now);
            r.Ok? ==> Steady(r.value, setup)
  {
    hide Steady, Bulk, FailAll, Quiet, Tickets, Undecidable, Live;
    TicketsSteady(db, setup, ids, now);
    var ts := Tickets(db, setup.tasks, ids, now);
    BulkSteady(db, setup, ts, now);
    var failures := Where(ids, (id: JobId) => Undecidable(db, setup.tasks, id, now));
    FailAllQuiet(Bulk(db, ts, now), failures, now);
    QuietSteady(Bulk(db, ts, now), FailAll(Bulk(db, ts, now), failures, now), setup);
  }

  lemma ConsumeAndRedispatchSteady(
    db: Db, setup: Setup, table: Table, ids: seq<JobId>, isolate: bool, now: Time)
    requires Steady(db, setup)
    ensures var r := Redispatch(EvictAll(db, table, ids), setup.tasks, ids, isolate, now);
            r.Ok? ==> Steady(r.value, setup)
  {
    hide Steady, Redispatch, EvictAll, Quiet;
    EvictAllQuiet(db, table, ids);
    QuietSteady(db, EvictAll(db, table, ids), setup);
    RedispatchSteady(EvictAll(db, table, ids), setup, ids, isolate, now);
  }

  // ---------------------------------------------------------------- release

  ghost predicate NoWaiter(db: Db, key: string) {
    forall id :: id in db.blocked ==> db.blocked[id].key != key
  }

  lemma WaitingIffBlocked(db: Db, setup: Setup, key: string)
    requires Steady(db, setup)
    ensures Waiting(db, setup.backend, key, {}) == {} <==> NoWaiter(db, key)
  {
    if !NoWaiter(db, key) {
      var id :| id in db.blocked && db.blocked[id].key == key;
      assert Waits(db, setup.backend, key, {}, id);
      assert Entry(0, db.blocked[id].priority, db.blocked[id].pk, id) in Waiting(db, setup.backend, key, {});
    }
    forall e | e in Waiting(db, setup.backend, key, {})
      ensures e.job in db.blocked && db.blocked[e.job].key == key
    {
      WaitingJob(db, setup.backend, key, {}, e);
    }
  }

  /** Handing a slot over leaves the row as exhausted as it was. */
  lemma HandoffSteady(db: Db, setup: Setup, key: string, duration: int, now: Time)
    requires Steady(db, setup) && Exhausted(db, key)
    ensures var (after, acquired) := TakeForBlocked(db, key, setup.limitOf(key), duration, ReleaseClaimed, now);
            acquired && Steady(after, setup) && after.blocked == db.blocked
  {
  }

  lemma UnblockNextSteady(db: Db, setup: Setup, cfg: Config, key: string, limit: Positive, duration: int, now: Time)
    requires Steady(db, setup) && cfg.backend == setup.backend
    requires key in db.semaphores ==> limit == setup.limitOf(key)
    ensures var r := UnblockNext(db, cfg, key, limit, duration, ReleaseClaimed, {}, now);
            r.Ok? ==> && Steady(r.value.0, setup)
                      && (!r.value.1 ==> r.value.0 == db && NoWaiter(db, key))
  {
    WaitingIffBlocked(db, setup, key);
    hide Waiting, Quiet;
    var waiting := Waiting(db, cfg.backend, key, {});
    if waiting != {} {
      var id := Least(waiting).job;
      WaitingJob(db, cfg.backend, key, {}, Least(waiting));
      assert Exhausted(db, key);
      hide Steady;
      HandoffSteady(db, setup, key, duration, now);
      var taken := TakeForBlocked(db, key, limit, duration, ReleaseClaimed, now).0;
      PromoteSteady(taken, setup, cfg.backend, id);
    }
  }

  lemma PromoteSteady(db: Db, setup: Setup, backend: string, id: JobId)
    requires Steady(db, setup) && id in db.blocked
    ensures var r := Promote(db, backend, id);
            r.Ok? ==> && Steady(r.value, setup) && r.value.blocked == db.blocked - {id}
                      && r.value.semaphores == db.semaphores
  {
    if Promote(db, backend, id).Ok? {
      var after := Promote(db, backend, id).value;
      assert Quiet(db, after);
      hide Quiet, Steady, Promote;
      QuietSteady(db, after, setup);
    }
  }

  lemma ReleaseSemaphoreSteady(db: Db, setup: Setup, key: string, limit: Positive, duration: int, now: Time)
    requires Steady(db, setup) && NoWaiter(db, key)
    requires key in db.semaphores ==> limit == setup.limitOf(key)
    ensures var after := ReleaseSemaphore(db, key, limit, duration, now);
            Steady(after, setup) && NoWaiter(after, key)
  {
  }

  lemma ReleaseKeySteady(db: Db, setup: Setup, cfg: Config, key: string, limit: Positive, duration: int, now: Time)
    requires Steady(db, setup) && cfg.backend == setup.backend
    requires key in db.semaphores ==> limit == setup.limitOf(key)
    ensures var r := ReleaseKey(db, cfg, key, limit, duration, {}, now);
            r.Ok? ==> Steady(r.value, setup)
  {
    hide Steady, NoWaiter, ReleaseSemaphore;
    UnblockNextSteady(db, setup, cfg, key, limit, duration, now);
    var first := UnblockNext(db, cfg, key, limit, duration, ReleaseClaimed, {}, now);
    if first.Ok? && !first.value.1 {
      ReleaseSemaphoreSteady(db, setup, key, limit, duration, now);
      WaitingIffBlocked(ReleaseSemaphore(db, key, limit, duration, now), setup, key);
      hide Waiting;
    }
  }

  lemma ReleaseSettingsFit(db: Db, setup: Setup, cfg: Config, job: Job, key: string)
    requires Steady(db, setup) && JobFits(setup, job) && job.key == Some(key)
    ensures key in db.semaphores ==> ReleaseSettings(db, cfg, setup.tasks, job, key).0 == setup.limitOf(key)
  {
    assert key in db.semaphores ==> SemaphoreFits(setup, key, db.semaphores[key]);
  }

  lemma ReleaseSlotSteady(db: Db, setup: Setup, cfg: Config, job: Job, now: Time)
    requires Steady(db, setup) && cfg.backend == setup.backend && JobFits(setup, job)
    ensures var r := ReleaseSlot(db, cfg, setup.tasks, job, {}, now);
            r.Ok? ==> Steady(r.value, setup)
  {
    hide Steady, ReleaseKey, ReleaseSettings;
    match job.key
    case None =>
    case Some(key) =>
      ReleaseSettingsFit(db, setup, cfg, job, key);
      var (limit, duration) := ReleaseSettings(db, cfg, setup.tasks, job, key);
      ReleaseKeySteady(db, setup, cfg, key, limit, duration, now);
  }

  lemma {:induction false} ReleaseSlotsSteady(db: Db, setup: Setup, cfg: Config, jobs: seq<Job>, now: Time)
    requires Steady(db, setup) && cfg.backend == setup.backend && forall j :: j in jobs ==> JobFits(setup, j)
    ensures var r := ReleaseSlots(db, cfg, setup.tasks, jobs, {}, now);
            r.Ok? ==> Steady(r.value, setup)
    decreases |jobs|
  {
    hide Steady, ReleaseSlot, JobFits;
    if jobs != [] {
      assert jobs[0] in jobs;
      ReleaseSlotSteady(db, setup, cfg, jobs[0], now);
      var first := ReleaseSlot(db, cfg, setup.tasks, jobs[0], {}, now);
      if first.Ok? {
        ReleaseSlotsSteady(first.value, setup, cfg, jobs[1..], now);
      }
    }
  }

  // ---------------------------------------------------------------- recovered groups

  /** Between the group's semaphore write and its promotions only the jobs to promote may wait. */
  ghost predicate SteadyBut(db: Db, setup: Setup, ids: seq<JobId>) {
    && db.forgotten == {}
    && (forall id :: id in db.jobs ==> JobFits(setup, db.jobs[id]))
    && (forall key :: key in db.semaphores ==> SemaphoreFits(setup, key, db.semaphores[key]))
    && (forall id :: id in db.blocked && id !in ids ==>
          db.blocked[id].backend == setup.backend && Exhausted(db, db.blocked[id].key))
  }

  lemma PromoteOneBut(db: Db, setup: Setup, backend: string, ids: seq<JobId>)
    requires SteadyBut(db, setup, ids) && ids != [] && ids[0] in db.blocked
    ensures var r := Promote(db, backend, ids[0]);
            r.Ok? ==> SteadyBut(r.value, setup, ids[1..])
  {
    hide Live;
    var r := Promote(db, backend, ids[0]);
    if r.Ok? {
      assert r.value == db.(ready := r.value.ready, blocked := db.blocked - {ids[0]}, nextPk := r.value.nextPk);
      hide Promote;
      assert forall id :: id in ids ==> id == ids[0] || id in ids[1..];
    }
  }

  lemma {:induction false} PromoteAllSteady(db: Db, setup: Setup, backend: string, ids: seq<JobId>)
    requires SteadyBut(db, setup, ids)
    ensures var r := PromoteAll(db, backend, ids);
            r.Ok? ==> Steady(r.value, setup)
    decreases |ids|
  {
    if ids == [] {
      assert Steady(db, setup);
    } else {
      hide SteadyBut, Steady, Promote;
      if ids[0] in db.blocked {
        PromoteOneBut(db, setup, backend, ids);
        var first := Promote(db, backend, ids[0]);
        if first.Ok? {
          PromoteAllSteady(first.value, setup, backend, ids[1..]);
        }
      }
    }
  }

  /** The first `promoted` waiters are all of them, unless the group's slots are used up. */
  lemma SettleGroupSteady(
    db: Db, setup: Setup, key: string, count: nat, promoted: nat, duration: int, now: Time, rows: seq<JobId>)
    requires Steady(db, setup) && key in db.semaphores
    requires promoted == Min(count, Min(Available(db.semaphores[key], setup.limitOf(key), count), |rows|))
    requires |rows| <= count
    requires |rows| < count ==> forall id :: id in db.blocked && db.blocked[id].key == key ==> id in rows
    ensures SteadyBut(SettleGroup(db, key, count, promoted, setup.limitOf(key), duration, now), setup, rows[..promoted])
  {
    var after := SettleGroup(db, key, count, promoted, setup.limitOf(key), duration, now);
    assert promoted == |rows| ==> rows[..promoted] == rows;
    forall id | id in after.blocked && id !in rows[..promoted]
      ensures after.blocked[id].backend == setup.backend && Exhausted(after, after.blocked[id].key)
    {
      assert Exhausted(db, db.blocked[id].key);
    }
  }

  lemma ShortTakeIsAll(db: Db, setup: Setup, key: string, count: nat)
    requires Steady(db, setup)
    ensures var rows := Jobs(Take(Waiting(db, setup.backend, key, {}), count));
            |rows| <= count
            && (|rows| < count ==> forall id :: id in db.blocked && db.blocked[id].key == key ==> id in rows)
  {
    var es := Take(Waiting(db, setup.backend, key, {}), count);
    if |es| < count {
      forall id | id in db.blocked && db.blocked[id].key == key
        ensures id in Jobs(es)
      {
        assert Waits(db, setup.backend, key, {}, id);
        var e := Entry(0, db.blocked[id].priority, db.blocked[id].pk, id);
        assert e in Waiting(db, setup.backend, key, {});
        var i :| 0 <= i < |es| && es[i] == e;
        assert Jobs(es)[i] == id;
      }
    }
  }

  lemma ReleaseGroupSteady(
    db: Db, setup: Setup, cfg: Config, key: string, count: nat, limit: Positive, duration: int, now: Time)
    requires Steady(db, setup) && cfg.backend == setup.backend
    requires key in db.semaphores ==> limit == setup.limitOf(key)
    ensures var r := ReleaseGroupOf(db, cfg, key, count, limit, duration, {}, now);
            r.Ok? ==> Steady(r.value, setup)
  {
    ShortTakeIsAll(db, setup, key, count);
    assert key in db.semaphores ==> SemaphoreFits(setup, key, db.semaphores[key]);
    hide Steady, SteadyBut, SettleGroup, PromoteAll, Take, Waiting, Jobs;
    var rows := Jobs(Take(Waiting(db, cfg.backend, key, {}), count));
    if key in db.semaphores {
      var promoted := Min(count, Min(Available(db.semaphores[key], limit, count), |rows|));
      SettleGroupSteady(db, setup, key, count, promoted, duration, now, rows);
      PromoteAllSteady(SettleGroup(db, key, count, promoted, limit, duration, now), setup, cfg.backend, rows[..promoted]);
    }
  }

  lemma KeepJobsMembers(jobs: seq<Job>, key: string, same: bool)
    ensures forall j :: j in KeepJobs(jobs, key, same) ==> j in jobs && ((j.key == Some(key)) == same)
  {
  }

  lemma {:induction false} ReleaseRecoveredSteady(
    db: Db, setup: Setup, cfg: Config, jobs: seq<Job>, leftover: seq<Job>, now: Time)
    requires Steady(db, setup) && cfg.backend == setup.backend
    requires forall j :: j in jobs || j in leftover ==> JobFits(setup, j)
    ensures var r := ReleaseRecovered(db, cfg, setup.tasks, jobs, leftover, {}, now);
            r.Ok? ==> Steady(r.value.0, setup) && forall j :: j in r.value.1 ==> JobFits(setup, j)
    decreases |jobs|
  {
    hide Steady, JobFits, ReleaseGroupOf, KeepJobs, ReleaseSettings;
    if jobs == [] {
    } else if jobs[0].key.None? {
      ReleaseRecoveredSteady(db, setup, cfg, jobs[1..], leftover, now);
    } else {
      var key := jobs[0].key.value;
      var (group, rest) := (KeepJobs(jobs, key, true), KeepJobs(jobs[1..], key, false));
      KeepJobsMembers(jobs, key, true);
      KeepJobsMembers(jobs[1..], key, false);
      match GroupSettings(db, cfg, setup.tasks, group, key)
      case None => ReleaseRecoveredSteady(db, setup, cfg, rest, leftover + group, now);
      case Some(settings) =>
        assert group[0] in group;
        ReleaseSettingsFit(db, setup, cfg, group[0], key);
        ReleaseGroupSteady(db, setup, cfg, key, |group|, settings.0, settings.1, now);
        var released := ReleaseGroupOf(db, cfg, key, |group|, settings.0, settings.1, {}, now);
        if released.Ok? {
          ReleaseRecoveredSteady(released.value, setup, cfg, rest, leftover, now);
        }
    }
  }

  lemma JobsOfFit(db: Db, setup: Setup, ids: seq<JobId>)
    requires Steady(db, setup) && forall id :: id in ids ==> id in db.jobs
    ensures forall j :: j in JobsOf(db, ids) ==> JobFits(setup, j)
  {
    var jobs := JobsOf(db, ids);
    forall i | 0 <= i < |jobs|
      ensures JobFits(setup, jobs[i])
    {
      var id := ids[i];
      assert id in ids && jobs[i] == db.jobs[id];
    }
  }

  lemma FailClaimedBatchSteady(db: Db, setup: Setup, cfg: Config, ids: seq<JobId>, now: Time)
    requires Steady(db, setup) && cfg.backend == setup.backend
    ensures var r := FailClaimedBatch(db, cfg, setup.tasks, ids, {}, now);
            r.Ok? ==> Steady(r.value, setup)
  {
    hide Steady, EvictAll, FailAll, ReleaseRecovered, ReleaseSlots, Quiet, Live, JobFits, Distinct;
    if (forall id :: id in ids ==> id in db.jobs) && Distinct(ids) && (forall id :: id in ids ==> id in db.claimed) {
      JobsOfFit(db, setup, ids);
      EvictAllQuiet(db, Claimed, ids);
      var evicted := EvictAll(db, Claimed, ids);
      QuietSteady(db, evicted, setup);
      FailAllQuiet(evicted, ids, now);
      var failed := FailAll(evicted, ids, now);
      QuietSteady(evicted, failed, setup);
      ReleaseRecoveredSteady(failed, setup, cfg, Where(JobsOf(db, ids), HasKey), [], now);
      var recovered := ReleaseRecovered(failed, cfg, setup.tasks, Where(JobsOf(db, ids), HasKey), [], {}, now);
      if recovered.Ok? {
        ReleaseSlotsSteady(recovered.value.0, setup, cfg, recovered.value.1, now);
      }
    }
  }

  lemma {:induction false} PruneEachSteady(
    db: Db, setup: Setup, cfg: Config, processes: seq<ProcessId>, cutoff: Time, remaining: nat, now: Time)
    requires Steady(db, setup) && cfg.backend == setup.backend
    ensures var r := PruneEach(db, cfg, setup.tasks, processes, cutoff, remaining, {}, now);
            r.Ok? ==> Steady(r.value, setup)
    decreases |processes|
  {
    hide Steady, FailClaimedBatch, Batch, Stale;
    if processes != [] {
      if !Stale(db, cfg, processes[0], cutoff) {
        PruneEachSteady(db, setup, cfg, processes[1..], cutoff, remaining, now);
      } else {
        var deleted := DeleteProcess(db, processes[0]);
        assert Quiet(db, deleted);
        hide Quiet, DeleteProcess;
        QuietSteady(db, deleted, setup);
        var ids := Batch(ClaimsOf(db, processes[0]), ClaimedColumns(db), remaining);
        FailClaimedBatchSteady(deleted, setup, cfg, ids, now);
        var pruned := FailClaimedBatch(deleted, cfg, setup.tasks, ids, {}, now);
        if pruned.Ok? && |ids| < remaining {
          PruneEachSteady(pruned.value, setup, cfg, processes[1..], cutoff, remaining - |ids|, now);
        }
      }
    }
  }

  // ---------------------------------------------------------------- maintenance

  /** Only a semaphore without holders is collected, and then no job waits for it. */
  lemma CleanupSteady(db: Db, setup: Setup, locked: set<string>, now: Time)
    requires Valid(db) && Steady(db, setup)
    ensures Steady(CleanupSemaphores(db, locked, now), setup)
  {
    var after := CleanupSemaphores(db, locked, now);
    forall id | id in after.blocked
      ensures after.blocked[id].backend == setup.backend && Exhausted(after, after.blocked[id].key)
    {
      var key := db.blocked[id].key;
      assert Exhausted(db, key) && SemaphoreFits(setup, key, db.semaphores[key]);
      GoodSemaphore(db, {}, multiset{}, key);
    }
  }

  lemma ExpireFailedSteady(
    db: Db, setup: Setup, id: JobId, row: BlockedRow, consumed: bool, now: Time)
    requires Steady(db, setup) && id in db.jobs && (consumed || id in db.blocked)
    requires Settings(db.jobs[id], setup.tasks).Err?
    ensures var r := ExpireOne(db, setup.tasks, id, row, consumed, now);
            r.Ok? ==> Steady(r.value, setup) && r.value.jobs == db.jobs
  {
    hide Steady, Live;
    var after := PutFailed(if consumed then db else Evict(db, Blocked, id), id, now);
    QuietSteady(db, after, setup);
  }

  lemma ExpireOneSteady(
    db: Db, setup: Setup, id: JobId, row: BlockedRow, consumed: bool, now: Time)
    requires Steady(db, setup) && row.backend == setup.backend
    requires id in db.jobs ==> db.jobs[id].key == Some(row.key)
    ensures var r := ExpireOne(db, setup.tasks, id, row, consumed, now);
            r.Ok? ==> Steady(r.value, setup) && r.value.jobs == db.jobs
  {
    if id in db.jobs && (consumed || id in db.blocked) {
      assert JobFits(setup, db.jobs[id]);
      var policy := Settings(db.jobs[id], setup.tasks);
      hide Steady, Acquire, Live, ExpireOne, Settings;
      if policy.Err? {
        ExpireFailedSteady(db, setup, id, row, consumed, now);
      } else {
        AcquireSteady(db, setup, row.key, policy.value.duration, now);
        ExpirePlacedSteady(db, setup, id, row, consumed, now);
      }
    }
  }

  lemma ExpirePlacedSteady(
    db: Db, setup: Setup, id: JobId, row: BlockedRow, consumed: bool, now: Time)
    requires row.backend == setup.backend
    requires id in db.jobs && JobFits(setup, db.jobs[id]) && db.jobs[id].key == Some(row.key)
    requires Settings(db.jobs[id], setup.tasks).Ok?
    requires consumed || id in db.blocked
    requires var (taken, acquired) :=
               AcquireSlot(db, row.key, setup.limitOf(row.key), Settings(db.jobs[id], setup.tasks).value.duration, now);
             Steady(taken, setup) && (acquired || Exhausted(taken, row.key))
    ensures var r := ExpireOne(db, setup.tasks, id, row, consumed, now);
            r.Ok? ==> Steady(r.value, setup) && r.value.jobs == db.jobs
  {
    hide Steady, Acquire, Live;
    var p := Settings(db.jobs[id], setup.tasks).value;
    assert p.limit == setup.limitOf(row.key);
    hide JobFits, Settings;
    var (taken, acquired) := AcquireSlot(db, row.key, p.limit, p.duration, now);
    if acquired || !consumed {
      var r := ExpireOne(db, setup.tasks, id, row, consumed, now);
      if r.Ok? {
        if acquired {
          assert Quiet(taken, r.value);
          QuietSteady(taken, r.value, setup);
        } else {
          assert Quiet(taken, r.value);
          QuietSteady(taken, r.value, setup);
        }
      }
    } else {
      PutBlockedSteady(taken, setup, id, row.(expiresAt := now + p.duration));
    }
  }

  lemma {:induction false} ExpireEachSteady(
    db: Db, setup: Setup, ids: seq<JobId>, rows: map<JobId, BlockedRow>, consumed: bool, now: Time)
    requires Steady(db, setup)
    requires forall id :: id in ids && id in rows ==>
               rows[id].backend == setup.backend && (id in db.jobs ==> db.jobs[id].key == Some(rows[id].key))
    ensures var r := ExpireEach(db, setup.tasks, ids, rows, consumed, now);
            r.Ok? ==> Steady(r.value, setup)
    decreases |ids|
  {
    hide Steady, ExpireOne;
    if ids != [] && ids[0] in rows {
      assert ids[0] in ids;
      ExpireOneSteady(db, setup, ids[0], rows[ids[0]], consumed, now);
      var first := ExpireOne(db, setup.tasks, ids[0], rows[ids[0]], consumed, now);
      if first.Ok? {
        ExpireEachSteady(first.value, setup, ids[1..], rows, consumed, now);
      }
    }
  }
}
