/** Releasing the slots of one key as a recovered group is releasing them one by one. */
module GroupRelease {
  import opened Results
  import opened Semaphores
  import opened Ordering
  import opened Tables
  import opened Slots
  import opened SlotAccounting

  function ReleaseKeyTimes(
    db: Db, cfg: Config, key: string, n: nat, limit: Positive, duration: int, hidden: set<JobId>, now: Time)
    : Result<Db>
    decreases n
  {
    if n == 0 then
      Ok(db)
    else
      var first :- ReleaseKey(db, cfg, key, limit, duration, hidden, now);
      ReleaseKeyTimes(first, cfg, key, n - 1, limit, duration, hidden, now)
  }

  /**
   Under the slot invariant, with an offered limit that covers the slots in use, the group release of
   `n` slots and `n` single releases leave the very same database: the same blocked jobs promoted in
   the same order, the same rows and the same semaphore.
   */
  lemma {:induction false} GroupIsRepeatedRelease(
    db: Db, cfg: Config, key: string, n: nat, limit: Positive, duration: int, hidden: set<JobId>, now: Time,
    loose: set<JobId>, pending: multiset<string>)
    requires Good(db, loose, pending) && 1 <= n <= pending[key]
    requires key !in db.forgotten && limit >= Tables.Slots(db, key)
    ensures ReleaseGroupOf(db, cfg, key, n, limit, duration, hidden, now)
         == ReleaseKeyTimes(db, cfg, key, n, limit, duration, hidden, now)
    decreases n
  {
    hide Good, ReleaseGroupOf, ReleaseKey, ReleaseKeyTimes;
    ReleaseKeyGood(db, cfg, key, limit, duration, hidden, now, loose, pending);
    var first := ReleaseKey(db, cfg, key, limit, duration, hidden, now).value;
    GroupStep(db, cfg, key, n, limit, duration, hidden, now, loose, pending);
    TimesUnfold(db, cfg, key, n, limit, duration, hidden, now, first);
    if n == 1 {
      EmptyGroup(first, cfg, key, limit, duration, hidden, now);
      NoTimes(first, cfg, key, limit, duration, hidden, now);
    } else {
      var rest := pending - multiset{key};
      assert rest[key] == pending[key] - 1;
      GroupIsRepeatedRelease(first, cfg, key, n - 1, limit, duration, hidden, now, loose, rest);
    }
  }

  lemma TimesUnfold(
    db: Db, cfg: Config, key: string, n: nat, limit: Positive, duration: int, hidden: set<JobId>, now: Time, first: Db)
    requires n >= 1 && ReleaseKey(db, cfg, key, limit, duration, hidden, now) == Ok(first)
    ensures ReleaseKeyTimes(db, cfg, key, n, limit, duration, hidden, now)
         == ReleaseKeyTimes(first, cfg, key, n - 1, limit, duration, hidden, now)
  {
    hide ReleaseKey;
  }

  lemma NoTimes(
    db: Db, cfg: Config, key: string, limit: Positive, duration: int, hidden: set<JobId>, now: Time)
    ensures ReleaseKeyTimes(db, cfg, key, 0, limit, duration, hidden, now) == Ok(db)
  {
  }

  /** A group of no slots rewrites an already settled row with what it holds. */
  lemma EmptyGroup(
    db: Db, cfg: Config, key: string, limit: Positive, duration: int, hidden: set<JobId>, now: Time)
    requires key in db.semaphores && limit >= Tables.Slots(db, key)
    requires db.semaphores[key] == Settled(db.semaphores[key].value, limit, now + duration, now)
    requires 0 <= db.semaphores[key].value <= limit
    ensures ReleaseGroupOf(db, cfg, key, 0, limit, duration, hidden, now) == Ok(db)
  {
    var rows := Jobs(Take(Waiting(db, cfg.backend, key, hidden), 0));
    assert rows == [];
    assert db.semaphores[key := db.semaphores[key]] == db.semaphores;
    assert SettleGroup(db, key, 0, 0, limit, duration, now) == db;
  }

  /** One single release, then the group of the rest. */
  lemma GroupStep(
    db: Db, cfg: Config, key: string, n: nat, limit: Positive, duration: int, hidden: set<JobId>, now: Time,
    loose: set<JobId>, pending: multiset<string>)
    requires Good(db, loose, pending) && 1 <= n <= pending[key]
    requires key !in db.forgotten && limit >= Tables.Slots(db, key)
    ensures var r := ReleaseKey(db, cfg, key, limit, duration, hidden, now);
            && r.Ok?
            && key in r.value.semaphores && key !in r.value.forgotten
            && Tables.Slots(r.value, key) <= Tables.Slots(db, key)
            && r.value.semaphores[key] == Settled(r.value.semaphores[key].value, limit, now + duration, now)
            && 0 <= r.value.semaphores[key].value <= limit
            && ReleaseGroupOf(db, cfg, key, n, limit, duration, hidden, now)
               == ReleaseGroupOf(r.value, cfg, key, n - 1, limit, duration, hidden, now)
  {
    hide Good, ReleaseGroupOf, ReleaseKey, Waiting, Take, Promote, TakeForBlocked, Waits, Live;
    GoodSemaphore(db, loose, pending, key);
    GoodWaiting(db, cfg, key, n, hidden, loose, pending);
    if Waiting(db, cfg.backend, key, hidden) == {} {
      GroupStepWithoutWaiters(db, cfg, key, n, limit, duration, hidden, now);
    } else {
      var e := Least(Waiting(db, cfg.backend, key, hidden));
      WaitingJob(db, cfg.backend, key, hidden, e);
      GoodBlocked(db, loose, pending, e.job);
      HandoffResult(db, cfg, key, limit, duration, hidden, now, e.job);
      GroupStepWithWaiters(db, cfg, key, n, limit, duration, hidden, now, e);
    }
  }

  /** The selected blocked jobs belong to the backend that selects them. */
  lemma GoodWaiting(
    db: Db, cfg: Config, key: string, n: nat, hidden: set<JobId>, loose: set<JobId>, pending: multiset<string>)
    requires Good(db, loose, pending)
    ensures forall j :: j in Jobs(Take(Waiting(db, cfg.backend, key, hidden), n)) ==>
              j in db.jobs && db.jobs[j].backend == cfg.backend
  {
    hide Good, Take, Waiting;
    TakenJobs(db, cfg.backend, key, hidden, n);
    forall j | j in Jobs(Take(Waiting(db, cfg.backend, key, hidden), n))
      ensures j in db.jobs && db.jobs[j].backend == cfg.backend
    {
      GoodBlocked(db, loose, pending, j);
    }
  }

  /** With a slot to hand over, a release promotes the first waiting job and nothing else. */
  lemma HandoffResult(
    db: Db, cfg: Config, key: string, limit: Positive, duration: int, hidden: set<JobId>, now: Time, id: JobId)
    requires key in db.semaphores && WellFormed(db.semaphores[key])
    requires 1 <= Tables.Slots(db, key) <= limit
    requires Waiting(db, cfg.backend, key, hidden) != {}
    requires id == Least(Waiting(db, cfg.backend, key, hidden)).job
    requires Waits(db, cfg.backend, key, hidden, id) && !Live(Evict(db, Blocked, id), id)
    requires id in db.jobs && db.jobs[id].backend == cfg.backend
    ensures var taken := TakeForBlocked(db, key, limit, duration, ReleaseClaimed, now).0;
            && id in taken.blocked && Promote(taken, cfg.backend, id).Ok?
            && var after := Promote(taken, cfg.backend, id).value;
               && ReleaseKey(db, cfg, key, limit, duration, hidden, now) == Ok(after)
               && after.semaphores == taken.semaphores && after.forgotten == db.forgotten
               && after.blocked == db.blocked - {id}
               && key in after.semaphores
               && after.semaphores[key] == Settled(limit - Tables.Slots(db, key), limit, now + duration, now)
  {
    var (taken, acquired) := TakeForBlocked(db, key, limit, duration, ReleaseClaimed, now);
    assert acquired;
    assert Evict(taken, Blocked, id).ready == Evict(db, Blocked, id).ready;
    assert !Live(Evict(taken, Blocked, id), id);
  }

  lemma GroupStepWithoutWaiters(
    db: Db, cfg: Config, key: string, n: nat, limit: Positive, duration: int, hidden: set<JobId>, now: Time)
    requires n >= 1 && key in db.semaphores && WellFormed(db.semaphores[key])
    requires n <= Tables.Slots(db, key) <= limit && key !in db.forgotten
    requires Waiting(db, cfg.backend, key, hidden) == {}
    ensures var after := ReleaseSemaphore(db, key, limit, duration, now);
            && ReleaseKey(db, cfg, key, limit, duration, hidden, now) == Ok(after)
            && key !in after.forgotten
            && Tables.Slots(after, key) == Tables.Slots(db, key) - 1
            && ReleaseGroupOf(db, cfg, key, n, limit, duration, hidden, now)
               == ReleaseGroupOf(after, cfg, key, n - 1, limit, duration, hidden, now)
  {
    var after := ReleaseSemaphore(db, key, limit, duration, now);
    assert Waiting(after, cfg.backend, key, hidden) == {} by {
      SameBlockedWaiting(db, after, cfg.backend, key, hidden);
    }
    var s := db.semaphores[key];
    var s1 := after.semaphores[key];
    assert Available(s1, limit, n - 1) == Available(s, limit, n);
    assert SettleGroup(db, key, n, 0, limit, duration, now) == SettleGroup(after, key, n - 1, 0, limit, duration, now);
  }

  lemma SameBlockedWaiting(a: Db, b: Db, backend: string, key: string, hidden: set<JobId>)
    requires a.blocked == b.blocked
    ensures Waiting(a, backend, key, hidden) == Waiting(b, backend, key, hidden)
  {
    assert forall id :: Waits(a, backend, key, hidden, id) <==> Waits(b, backend, key, hidden, id);
  }

  lemma WaitingAfterEvict(a: Db, b: Db, backend: string, key: string, hidden: set<JobId>, id: JobId)
    requires Waits(a, backend, key, hidden, id) && b.blocked == a.blocked - {id}
    ensures Waiting(b, backend, key, hidden)
         == Waiting(a, backend, key, hidden) - {Entry(0, a.blocked[id].priority, a.blocked[id].pk, id)}
  {
    var (wa, wb) := (Waiting(a, backend, key, hidden), Waiting(b, backend, key, hidden));
    var e := Entry(0, a.blocked[id].priority, a.blocked[id].pk, id);
    forall x
      ensures x in wb <==> x in wa - {e}
    {
      if x in wb {
        WaitingJob(b, backend, key, hidden, x);
        assert Waits(a, backend, key, hidden, x.job);
      }
      if x in wa - {e} {
        WaitingJob(a, backend, key, hidden, x);
        assert Waits(b, backend, key, hidden, x.job);
      }
    }
  }

  /** Promoting one job and settling the semaphore touch different tables. */
  lemma PromoteSettled(
    db: Db, taken: Db, backend: string, key: string, n: nat, p: nat, limit: Positive, duration: int, now: Time,
    id: JobId)
    requires 1 <= p <= n && key in db.semaphores && WellFormed(db.semaphores[key])
    requires n <= Tables.Slots(db, key) <= limit && key !in db.forgotten
    requires taken == TakeForBlocked(db, key, limit, duration, ReleaseClaimed, now).0
    requires id in db.blocked && !Live(Evict(db, Blocked, id), id)
    ensures id in taken.blocked && Promote(taken, backend, id).Ok? && key in taken.semaphores
    ensures var after := Promote(taken, backend, id).value;
            && after.jobs == db.jobs && after.blocked == db.blocked - {id}
            && after.semaphores == taken.semaphores && WellFormed(after.semaphores[key])
            && Tables.Slots(after, key) == Tables.Slots(db, key)
    ensures id in SettleGroup(db, key, n, p, limit, duration, now).blocked
    ensures Promote(SettleGroup(db, key, n, p, limit, duration, now), backend, id)
         == Ok(SettleGroup(Promote(taken, backend, id).value, key, n - 1, p - 1, limit, duration, now))
  {
    var s := db.semaphores[key];
    var s1 := taken.semaphores[key];
    assert Available(s1, limit, n - 1) - (p - 1) == Available(s, limit, n) - p;
    var after := Promote(taken, backend, id).value;
    assert SettleGroup(after, key, n - 1, p - 1, limit, duration, now).semaphores
        == SettleGroup(db, key, n, p, limit, duration, now).semaphores;
  }

  lemma GroupStepWithWaiters(
    db: Db, cfg: Config, key: string, n: nat, limit: Positive, duration: int, hidden: set<JobId>, now: Time, e: Entry)
    requires n >= 1 && key in db.semaphores && WellFormed(db.semaphores[key])
    requires n <= Tables.Slots(db, key) <= limit && key !in db.forgotten
    requires Waiting(db, cfg.backend, key, hidden) != {} && e == Least(Waiting(db, cfg.backend, key, hidden))
    requires !Live(Evict(db, Blocked, e.job), e.job)
    requires forall j :: j in Jobs(Take(Waiting(db, cfg.backend, key, hidden), n)) ==>
               j in db.jobs && db.jobs[j].backend == cfg.backend
    ensures var taken := TakeForBlocked(db, key, limit, duration, ReleaseClaimed, now).0;
            && e.job in taken.blocked && Promote(taken, cfg.backend, e.job).Ok?
            && ReleaseGroupOf(db, cfg, key, n, limit, duration, hidden, now)
               == ReleaseGroupOf(Promote(taken, cfg.backend, e.job).value, cfg, key, n - 1, limit, duration, hidden, now)
  {
    hide Take, Waiting, Live, Promote, ReleaseGroupOf, SettleGroup, TakeForBlocked;
    var waiting := Waiting(db, cfg.backend, key, hidden);
    WaitingJob(db, cfg.backend, key, hidden, e);
    var taken := TakeForBlocked(db, key, limit, duration, ReleaseClaimed, now).0;
    PromoteSettled(db, taken, cfg.backend, key, n, 1, limit, duration, now, e.job);
    var after := Promote(taken, cfg.backend, e.job).value;
    WaitingAfterEvict(db, after, cfg.backend, key, hidden, e.job);
    TakeSplit(waiting, n);
    GroupJoin(db, taken, after, cfg, key, n, limit, duration, hidden, now, e.job, Jobs(Take(waiting - {e}, n - 1)));
  }

  lemma GroupJoin(
    db: Db, taken: Db, after: Db, cfg: Config, key: string, n: nat, limit: Positive, duration: int,
    hidden: set<JobId>, now: Time, id: JobId, rest: seq<JobId>)
    requires n >= 1 && key in db.semaphores && WellFormed(db.semaphores[key])
    requires n <= Tables.Slots(db, key) <= limit && key !in db.forgotten
    requires taken == TakeForBlocked(db, key, limit, duration, ReleaseClaimed, now).0
    requires id in db.blocked && !Live(Evict(db, Blocked, id), id)
    requires id in taken.blocked && Promote(taken, cfg.backend, id) == Ok(after)
    requires Jobs(Take(Waiting(db, cfg.backend, key, hidden), n)) == [id] + rest
    requires Jobs(Take(Waiting(after, cfg.backend, key, hidden), n - 1)) == rest
    requires forall j :: j in [id] + rest ==> j in db.jobs && db.jobs[j].backend == cfg.backend
    ensures ReleaseGroupOf(db, cfg, key, n, limit, duration, hidden, now)
         == ReleaseGroupOf(after, cfg, key, n - 1, limit, duration, hidden, now)
  {
    hide Take, Waiting, Live, Promote, ReleaseGroupOf, SettleGroup, TakeForBlocked, Jobs, Evict;
    var p := Min(n, |rest| + 1);
    PromoteSettled(db, taken, cfg.backend, key, n, p, limit, duration, now, id);
    GroupRows(db, cfg, key, n, limit, duration, hidden, now, [id] + rest, p);
    assert forall j :: j in rest ==> j in [id] + rest;
    GroupRows(after, cfg, key, n - 1, limit, duration, hidden, now, rest, p - 1);
    PromoteFirst(SettleGroup(db, key, n, p, limit, duration, now), cfg.backend, id, rest, p);
  }

  lemma PromoteFirst(db: Db, backend: string, id: JobId, rest: seq<JobId>, p: nat)
    requires 1 <= p <= |rest| + 1 && id in db.blocked && Promote(db, backend, id).Ok?
    ensures PromoteAll(db, backend, ([id] + rest)[..p])
         == PromoteAll(Promote(db, backend, id).value, backend, rest[..p - 1])
  {
    hide Promote;
    assert ([id] + rest)[..p][1..] == rest[..p - 1];
  }

  lemma JobsCons(e: Entry, rest: seq<Entry>)
    ensures Jobs([e] + rest) == [e.job] + Jobs(rest)
  {
  }

  lemma TakeSplit(waiting: set<Entry>, n: nat)
    requires waiting != {} && n >= 1
    ensures var e := Least(waiting);
            Jobs(Take(waiting, n)) == [e.job] + Jobs(Take(waiting - {e}, n - 1))
  {
    hide Jobs, IsFirst, IsLeast;
    var e := Least(waiting);
    JobsCons(e, Take(waiting - {e}, n - 1));
  }

  /** With enough slots in use to come back, the number of promotions is the number of rows taken. */
  lemma GroupRows(
    db: Db, cfg: Config, key: string, n: nat, limit: Positive, duration: int, hidden: set<JobId>, now: Time,
    rows: seq<JobId>, p: nat)
    requires key in db.semaphores && WellFormed(db.semaphores[key])
    requires n <= Tables.Slots(db, key) <= limit
    requires rows == Jobs(Take(Waiting(db, cfg.backend, key, hidden), n)) && p == Min(n, |rows|)
    requires forall j :: j in rows ==> j in db.jobs && db.jobs[j].backend == cfg.backend
    ensures ReleaseGroupOf(db, cfg, key, n, limit, duration, hidden, now)
         == PromoteAll(SettleGroup(db, key, n, p, limit, duration, now), cfg.backend, rows[..p])
  {
    hide Take, Waiting;
    assert Available(db.semaphores[key], limit, n) >= n;
  }
}
