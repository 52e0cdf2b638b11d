/** Every way of taking and releasing slots keeps the transaction invariant, and never raises. */
module SlotAccounting {
  import opened Results
  import opened Semaphores
  import opened Ordering
  import opened Tables
  import opened Slots

  // ---------------------------------------------------------------- semaphore rows

  /** Only the semaphore row of one key changed, and it counts as the pending slots say. */
  lemma ReslotGood(
    db: Db, key: string, row: Semaphore, forgotten: set<string>, loose: set<JobId>, pending: multiset<string>, n: nat)
    requires Good(db, loose, pending)
    requires forgotten == db.forgotten || forgotten == db.forgotten + {key}
    requires WellFormed(row)
    requires key !in forgotten ==> Occupied(Some(row)) + pending[key] == Tables.Slots(db, key) + n
    ensures Good(db.(semaphores := db.semaphores[key := row], forgotten := forgotten), loose, pending[key := n])
  {
    hide Accounted;
    var after := db.(semaphores := db.semaphores[key := row], forgotten := forgotten);
    assert OneState(after, loose) by {
      assert forall id :: Live(after, id) <==> Live(db, id);
      assert forall id :: id in db.jobs ==> StateCount(after, id) == StateCount(db, id);
    }
    AccountedReslot(db, after, key, pending, pending[key := n]);
  }

  lemma AcquireSlotGood(
    db: Db, key: string, limit: Positive, duration: int, now: Time, loose: set<JobId>, pending: multiset<string>)
    requires Good(db, loose, pending)
    ensures var (after, acquired) := AcquireSlot(db, key, limit, duration, now);
            Good(after, loose, if acquired then pending + multiset{key} else pending)
  {
    GoodSemaphore(db, loose, pending, key);
    hide Good;
    var (row, acquired) := Acquire(Lookup(db.semaphores, key), limit, now + duration, now);
    ReslotGood(db, key, row, Offer(db, key, limit, 0), loose, pending, pending[key] + One(acquired));
    assert pending[key := pending[key] + 1] == pending + multiset{key};
    assert pending[key := pending[key]] == pending;
  }

  lemma AcquireSlotsGood(
    db: Db, key: string, count: nat, limit: Positive, duration: int, now: Time, loose: set<JobId>,
    pending: multiset<string>)
    requires Good(db, loose, pending)
    ensures var (after, taken) := AcquireSlots(db, key, count, limit, duration, now);
            Good(after, loose, pending[key := pending[key] + taken])
  {
    GoodSemaphore(db, loose, pending, key);
    hide Good;
    var (row, taken) := AcquireMany(Lookup(db.semaphores, key), count, limit, now + duration, now);
    if row.Some? && count > 0 {
      ReslotGood(db, key, row.value, Offer(db, key, limit, 0), loose, pending, pending[key] + taken);
    } else {
      assert pending[key := pending[key]] == pending;
      assert row.Some? ==> db.semaphores[key := row.value] == db.semaphores;
    }
  }

  lemma ReleaseSemaphoreGood(
    db: Db, key: string, limit: Positive, duration: int, now: Time, loose: set<JobId>, pending: multiset<string>)
    requires Good(db, loose, pending) && key in pending
    requires key in db.forgotten || key in db.semaphores
    ensures Good(ReleaseSemaphore(db, key, limit, duration, now), loose, pending - multiset{key})
  {
    GoodSemaphore(db, loose, pending, key);
    hide Good;
    if key in db.semaphores {
      var row := Release(db.semaphores[key], limit, now + duration, now);
      ReslotGood(db, key, row, Offer(db, key, limit, 1), loose, pending, pending[key] - 1);
    } else {
      ForgetPending(db, key, loose, pending, pending[key] - 1);
    }
    assert pending[key := pending[key] - 1] == pending - multiset{key};
  }

  /** Nothing counts the slots of a forgotten key. */
  lemma ForgetPending(db: Db, key: string, loose: set<JobId>, pending: multiset<string>, n: nat)
    requires Good(db, loose, pending)
    requires key in db.forgotten
    ensures Good(db, loose, pending[key := n])
  {
    AccountedReslot(db, db, key, pending, pending[key := n]);
  }

  /** A pending slot has a semaphore row that counts it. */
  lemma PendingRow(db: Db, loose: set<JobId>, pending: multiset<string>, key: string)
    requires Good(db, loose, pending) && key in pending
    ensures key in db.forgotten || (key in db.semaphores && Tables.Slots(db, key) >= 1)
  {
    GoodSemaphore(db, loose, pending, key);
  }

  lemma TakeForBlockedGood(
    db: Db, key: string, limit: Positive, duration: int, mode: HandoffMode, now: Time, loose: set<JobId>,
    pending: multiset<string>)
    requires Good(db, loose, pending)
    requires mode.ReleaseClaimed? ==> key in pending
    requires mode.ConsumeFreed? && key in db.semaphores ==> db.semaphores[key].limit == limit
    ensures var (after, acquired) := TakeForBlocked(db, key, limit, duration, mode, now);
            Good(after, loose, if acquired && mode.ConsumeFreed? then pending + multiset{key} else pending)
  {
    GoodSemaphore(db, loose, pending, key);
    hide Good;
    if key in db.semaphores {
      var s := db.semaphores[key];
      assert pending[key := pending[key] + 1] == pending + multiset{key};
      assert pending[key := pending[key]] == pending;
      if mode.ReleaseClaimed? {
        PendingRow(db, loose, pending, key);
        var (row, acquired) := Handoff(s, limit, now + duration, now);
        ReslotGood(db, key, row, db.forgotten, loose, pending, pending[key]);
      } else {
        var (row, acquired) := ConsumeReleased(s, limit, now + duration, now);
        ReslotGood(db, key, row, db.forgotten, loose, pending, pending[key] + One(acquired));
      }
    }
  }

  // ---------------------------------------------------------------- blocked jobs

  lemma WaitingJob(db: Db, backend: string, key: string, hidden: set<JobId>, e: Entry)
    requires e in Waiting(db, backend, key, hidden)
    ensures Waits(db, backend, key, hidden, e.job)
    ensures e == Entry(0, db.blocked[e.job].priority, db.blocked[e.job].pk, e.job)
  {
  }

  lemma PromoteGood(db: Db, backend: string, id: JobId, loose: set<JobId>, pending: multiset<string>)
    requires Good(db, loose, pending) && id in db.blocked && db.blocked[id].backend == backend
    requires db.blocked[id].key in pending
    ensures id in db.jobs
    ensures var r := Promote(db, backend, id);
            && r.Ok? && r.value.jobs == db.jobs
            && Good(r.value, loose, pending - multiset{db.blocked[id].key})
            && r.value.blocked == db.blocked - {id}
  {
    GoodBlocked(db, loose, pending, id);
    EvictGood(db, Blocked, id, loose, pending);
    hide Good;
    assert pending + Freed(Blocked, KeyBag(db.jobs[id])) == pending;
    PutReadyGood(Evict(db, Blocked, id), id, loose + {id}, pending);
    assert loose + {id} - {id} == loose;
  }

  lemma RestoreGood(db: Db, id: JobId, loose: set<JobId>, pending: multiset<string>)
    requires Good(db, loose, pending) && id in db.blocked
    ensures var r := Restore(db, id);
            r.Ok? && r.value.jobs == db.jobs && Good(r.value, loose, pending)
  {
    GoodBlocked(db, loose, pending, id);
    EvictGood(db, Blocked, id, loose, pending);
    hide Good;
    assert pending + Freed(Blocked, KeyBag(db.jobs[id])) == pending;
    PutBlockedGood(Evict(db, Blocked, id), id, db.blocked[id], loose + {id}, pending);
    assert loose + {id} - {id} == loose;
  }

  lemma UnblockNextGood(
    db: Db, cfg: Config, key: string, limit: Positive, duration: int, mode: HandoffMode, hidden: set<JobId>,
    now: Time, loose: set<JobId>, pending: multiset<string>)
    requires Good(db, loose, pending)
    requires mode.ReleaseClaimed? ==> key in pending
    requires mode.ConsumeFreed? && key in db.semaphores ==> db.semaphores[key].limit == limit
    ensures var r := UnblockNext(db, cfg, key, limit, duration, mode, hidden, now);
            && r.Ok?
            && Good(r.value.0, loose,
                    if r.value.1 && mode.ReleaseClaimed? then pending - multiset{key} else pending)
            && r.value.0.jobs == db.jobs
  {
    hide Good, Promote, Restore;
    var waiting := Waiting(db, cfg.backend, key, hidden);
    if waiting != {} {
      var id := Least(waiting).job;
      WaitingJob(db, cfg.backend, key, hidden, Least(waiting));
      GoodBlocked(db, loose, pending, id);
      var (taken, acquired) := TakeForBlocked(db, key, limit, duration, mode, now);
      TakeForBlockedGood(db, key, limit, duration, mode, now, loose, pending);
      if acquired {
        var held := if mode.ConsumeFreed? then pending + multiset{key} else pending;
        PromoteGood(taken, cfg.backend, id, loose, held);
        assert pending + multiset{key} - multiset{key} == pending;
      } else if !(mode.ReleaseClaimed? && cfg.family.Postgres?) {
        RestoreGood(taken, id, loose, pending);
      }
    }
  }

  lemma ReleaseKeyGood(
    db: Db, cfg: Config, key: string, limit: Positive, duration: int, hidden: set<JobId>, now: Time,
    loose: set<JobId>, pending: multiset<string>)
    requires Good(db, loose, pending) && key in pending
    ensures var r := ReleaseKey(db, cfg, key, limit, duration, hidden, now);
            r.Ok? && Good(r.value, loose, pending - multiset{key}) && r.value.jobs == db.jobs
  {
    hide Good, UnblockNext;
    UnblockNextGood(db, cfg, key, limit, duration, ReleaseClaimed, hidden, now, loose, pending);
    var (first, unblocked) := UnblockNext(db, cfg, key, limit, duration, ReleaseClaimed, hidden, now).value;
    if !unblocked {
      PendingRow(first, loose, pending, key);
      ReleaseSemaphoreGood(first, key, limit, duration, now, loose, pending);
      var released := ReleaseSemaphore(first, key, limit, duration, now);
      UnblockNextGood(released, cfg, key, limit, duration, ConsumeFreed, hidden, now, loose, pending - multiset{key});
    }
  }

  lemma ReleaseSlotGood(
    db: Db, cfg: Config, tasks: Tasks, job: Job, hidden: set<JobId>, now: Time, loose: set<JobId>,
    pending: multiset<string>)
    requires Good(db, loose, pending) && KeyBag(job) <= pending
    ensures var r := ReleaseSlot(db, cfg, tasks, job, hidden, now);
            r.Ok? && Good(r.value, loose, pending - KeyBag(job)) && r.value.jobs == db.jobs
  {
    hide Good, ReleaseKey;
    match job.key
    case None => assert pending - KeyBag(job) == pending;
    case Some(key) =>
      var (limit, duration) := ReleaseSettings(db, cfg, tasks, job, key);
      ReleaseKeyGood(db, cfg, key, limit, duration, hidden, now, loose, pending);
  }

  /** Releasing the slots of departed jobs one after another settles all their pending slots. */
  lemma {:induction false} ReleaseSlotsGood(
    db: Db, cfg: Config, tasks: Tasks, jobs: seq<Job>, hidden: set<JobId>, now: Time, loose: set<JobId>,
    pending: multiset<string>)
    requires Good(db, loose, pending + Bag(jobs))
    ensures var r := ReleaseSlots(db, cfg, tasks, jobs, hidden, now);
            r.Ok? && Good(r.value, loose, pending) && r.value.jobs == db.jobs
    decreases |jobs|
  {
    hide Good;
    if jobs == [] {
      assert pending + Bag(jobs) == pending;
    } else {
      ReleaseSlotGood(db, cfg, tasks, jobs[0], hidden, now, loose, pending + Bag(jobs));
      assert pending + Bag(jobs) - KeyBag(jobs[0]) == pending + Bag(jobs[1..]);
      var first := ReleaseSlot(db, cfg, tasks, jobs[0], hidden, now).value;
      ReleaseSlotsGood(first, cfg, tasks, jobs[1..], hidden, now, loose, pending);
    }
  }

  // ---------------------------------------------------------------- recovered groups

  lemma {:induction false} PromoteAllGood(
    db: Db, backend: string, key: string, ids: seq<JobId>, loose: set<JobId>, pending: multiset<string>)
    requires Good(db, loose, pending) && Distinct(ids)
    requires forall id :: id in ids ==> Waits(db, backend, key, {}, id)
    requires |ids| <= pending[key]
    ensures var r := PromoteAll(db, backend, ids);
            r.Ok? && Good(r.value, loose, pending[key := pending[key] - |ids|]) && r.value.jobs == db.jobs
    decreases |ids|
  {
    hide Good, Promote;
    if ids == [] {
      assert pending[key := pending[key]] == pending;
    } else {
      assert ids[0] in ids;
      PromoteGood(db, backend, ids[0], loose, pending);
      var first := Promote(db, backend, ids[0]).value;
      forall id | id in ids[1..]
        ensures Waits(first, backend, key, {}, id)
      {
        assert id in ids && id != ids[0];
      }
      PromoteAllGood(first, backend, key, ids[1..], loose, pending - multiset{key});
      assert pending[key := pending[key] - |ids|]
          == (pending - multiset{key})[key := (pending - multiset{key})[key] - |ids[1..]|];
    }
  }

  lemma TakenJobs(db: Db, backend: string, key: string, hidden: set<JobId>, count: nat)
    ensures var ids := Jobs(Take(Waiting(db, backend, key, hidden), count));
            && Distinct(ids)
            && (forall id :: id in ids ==> Waits(db, backend, key, hidden, id))
  {
    var waiting := Waiting(db, backend, key, hidden);
    var es := Take(waiting, count);
    forall i | 0 <= i < |es|
      ensures es[i] in waiting && Waits(db, backend, key, hidden, es[i].job)
      ensures es[i] == Entry(0, db.blocked[es[i].job].priority, db.blocked[es[i].job].pk, es[i].job)
    {
      assert es[i] in es;
      WaitingJob(db, backend, key, hidden, es[i]);
    }
    forall i, j | 0 <= i < j < |es|
      ensures es[i].job != es[j].job
    {
      assert Before(es[i], es[j]);
    }
  }

  /** The group's semaphore write leaves the slots of the jobs about to be promoted pending. */
  lemma SettleGroupGood(
    db: Db, key: string, count: nat, promoted: nat, limit: Positive, duration: int, now: Time, loose: set<JobId>,
    pending: multiset<string>)
    requires Good(db, loose, pending) && 1 <= count <= pending[key] && key in db.semaphores
    requires promoted <= count && promoted <= Available(db.semaphores[key], limit, count)
    ensures Good(SettleGroup(db, key, count, promoted, limit, duration, now), loose,
                 pending[key := pending[key] - count + promoted])
  {
    GoodSemaphore(db, loose, pending, key);
    hide Good;
    var row := ReleaseGroup(db.semaphores[key], count, promoted, limit, now + duration, now);
    ReslotGood(db, key, row, Offer(db, key, limit, count), loose, pending, pending[key] - count + promoted);
  }

  lemma ReleaseGroupGood(
    db: Db, cfg: Config, key: string, count: nat, limit: Positive, duration: int, hidden: set<JobId>, now: Time,
    loose: set<JobId>, pending: multiset<string>)
    requires Good(db, loose, pending) && 1 <= count <= pending[key]
    ensures var r := ReleaseGroupOf(db, cfg, key, count, limit, duration, hidden, now);
            r.Ok? && Good(r.value, loose, pending[key := pending[key] - count]) && r.value.jobs == db.jobs
  {
    hide Good, PromoteAll, Take, Waiting;
    PendingRow(db, loose, pending, key);
    var rows := Jobs(Take(Waiting(db, cfg.backend, key, hidden), count));
    TakenJobs(db, cfg.backend, key, hidden, count);
    forall id | id in rows
      ensures id in db.jobs && db.jobs[id].backend == cfg.backend
    {
      GoodBlocked(db, loose, pending, id);
    }
    if key !in db.semaphores {
      ForgetPending(db, key, loose, pending, pending[key] - count);
    } else {
      var promoted := Min(count, Min(Available(db.semaphores[key], limit, count), |rows|));
      var settled := SettleGroup(db, key, count, promoted, limit, duration, now);
      var held := pending[key := pending[key] - count + promoted];
      SettleGroupGood(db, key, count, promoted, limit, duration, now, loose, pending);
      forall id | id in rows[..promoted]
        ensures Waits(settled, cfg.backend, key, {}, id)
      {
        assert id in rows && Waits(db, cfg.backend, key, hidden, id);
      }
      PromoteAllGood(settled, cfg.backend, key, rows[..promoted], loose, held);
      assert held[key := held[key] - promoted] == pending[key := pending[key] - count];
    }
  }
}
