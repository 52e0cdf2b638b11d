/** What releasing slots leaves in the tables: who is promoted, and what the semaphore counts. */
module ReleaseOutcomes {
  import opened Results
  import opened Semaphores
  import opened Ordering
  import opened Grouping
  import opened Tables
  import opened Slots
  import opened SlotAccounting
  import opened Lifecycle
  import opened LifecycleSafety
  import opened Outcomes
  import opened Selections
  import opened RecoveryOutcomes

  // ---------------------------------------------------------------- who waits

  /** A blocked row of the backend and the key, not locked. */
  predicate MayUnblock(db: Db, cfg: Config, key: string, hidden: set<JobId>, id: JobId) {
    id in db.blocked && id !in hidden && db.blocked[id].backend == cfg.backend && db.blocked[id].key == key
  }

  function MayUnblockIn(db: Db, cfg: Config, key: string, hidden: set<JobId>): JobId -> bool {
    (id: JobId) => MayUnblock(db, cfg, key, hidden, id)
  }

  /** Higher priorities first, then older rows. */
  function WaitColumns(db: Db): JobId -> Columns {
    (id: JobId) => if id in db.blocked then (0, db.blocked[id].priority, db.blocked[id].pk) else (0, 0, 0)
  }

  function WaitEntries(db: Db): JobId -> Entry {
    (id: JobId) => if id in db.blocked then Entry(0, db.blocked[id].priority, db.blocked[id].pk, id) else Entry(0, 0, 0, id)
  }

  function Waiters(db: Db, cfg: Config, key: string, hidden: set<JobId>): set<JobId> {
    set id | id in db.blocked && MayUnblock(db, cfg, key, hidden, id)
  }

  lemma WaitingIsBatch(db: Db, cfg: Config, key: string, hidden: set<JobId>, k: nat)
    ensures Jobs(Take(Waiting(db, cfg.backend, key, hidden), k)) == Batch(Waiters(db, cfg, key, hidden), WaitEntries(db), k)
    ensures Waiting(db, cfg.backend, key, hidden) == {} <==> Waiters(db, cfg, key, hidden) == {}
  {
    var waiters := Waiters(db, cfg, key, hidden);
    var entries := set id | id in waiters :: WaitEntries(db)(id).(job := id);
    forall e
      ensures e in Waiting(db, cfg.backend, key, hidden) <==> e in entries
    {
      if e in entries {
        assert e.job in waiters && e == WaitEntries(db)(e.job).(job := e.job);
        assert Waits(db, cfg.backend, key, hidden, e.job);
      }
      if e in Waiting(db, cfg.backend, key, hidden) {
        WaitingJob(db, cfg.backend, key, hidden, e);
        assert e.job in waiters && e == WaitEntries(db)(e.job).(job := e.job);
      }
    }
    assert Waiting(db, cfg.backend, key, hidden) == entries;
    if id :| id in waiters {
      assert Waits(db, cfg.backend, key, hidden, id);
      assert Entry(0, db.blocked[id].priority, db.blocked[id].pk, id) in Waiting(db, cfg.backend, key, hidden);
    }
    hide Take;
  }

  lemma WaitingAreFirst(db: Db, cfg: Config, key: string, hidden: set<JobId>, k: nat)
    ensures var ids := Jobs(Take(Waiting(db, cfg.backend, key, hidden), k));
            && AreFirst(Members(ids), MayUnblockIn(db, cfg, key, hidden), WaitColumns(db), k)
            && InOrder(ids, WaitColumns(db)) && Distinct(ids)
  {
    hide Take, Waiting, Batch, AreFirst, InOrder, Distinct;
    var waiters := Waiters(db, cfg, key, hidden);
    WaitingIsBatch(db, cfg, key, hidden, k);
    BatchIsFirstOf(waiters, WaitEntries(db), k, MayUnblockIn(db, cfg, key, hidden), WaitColumns(db));
    BatchInOrder(waiters, WaitEntries(db), k, WaitColumns(db));
    BatchMembers(waiters, WaitEntries(db), k);
  }

  /** The least waiting row is the first one. */
  lemma LeastIsFirst(db: Db, cfg: Config, key: string, hidden: set<JobId>)
    requires Waiting(db, cfg.backend, key, hidden) != {}
    ensures var id := Least(Waiting(db, cfg.backend, key, hidden)).job;
            && MayUnblock(db, cfg, key, hidden, id)
            && AreFirst({id}, MayUnblockIn(db, cfg, key, hidden), WaitColumns(db), 1)
  {
    var waiting := Waiting(db, cfg.backend, key, hidden);
    var e := Least(waiting);
    WaitingJob(db, cfg.backend, key, hidden, e);
    forall id | MayUnblock(db, cfg, key, hidden, id) && id != e.job
      ensures NoLater(WaitColumns(db)(e.job), WaitColumns(db)(id))
    {
      assert Waits(db, cfg.backend, key, hidden, id);
      assert Entry(0, db.blocked[id].priority, db.blocked[id].pk, id) in waiting;
    }
    hide Least, Waiting, Waits, NoLater;
    assert |{e.job}| == 1;
  }

  // ---------------------------------------------------------------- one release

  /** Nothing but the ids of blocked rows has changed. */
  ghost predicate Requeued(a: Db, b: Db) {
    && b == a.(blocked := b.blocked, nextPk := b.nextPk) && b.blocked.Keys == a.blocked.Keys
    && forall id :: id in a.blocked ==> b.blocked[id].(pk := a.blocked[id].pk) == a.blocked[id]
  }

  lemma RestoreRequeues(db: Db, id: JobId)
    requires id in db.blocked && Restore(db, id).Ok?
    ensures Requeued(db, Restore(db, id).value)
  {
    hide Live;
    assert db.blocked.Keys == (db.blocked - {id}).Keys + {id};
  }

  lemma UnblockFails(
    db: Db, cfg: Config, key: string, limit: Positive, duration: int, mode: HandoffMode, hidden: set<JobId>, now: Time)
    requires var r := UnblockNext(db, cfg, key, limit, duration, mode, hidden, now); r.Ok? && !r.value.1
    ensures Requeued(db, UnblockNext(db, cfg, key, limit, duration, mode, hidden, now).value.0)
  {
    var waiting := Waiting(db, cfg.backend, key, hidden);
    if waiting != {} {
      var id := Least(waiting).job;
      WaitingJob(db, cfg.backend, key, hidden, Least(waiting));
      NotTaken(db, key, limit, duration, mode, now);
      hide Least, Waiting, Requeued, Restore, Promote, TakeForBlocked;
      if Restore(db, id).Ok? {
        RestoreRequeues(db, id);
      }
      SameRequeued(db);
    }
  }

  lemma SameRequeued(db: Db)
    ensures Requeued(db, db)
  {
  }

  lemma NotTaken(db: Db, key: string, limit: Positive, duration: int, mode: HandoffMode, now: Time)
    ensures var (taken, acquired) := TakeForBlocked(db, key, limit, duration, mode, now); !acquired ==> taken == db
  {
    if key in db.semaphores {
      assert db.semaphores[key := db.semaphores[key]] == db.semaphores;
    }
  }

  /** The promoted job has left the blocked table for the ready one, with the columns of its row. */
  ghost predicate Promoted(a: Db, b: Db, id: JobId, backend: string) {
    && id in a.blocked && b.blocked == a.blocked - {id}
    && b.ready == a.ready[id := ReadyRow(a.nextPk, backend, a.blocked[id].queue, a.blocked[id].priority)]
    && b == a.(blocked := b.blocked, ready := b.ready, semaphores := b.semaphores, nextPk := b.nextPk)
  }

  lemma UnblockSucceeds(
    db: Db, cfg: Config, key: string, limit: Positive, duration: int, mode: HandoffMode, hidden: set<JobId>, now: Time)
    requires var r := UnblockNext(db, cfg, key, limit, duration, mode, hidden, now); r.Ok? && r.value.1
    ensures Waiting(db, cfg.backend, key, hidden) != {}
    ensures var after := UnblockNext(db, cfg, key, limit, duration, mode, hidden, now).value.0;
            var taken := TakeForBlocked(db, key, limit, duration, mode, now);
            && taken.1 && after.semaphores == taken.0.semaphores
            && Promoted(db, after, Least(Waiting(db, cfg.backend, key, hidden)).job, cfg.backend)
  {
    var waiting := Waiting(db, cfg.backend, key, hidden);
    var id := Least(waiting).job;
    WaitingJob(db, cfg.backend, key, hidden, Least(waiting));
    hide Least, Waiting, Restore, Live, Handoff, ConsumeReleased;
  }

  /** The slots that fit the offered limit once `count` of those in use have come back. */
  function Room(db: Db, key: string, limit: Positive, count: nat): nat {
    if key in db.semaphores then Min(limit, Max(0, limit - Tables.Slots(db, key) + count)) else 0
  }

  /** A handoff needs room, and without room none is left to consume afterwards. */
  lemma HandoffNeedsRoom(db: Db, key: string, limit: Positive, duration: int, now: Time)
    ensures TakeForBlocked(db, key, limit, duration, ReleaseClaimed, now).1 <==> Room(db, key, limit, 1) >= 1
    ensures Room(db, key, limit, 1) == 0 ==>
              !TakeForBlocked(ReleaseSemaphore(db, key, limit, duration, now), key, limit, duration, ConsumeFreed, now).1
  {
  }

  /** The row after a release: the offered limit and a fresh date, with a slot less in use unless it was handed over. */
  ghost predicate Resettled(a: Db, b: Db, key: string, limit: Positive, duration: int, now: Time, count: nat, promoted: nat) {
    && b.semaphores
       == (if key in a.semaphores && promoted <= Room(a, key, limit, count)
           then a.semaphores[key := Settled(Room(a, key, limit, count) - promoted, limit, now + duration, now)]
           else a.semaphores)
    && (forall k :: k in b.forgotten <==>
          k in a.forgotten || (k == key && k in a.semaphores && limit < Tables.Slots(a, k) - count))
  }

  lemma ReleasedRow(db: Db, key: string, limit: Positive, duration: int, now: Time)
    ensures Resettled(db, ReleaseSemaphore(db, key, limit, duration, now), key, limit, duration, now, 1, 0)
  {
  }

  lemma HandedRow(db: Db, key: string, limit: Positive, duration: int, now: Time)
    requires TakeForBlocked(db, key, limit, duration, ReleaseClaimed, now).1
    ensures Resettled(db, TakeForBlocked(db, key, limit, duration, ReleaseClaimed, now).0, key, limit, duration, now, 1, 1)
  {
  }

  /** The promoted jobs have moved from the blocked table to the ready one with the columns of their rows. */
  ghost predicate Moved(a: Db, b: Db, cfg: Config, promoted: set<JobId>) {
    && b.blocked.Keys == a.blocked.Keys - promoted
    && (forall id :: id in b.blocked ==> b.blocked[id].(pk := a.blocked[id].pk) == a.blocked[id])
    && b.ready.Keys == a.ready.Keys + promoted
    && (forall id :: id in a.ready && id !in promoted ==> b.ready[id] == a.ready[id])
    && (forall id :: id in promoted && id in a.blocked ==>
          && b.ready[id].backend == cfg.backend && b.ready[id].queue == a.blocked[id].queue
          && b.ready[id].priority == a.blocked[id].priority)
  }

  /** What a release of `count` slots of a key leaves: `promoted` are ready and the semaphore is settled. */
  ghost predicate Released(
    a: Db, b: Db, cfg: Config, key: string, limit: Positive, duration: int, now: Time, count: nat, promoted: set<JobId>)
  {
    && b == a.(blocked := b.blocked, ready := b.ready, semaphores := b.semaphores, forgotten := b.forgotten,
               nextPk := b.nextPk)
    && Moved(a, b, cfg, promoted) && Resettled(a, b, key, limit, duration, now, count, |promoted|)
  }

  lemma OneMoved(a: Db, b: Db, cfg: Config, id: JobId)
    requires Promoted(a, b, id, cfg.backend)
    ensures Moved(a, b, cfg, {id})
  {
  }

  lemma PromotedIsReleased(db: Db, b: Db, cfg: Config, key: string, limit: Positive, duration: int, now: Time, id: JobId)
    requires Promoted(db, b, id, cfg.backend)
    requires var taken := TakeForBlocked(db, key, limit, duration, ReleaseClaimed, now); taken.1 && b.semaphores == taken.0.semaphores
    ensures Released(db, b, cfg, key, limit, duration, now, 1, {id})
  {
    HandedRow(db, key, limit, duration, now);
    TakenForgets(db, key, limit, duration, now);
    ResettledAlike(db, TakeForBlocked(db, key, limit, duration, ReleaseClaimed, now).0, b, key, limit, duration, now, 1, 1);
    OneMoved(db, b, cfg, id);
    hide TakeForBlocked, Resettled, Moved;
    assert |{id}| == 1;
  }

  lemma ResettledAlike(
    a: Db, b: Db, c: Db, key: string, limit: Positive, duration: int, now: Time, count: nat, promoted: nat)
    requires Resettled(a, b, key, limit, duration, now, count, promoted)
    requires c.semaphores == b.semaphores && c.forgotten == b.forgotten
    ensures Resettled(a, c, key, limit, duration, now, count, promoted)
  {
    hide Room;
  }

  lemma TakenForgets(db: Db, key: string, limit: Positive, duration: int, now: Time)
    ensures TakeForBlocked(db, key, limit, duration, ReleaseClaimed, now).0.forgotten == db.forgotten
  {
    hide Handoff;
  }

  lemma RequeuedIsReleased(
    a: Db, b: Db, c: Db, d: Db, cfg: Config, key: string, limit: Positive, duration: int, now: Time)
    requires Requeued(a, b) && c == ReleaseSemaphore(b, key, limit, duration, now) && Requeued(c, d)
    ensures Released(a, d, cfg, key, limit, duration, now, 1, {})
  {
    ReleasedRow(b, key, limit, duration, now);
    ReleasesOnlyTheRow(b, key, limit, duration, now);
    SameRoom(a, b, key, limit, 1);
    NoneMoved(a, b, c, d, cfg);
    ResettledAlike(b, c, d, key, limit, duration, now, 1, 0);
    hide ReleaseSemaphore, Room, Moved;
  }

  lemma NoneMoved(a: Db, b: Db, c: Db, d: Db, cfg: Config)
    requires Requeued(a, b) && c == b.(semaphores := c.semaphores, forgotten := c.forgotten) && Requeued(c, d)
    ensures Moved(a, d, cfg, {})
    ensures d == a.(blocked := d.blocked, semaphores := d.semaphores, forgotten := d.forgotten, nextPk := d.nextPk)
  {
  }

  lemma ReleasesOnlyTheRow(db: Db, key: string, limit: Positive, duration: int, now: Time)
    ensures var after := ReleaseSemaphore(db, key, limit, duration, now);
            after == db.(semaphores := after.semaphores, forgotten := after.forgotten)
  {
    hide Release;
  }

  lemma SameRoom(a: Db, b: Db, key: string, limit: Positive, count: nat)
    requires a.semaphores == b.semaphores
    ensures Room(a, key, limit, count) == Room(b, key, limit, count) && Tables.Slots(a, key) == Tables.Slots(b, key)
  {
  }

  /** Requeueing and writing the semaphore leave the same jobs waiting. */
  lemma StillWaiting(a: Db, b: Db, cfg: Config, key: string, hidden: set<JobId>)
    requires b.blocked.Keys == a.blocked.Keys
    requires forall id :: id in a.blocked ==> b.blocked[id].(pk := a.blocked[id].pk) == a.blocked[id]
    ensures Waiting(b, cfg.backend, key, hidden) != {} ==> Waiting(a, cfg.backend, key, hidden) != {}
  {
    WaitingIsBatch(a, cfg, key, hidden, 0);
    WaitingIsBatch(b, cfg, key, hidden, 0);
    hide Waiting, Batch;
    if id :| id in Waiters(b, cfg, key, hidden) {
      assert id in Waiters(a, cfg, key, hidden);
    }
  }

  lemma NobodyWaits(db: Db, cfg: Config, key: string, hidden: set<JobId>)
    requires Waiting(db, cfg.backend, key, hidden) == {}
    ensures forall id :: !MayUnblockIn(db, cfg, key, hidden)(id)
  {
    WaitingIsBatch(db, cfg, key, hidden, 0);
    hide Waiting, Batch;
    forall id
      ensures !MayUnblock(db, cfg, key, hidden, id)
    {
      assert id !in Waiters(db, cfg, key, hidden);
    }
  }

  /**
   A released slot goes to the first waiting job of its key if the offered limit has room for it, and back to the
   semaphore otherwise; nothing else changes.
   */
  lemma ReleaseKeyOutcome(
    db: Db, cfg: Config, key: string, limit: Positive, duration: int, hidden: set<JobId>, now: Time)
    returns (promoted: set<JobId>)
    requires ReleaseKey(db, cfg, key, limit, duration, hidden, now).Ok?
    ensures AreFirst(promoted, MayUnblockIn(db, cfg, key, hidden), WaitColumns(db), Min(1, Room(db, key, limit, 1)))
    ensures Released(db, ReleaseKey(db, cfg, key, limit, duration, hidden, now).value, cfg, key, limit, duration, now, 1, promoted)
  {
    hide UnblockNext, Waiting, Least, AreFirst, Released, Requeued, TakeForBlocked, Room, ReleaseSemaphore;
    var (first, unblocked) := UnblockNext(db, cfg, key, limit, duration, ReleaseClaimed, hidden, now).value;
    HandoffNeedsRoom(db, key, limit, duration, now);
    if unblocked {
      UnblockSucceeds(db, cfg, key, limit, duration, ReleaseClaimed, hidden, now);
      var id := Least(Waiting(db, cfg.backend, key, hidden)).job;
      promoted := {id};
      LeastIsFirst(db, cfg, key, hidden);
      PromotedIsReleased(db, first, cfg, key, limit, duration, now, id);
    } else {
      promoted := {};
      UnblockFails(db, cfg, key, limit, duration, ReleaseClaimed, hidden, now);
      var released := ReleaseSemaphore(first, key, limit, duration, now);
      var (second, again) := UnblockNext(released, cfg, key, limit, duration, ConsumeFreed, hidden, now).value;
      NothingToConsume(db, cfg, key, limit, duration, hidden, now, first);
      UnblockFails(released, cfg, key, limit, duration, ConsumeFreed, hidden, now);
      RequeuedIsReleased(db, first, released, second, cfg, key, limit, duration, now);
    }
  }

  lemma NothingToConsume(
    db: Db, cfg: Config, key: string, limit: Positive, duration: int, hidden: set<JobId>, now: Time, first: Db)
    requires UnblockNext(db, cfg, key, limit, duration, ReleaseClaimed, hidden, now) == Ok((first, false))
    requires Requeued(db, first)
    requires UnblockNext(ReleaseSemaphore(first, key, limit, duration, now), cfg, key, limit, duration, ConsumeFreed, hidden, now).Ok?
    ensures !UnblockNext(ReleaseSemaphore(first, key, limit, duration, now), cfg, key, limit, duration, ConsumeFreed, hidden, now).value.1
    ensures AreFirst({}, MayUnblockIn(db, cfg, key, hidden), WaitColumns(db), Min(1, Room(db, key, limit, 1)))
  {
    var released := ReleaseSemaphore(first, key, limit, duration, now);
    HandoffNeedsRoom(db, key, limit, duration, now);
    HandoffNeedsRoom(first, key, limit, duration, now);
    SameRoom(db, first, key, limit, 1);
    ReleasesOnlyTheRow(first, key, limit, duration, now);
    StillWaiting(db, released, cfg, key, hidden);
    if Waiting(db, cfg.backend, key, hidden) == {} {
      NobodyWaits(db, cfg, key, hidden);
    } else {
      RefusedForWantOfRoom(db, cfg, key, limit, duration, hidden, now);
    }
    hide Room, TakeForBlocked, Waiting, Requeued, ReleaseSemaphore, Promote, Restore, Least;
  }

  lemma RefusedForWantOfRoom(
    db: Db, cfg: Config, key: string, limit: Positive, duration: int, hidden: set<JobId>, now: Time)
    requires Waiting(db, cfg.backend, key, hidden) != {}
    requires var r := UnblockNext(db, cfg, key, limit, duration, ReleaseClaimed, hidden, now); r.Ok? && !r.value.1
    ensures !TakeForBlocked(db, key, limit, duration, ReleaseClaimed, now).1
  {
    hide TakeForBlocked, Waiting, Promote, Restore, Least;
  }

  // ---------------------------------------------------------------- a group of releases

  lemma MovedTwice(a: Db, b: Db, c: Db, cfg: Config, id: JobId, rest: set<JobId>)
    requires Promoted(a, b, id, cfg.backend) && Moved(b, c, cfg, rest) && rest <= b.blocked.Keys
    ensures Moved(a, c, cfg, {id} + rest)
  {
    assert id !in rest;
    assert b.blocked.Keys == a.blocked.Keys - {id};
    assert c.blocked.Keys == a.blocked.Keys - ({id} + rest);
    assert c.ready.Keys == a.ready.Keys + ({id} + rest);
  }

  lemma {:induction false} PromoteAllMoves(db: Db, cfg: Config, ids: seq<JobId>)
    requires Distinct(ids) && PromoteAll(db, cfg.backend, ids).Ok?
    ensures var after := PromoteAll(db, cfg.backend, ids).value;
            && Moved(db, after, cfg, Members(ids)) && Members(ids) <= db.blocked.Keys
            && after == db.(blocked := after.blocked, ready := after.ready, nextPk := after.nextPk)
    decreases |ids|
  {
    if ids == [] {
      assert Members(ids) == {};
    } else {
      var (id, rest) := (ids[0], ids[1..]);
      var first := Promote(db, cfg.backend, id).value;
      assert Promoted(db, first, id, cfg.backend);
      hide Promote, Promoted, Moved;
      PromoteAllMoves(first, cfg, rest);
      assert Members(ids) == {id} + Members(rest) by {
        assert forall j :: j in ids <==> j == id || j in rest;
      }
      var after := PromoteAll(first, cfg.backend, rest).value;
      MovedTwice(db, first, after, cfg, id, Members(rest));
      PromotedFrame(db, first, id, cfg.backend);
    }
  }

  lemma PromotedFrame(a: Db, b: Db, id: JobId, backend: string)
    requires Promoted(a, b, id, backend)
    ensures id in a.blocked && b.blocked.Keys <= a.blocked.Keys
    ensures b == a.(blocked := b.blocked, ready := b.ready, semaphores := b.semaphores, nextPk := b.nextPk)
  {
  }

  lemma SettledRow(db: Db, key: string, count: nat, promoted: nat, limit: Positive, duration: int, now: Time)
    requires key in db.semaphores && promoted <= Room(db, key, limit, count)
    ensures var after := SettleGroup(db, key, count, promoted, limit, duration, now);
            && Resettled(db, after, key, limit, duration, now, count, promoted)
            && after == db.(semaphores := after.semaphores, forgotten := after.forgotten)
  {
  }

  /** Released together, the slots go to the first waiting jobs, as many as there is room for. */
  lemma ReleaseGroupOutcome(
    db: Db, cfg: Config, key: string, count: nat, limit: Positive, duration: int, hidden: set<JobId>, now: Time)
    returns (promoted: set<JobId>)
    requires ReleaseGroupOf(db, cfg, key, count, limit, duration, hidden, now).Ok?
    ensures AreFirst(promoted, MayUnblockIn(db, cfg, key, hidden), WaitColumns(db), Min(count, Room(db, key, limit, count)))
    ensures Released(db, ReleaseGroupOf(db, cfg, key, count, limit, duration, hidden, now).value, cfg, key, limit, duration,
                     now, count, promoted)
  {
    hide Waiting, Take, PromoteAll, SettleGroup, AreFirst, InOrder, Released;
    var rows := Jobs(Take(Waiting(db, cfg.backend, key, hidden), count));
    WaitingAreFirst(db, cfg, key, hidden, count);
    if key !in db.semaphores {
      promoted := {};
      NothingReleased(db, cfg, key, count, limit, duration, hidden, now);
    } else {
      var room := Room(db, key, limit, count);
      var n := Min(count, Min(room, |rows|));
      assert n == Min(count, Min(Available(db.semaphores[key], limit, count), |rows|));
      var settled := SettleGroup(db, key, count, n, limit, duration, now);
      promoted := Members(rows[..n]);
      FirstOfRows(db, cfg, key, hidden, rows, count, n, Min(count, room));
      SettledRow(db, key, count, n, limit, duration, now);
      PromoteAllMoves(settled, cfg, rows[..n]);
      GroupReleased(db, settled, PromoteAll(settled, cfg.backend, rows[..n]).value, cfg, key, limit, duration, now, count,
                    rows[..n]);
    }
  }

  lemma NothingReleased(
    db: Db, cfg: Config, key: string, count: nat, limit: Positive, duration: int, hidden: set<JobId>, now: Time)
    requires key !in db.semaphores
    ensures AreFirst({}, MayUnblockIn(db, cfg, key, hidden), WaitColumns(db), Min(count, Room(db, key, limit, count)))
    ensures Released(db, db, cfg, key, limit, duration, now, count, {})
  {
    hide NoLater, MayUnblock;
  }

  lemma FirstOfRows(
    db: Db, cfg: Config, key: string, hidden: set<JobId>, rows: seq<JobId>, count: nat, n: nat, k: nat)
    requires AreFirst(Members(rows), MayUnblockIn(db, cfg, key, hidden), WaitColumns(db), count)
    requires InOrder(rows, WaitColumns(db)) && Distinct(rows)
    requires k <= count && n == Min(k, |rows|)
    ensures AreFirst(Members(rows[..n]), MayUnblockIn(db, cfg, key, hidden), WaitColumns(db), k) && Distinct(rows[..n])
  {
    PrefixBefore(rows, n, MayUnblockIn(db, cfg, key, hidden), WaitColumns(db), count);
    DistinctMembers(rows[..n]);
    DistinctMembers(rows);
    hide NoLater, InOrder, MayUnblock, WaitColumns;
    assert n == |rows| ==> rows[..n] == rows;
  }

  lemma GroupReleased(
    db: Db, settled: Db, after: Db, cfg: Config, key: string, limit: Positive, duration: int, now: Time, count: nat,
    ids: seq<JobId>)
    requires Resettled(db, settled, key, limit, duration, now, count, |ids|) && Distinct(ids)
    requires settled == db.(semaphores := settled.semaphores, forgotten := settled.forgotten)
    requires Moved(settled, after, cfg, Members(ids))
    requires after == settled.(blocked := after.blocked, ready := after.ready, nextPk := after.nextPk)
    ensures Released(db, after, cfg, key, limit, duration, now, count, Members(ids))
  {
    DistinctMembers(ids);
    ResettledAlike(db, settled, after, key, limit, duration, now, count, |ids|);
    MovedAlike(settled, db, after, cfg, Members(ids));
    hide Resettled, Moved, Members, Distinct;
  }

  lemma MovedAlike(a: Db, b: Db, c: Db, cfg: Config, promoted: set<JobId>)
    requires Moved(a, c, cfg, promoted) && a.blocked == b.blocked && a.ready == b.ready
    ensures Moved(b, c, cfg, promoted)
  {
  }

  // ---------------------------------------------------------------- a departed job

  /** The limit and the duration in force: the job's own policy, else its task's, else the stored limit and the default. */
  predicate InForce(
    db: Db, cfg: Config, tasks: Tasks, job: Job, key: string, limit: Positive, duration: int)
  {
    match job.policy
    case Persisted(policy) => limit == policy.limit && duration == policy.duration
    case Historical =>
      if job.taskPath in tasks then limit == tasks[job.taskPath].limit && duration == tasks[job.taskPath].duration
      else AsStored(db, key, limit) && duration == cfg.defaultDuration
    case Unusable => AsStored(db, key, limit) && duration == cfg.defaultDuration
  }

  predicate AsStored(db: Db, key: string, limit: int) {
    limit == if key in db.semaphores && db.semaphores[key].limit >= 1 then db.semaphores[key].limit else 1
  }

  /** A departed job without a key changes nothing; with one its slot is released with the settings in force. */
  lemma ReleaseSlotOutcome(db: Db, cfg: Config, tasks: Tasks, job: Job, hidden: set<JobId>, now: Time)
    returns (promoted: set<JobId>, limit: Positive, duration: int)
    requires ReleaseSlot(db, cfg, tasks, job, hidden, now).Ok?
    ensures var after := ReleaseSlot(db, cfg, tasks, job, hidden, now).value;
            match job.key
            case None => after == db
            case Some(key) =>
              && InForce(db, cfg, tasks, job, key, limit, duration)
              && AreFirst(promoted, MayUnblockIn(db, cfg, key, hidden), WaitColumns(db), Min(1, Room(db, key, limit, 1)))
              && Released(db, after, cfg, key, limit, duration, now, 1, promoted)
  {
    promoted, limit, duration := {}, 1, 0;
    if job.key.Some? {
      limit, duration := ReleaseSettings(db, cfg, tasks, job, job.key.value).0, ReleaseSettings(db, cfg, tasks, job, job.key.value).1;
      SettingsInForce(db, cfg, tasks, job, job.key.value);
      hide ReleaseKey, AreFirst, Released, InForce, ReleaseSettings;
      promoted := ReleaseKeyOutcome(db, cfg, job.key.value, limit, duration, hidden, now);
    }
  }

  lemma SettingsInForce(db: Db, cfg: Config, tasks: Tasks, job: Job, key: string)
    ensures var (limit, duration) := ReleaseSettings(db, cfg, tasks, job, key); InForce(db, cfg, tasks, job, key, limit, duration)
  {
  }

  // ---------------------------------------------------------------- which keys are forgotten

  /** A release forgets its key exactly if the slots in use do not go down by those released, less those handed on. */
  lemma ReleaseForgetsIff(
    a: Db, b: Db, cfg: Config, key: string, limit: Positive, duration: int, now: Time, count: nat, promoted: set<JobId>)
    requires Released(a, b, cfg, key, limit, duration, now, count, promoted)
    requires key in a.semaphores && key !in a.forgotten && |promoted| <= Room(a, key, limit, count)
    requires count <= Tables.Slots(a, key)
    ensures key in b.forgotten <==> Tables.Slots(b, key) != Tables.Slots(a, key) - count + |promoted|
    ensures forall k :: k != key ==> (k in b.forgotten <==> k in a.forgotten) && Tables.Slots(b, k) == Tables.Slots(a, k)
  {
    hide Moved;
  }

  /** Taking a slot forgets its key exactly if the slots in use do not go up by what was taken. */
  lemma AcquireForgetsIff(db: Db, key: string, limit: Positive, duration: int, now: Time)
    requires key in db.semaphores ==> WellFormed(db.semaphores[key])
    requires key !in db.forgotten
    ensures var (after, acquired) := AcquireSlot(db, key, limit, duration, now);
            && (key in after.forgotten <==> Tables.Slots(after, key) != Tables.Slots(db, key) + if acquired then 1 else 0)
            && (acquired ==> after.semaphores[key].expiresAt == now + duration)
            && (forall k :: k != key ==> (k in after.forgotten <==> k in db.forgotten) && Tables.Slots(after, k) == Tables.Slots(db, k))
  {
  }

  lemma AcquireManyForgetsIff(db: Db, key: string, count: nat, limit: Positive, duration: int, now: Time)
    requires key in db.semaphores ==> WellFormed(db.semaphores[key])
    requires key !in db.forgotten
    ensures var (after, taken) := AcquireSlots(db, key, count, limit, duration, now);
            && (key in after.forgotten <==> Tables.Slots(after, key) != Tables.Slots(db, key) + taken)
            && (taken > 0 ==> key in after.semaphores && after.semaphores[key].expiresAt == now + duration)
  {
    var row := Lookup(db.semaphores, key);
    TakenTogether(row, count, limit, now + duration, now);
    hide AcquireMany, WellFormed;
  }

  lemma AcquireManyElsewhere(db: Db, key: string, count: nat, limit: Positive, duration: int, now: Time, k: string)
    requires k != key
    ensures var after := AcquireSlots(db, key, count, limit, duration, now).0;
            && (k in after.forgotten <==> k in db.forgotten) && Tables.Slots(after, k) == Tables.Slots(db, k)
            && after == db.(semaphores := after.semaphores, forgotten := after.forgotten)
  {
    hide AcquireMany;
  }

  /** The slots in use go up by those taken exactly if no more were in use than the limit, or none were asked for. */
  lemma TakenTogether(row: Option<Semaphore>, count: nat, limit: Positive, expiresAt: Time, now: Time)
    requires row.Some? ==> WellFormed(row.value)
    ensures var (after, taken) := AcquireMany(row, count, limit, expiresAt, now);
            && (Occupied(after) == Occupied(row) + taken <==> Occupied(row) <= limit || count == 0)
            && (taken > 0 ==> after.Some? && after.value.expiresAt == expiresAt)
            && (after.None? ==> row.None? && count == 0 && taken == 0) && (count == 0 ==> after == row)
  {
  }

  // ---------------------------------------------------------------- what a recovery leaves over

  /** All of the jobs with its key would release it with the same settings. */
  ghost predicate AllAgree(db: Db, cfg: Config, tasks: Tasks, jobs: seq<Job>, job: Job)
    requires job.key.Some?
  {
    forall other :: other in jobs && other.key == job.key ==>
      ReleaseSettings(db, cfg, tasks, other, job.key.value) == ReleaseSettings(db, cfg, tasks, job, job.key.value)
  }

  ghost predicate LeftOver(db: Db, cfg: Config, tasks: Tasks, jobs: seq<Job>, job: Job) {
    job in jobs && job.key.Some? && !AllAgree(db, cfg, tasks, jobs, job)
  }

  /** Left over for single releases are the jobs of exactly those keys whose jobs do not agree. */
  lemma {:induction false} LeftoverIff(
    db: Db, cfg: Config, tasks: Tasks, jobs: seq<Job>, leftover: seq<Job>, hidden: set<JobId>, now: Time)
    requires ReleaseRecovered(db, cfg, tasks, jobs, leftover, hidden, now).Ok?
    ensures forall job :: job in ReleaseRecovered(db, cfg, tasks, jobs, leftover, hidden, now).value.1 <==>
              job in leftover || LeftOver(db, cfg, tasks, jobs, job)
    decreases |jobs|
  {
    hide ReleaseGroupOf, GroupSettings, KeepJobs, AllAgree;
    if jobs == [] {
    } else if jobs[0].key.None? {
      LeftoverIff(db, cfg, tasks, jobs[1..], leftover, hidden, now);
      forall job
        ensures LeftOver(db, cfg, tasks, jobs, job) <==> LeftOver(db, cfg, tasks, jobs[1..], job)
      {
        KeylessHead(db, cfg, tasks, jobs, job);
      }
    } else {
      var key := jobs[0].key.value;
      var group := KeepJobs(jobs, key, true);
      var rest := KeepJobs(jobs[1..], key, false);
      var settings := GroupSettings(db, cfg, tasks, group, key);
      var next := if settings.Some? then ReleaseGroupOf(db, cfg, key, |group|, settings.value.0, settings.value.1, hidden, now).value
                  else db;
      LeftoverIff(next, cfg, tasks, rest, if settings.Some? then leftover else leftover + group, hidden, now);
      if settings.Some? {
        OtherRowsStay(db, cfg, key, |group|, settings.value.0, settings.value.1, hidden, now);
      }
      forall job
        ensures LeftOver(db, cfg, tasks, jobs, job) <==> (settings.None? && job in group) || LeftOver(next, cfg, tasks, rest, job)
      {
        KeyedHead(db, next, cfg, tasks, jobs, key, job);
      }
    }
  }

  lemma KeylessHead(db: Db, cfg: Config, tasks: Tasks, jobs: seq<Job>, job: Job)
    requires jobs != [] && jobs[0].key.None?
    ensures LeftOver(db, cfg, tasks, jobs, job) <==> LeftOver(db, cfg, tasks, jobs[1..], job)
  {
    assert forall j :: j in jobs <==> j == jobs[0] || j in jobs[1..];
    hide ReleaseSettings;
  }

  lemma OtherRowsStay(
    db: Db, cfg: Config, key: string, count: nat, limit: Positive, duration: int, hidden: set<JobId>, now: Time)
    requires ReleaseGroupOf(db, cfg, key, count, limit, duration, hidden, now).Ok?
    ensures SameRowsBut(db, ReleaseGroupOf(db, cfg, key, count, limit, duration, hidden, now).value, key)
  {
    hide ReleaseGroupOf, AreFirst, Room, Moved;
    var promoted := ReleaseGroupOutcome(db, cfg, key, count, limit, duration, hidden, now);
  }

  predicate SameRowsBut(a: Db, b: Db, key: string) {
    forall k :: k in a.semaphores.Keys + b.semaphores.Keys && k != key ==>
      k in a.semaphores && k in b.semaphores && b.semaphores[k] == a.semaphores[k]
  }

  lemma SettingsStay(a: Db, b: Db, cfg: Config, tasks: Tasks, key: string, job: Job, k: string)
    requires a == b || SameRowsBut(a, b, key)
    requires k != key
    ensures ReleaseSettings(a, cfg, tasks, job, k) == ReleaseSettings(b, cfg, tasks, job, k)
  {
    assert k in a.semaphores <==> k in b.semaphores;
  }

  lemma KeepJobsAre(jobs: seq<Job>, key: string, job: Job)
    ensures job in KeepJobs(jobs, key, true) <==> job in jobs && job.key == Some(key)
    ensures job in KeepJobs(jobs, key, false) <==> job in jobs && job.key != Some(key)
  {
    hide Where;
  }

  lemma KeyedHead(db: Db, next: Db, cfg: Config, tasks: Tasks, jobs: seq<Job>, key: string, job: Job)
    requires jobs != [] && jobs[0].key == Some(key) && (db == next || SameRowsBut(db, next, key))
    ensures var (group, rest) := (KeepJobs(jobs, key, true), KeepJobs(jobs[1..], key, false));
            LeftOver(db, cfg, tasks, jobs, job) <==>
              (GroupSettings(db, cfg, tasks, group, key).None? && job in group) || LeftOver(next, cfg, tasks, rest, job)
  {
    hide ReleaseSettings, KeepJobs, SameRowsBut;
    var (group, rest) := (KeepJobs(jobs, key, true), KeepJobs(jobs[1..], key, false));
    forall j
      ensures j in group <==> j in jobs && j.key == Some(key)
      ensures j in rest <==> j in jobs && j.key != Some(key)
    {
      KeepJobsAre(jobs, key, j);
      KeepJobsAre(jobs[1..], key, j);
    }
    if job.key == Some(key) {
      assert jobs[0] in group;
      if job in group {
        GroupAgrees(db, cfg, tasks, jobs, group, key, job);
      }
    } else if job.key.Some? {
      forall other
        ensures ReleaseSettings(db, cfg, tasks, other, job.key.value) == ReleaseSettings(next, cfg, tasks, other, job.key.value)
      {
        SettingsStay(db, next, cfg, tasks, key, other, job.key.value);
      }
    }
  }

  lemma GroupAgrees(db: Db, cfg: Config, tasks: Tasks, jobs: seq<Job>, group: seq<Job>, key: string, job: Job)
    requires group != [] && (forall j :: j in group <==> j in jobs && j.key == Some(key)) && job.key == Some(key)
    requires job in group
    ensures GroupSettings(db, cfg, tasks, group, key).Some? <==> AllAgree(db, cfg, tasks, jobs, job)
  {
    hide ReleaseSettings;
    assert group[0] in group;
  }
}
