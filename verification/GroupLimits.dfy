/**
 Releasing slots under any limit, below the slots in use included: where the group form and the single form
 agree, and where not.
 */
module GroupLimits {
  import opened Results
  import opened Semaphores
  import opened Ordering
  import opened Tables
  import opened Slots
  import opened SlotAccounting
  import opened GroupRelease

  // ---------------------------------------------------------------- the row and a number of waiting jobs

  /** What one release makes of the row with `waiting` blocked jobs, and whether it promotes one of them. */
  function ReleaseOne(s: Semaphore, waiting: nat, limit: Positive, expiresAt: Time, now: Time): (Semaphore, nat) {
    var (handed, acquired) := Handoff(s, limit, expiresAt, now);
    if waiting > 0 && acquired then
      (handed, 1)
    else
      var released := Release(s, limit, expiresAt, now);
      var (consumed, taken) := ConsumeReleased(released, limit, expiresAt, now);
      if waiting > 0 && taken then (consumed, 1) else (released, 0)
  }

  function ReleaseTimes(s: Semaphore, n: nat, waiting: nat, limit: Positive, expiresAt: Time, now: Time)
    : (r: (Semaphore, nat))
    ensures r.1 <= waiting
  {
    if n == 0 then
      (s, 0)
    else
      var (before, promoted) := ReleaseTimes(s, n - 1, waiting, limit, expiresAt, now);
      var (after, more) := ReleaseOne(before, waiting - promoted, limit, expiresAt, now);
      (after, promoted + more)
  }

  /** The row after a group release, and how many jobs that promotes. */
  function ReleaseTogether(s: Semaphore, n: nat, waiting: nat, limit: Positive, expiresAt: Time, now: Time)
    : (Semaphore, int)
  {
    var promoted := Min(n, Min(Available(s, limit, n), waiting));
    (ReleaseGroup(s, n, promoted, limit, expiresAt, now), promoted)
  }

  /** A limit below the slots in use costs the single releases one handoff, and all slots above it. */
  lemma {:induction false} ReleaseTimesResult(
    s: Semaphore, n: nat, waiting: nat, limit: Positive, expiresAt: Time, now: Time)
    requires WellFormed(s) && 1 <= n <= Occupied(Some(s))
    ensures var promoted := Min(if limit >= Occupied(Some(s)) then n else n - 1, waiting);
            var value := if limit >= Occupied(Some(s)) then limit - Occupied(Some(s)) + n - promoted
                         else Min(limit, n - 1 - promoted);
            ReleaseTimes(s, n, waiting, limit, expiresAt, now) == (Settled(value, limit, expiresAt, now), promoted)
  {
    hide ReleaseOne;
    if n == 1 {
      assert ReleaseTimes(s, 0, waiting, limit, expiresAt, now) == (s, 0);
      ReleaseOneFirst(s, waiting, limit, expiresAt, now);
    } else {
      ReleaseTimesResult(s, n - 1, waiting, limit, expiresAt, now);
      var (before, promoted) := ReleaseTimes(s, n - 1, waiting, limit, expiresAt, now);
      ReleaseOneMore(before, waiting - promoted, limit, expiresAt, now);
    }
  }

  /** The first release offers the limit; one below the slots in use leaves no slot for a waiting job. */
  lemma ReleaseOneFirst(s: Semaphore, waiting: nat, limit: Positive, expiresAt: Time, now: Time)
    requires WellFormed(s) && Occupied(Some(s)) >= 1
    ensures var promoted := if limit >= Occupied(Some(s)) then Min(1, waiting) else 0;
            var value := if limit >= Occupied(Some(s)) then limit - Occupied(Some(s)) + 1 - promoted else 0;
            ReleaseOne(s, waiting, limit, expiresAt, now) == (Settled(value, limit, expiresAt, now), promoted)
  {
  }

  /** Later releases hand over or free one slot each, up to the limit. */
  lemma ReleaseOneMore(s: Semaphore, waiting: nat, limit: Positive, expiresAt: Time, now: Time)
    requires WellFormed(s) && s.limit == limit
    ensures var promoted := Min(1, waiting);
            ReleaseOne(s, waiting, limit, expiresAt, now)
            == (Settled(Min(limit, s.value + 1) - promoted, limit, expiresAt, now), promoted)
  {
  }

  /** The first of several releases, then the rest. */
  lemma {:induction false} ReleaseTimesFront(
    s: Semaphore, n: nat, waiting: nat, limit: Positive, expiresAt: Time, now: Time)
    requires n >= 1
    ensures ReleaseOne(s, waiting, limit, expiresAt, now).1 <= waiting
    ensures var (first, promoted) := ReleaseOne(s, waiting, limit, expiresAt, now);
            var (last, more) := ReleaseTimes(first, n - 1, waiting - promoted, limit, expiresAt, now);
            ReleaseTimes(s, n, waiting, limit, expiresAt, now) == (last, promoted + more)
  {
    assert ReleaseOne(s, waiting, limit, expiresAt, now).1 <= waiting;
    hide ReleaseOne;
    if n == 1 {
      assert ReleaseTimes(s, 0, waiting, limit, expiresAt, now) == (s, 0);
    } else {
      ReleaseTimesFront(s, n - 1, waiting, limit, expiresAt, now);
    }
  }

  /** For the row and the number of promotions: the limit is the slots in use but one at least, or little is released. */
  lemma RowsAgreeIff(s: Semaphore, n: nat, waiting: nat, limit: Positive, expiresAt: Time, now: Time)
    requires WellFormed(s) && 1 <= n <= Occupied(Some(s))
    ensures ReleaseTimes(s, n, waiting, limit, expiresAt, now) == ReleaseTogether(s, n, waiting, limit, expiresAt, now)
            <==> || limit >= Occupied(Some(s)) - 1
                 || n == 1
                 || (n == Occupied(Some(s)) && waiting == 0)
  {
    ReleaseTimesResult(s, n, waiting, limit, expiresAt, now);
  }

  // ---------------------------------------------------------------- the same in the database

  function WaitingIds(db: Db, backend: string, key: string, hidden: set<JobId>): set<JobId> {
    set id | id in db.blocked && Waits(db, backend, key, hidden, id)
  }

  /** The jobs that wait in `a` and no longer in `b`. */
  function Promoted(a: Db, b: Db): set<JobId> {
    a.blocked.Keys - b.blocked.Keys
  }

  /** The key's semaphore row is now `row`, and `promoted` jobs that waited for it have become ready. */
  ghost predicate Released(
    a: Db, b: Db, backend: string, key: string, hidden: set<JobId>, row: Semaphore, promoted: int)
  {
    && b.semaphores == a.semaphores[key := row]
    && b.blocked.Keys <= a.blocked.Keys
    && Promoted(a, b) <= WaitingIds(a, backend, key, hidden) && |Promoted(a, b)| == promoted
    && WaitingIds(b, backend, key, hidden) == WaitingIds(a, backend, key, hidden) - Promoted(a, b)
    && b.ready.Keys == a.ready.Keys + Promoted(a, b)
    && b.nextPk >= a.nextPk + promoted
  }

  lemma ReleasedTwice(
    a: Db, b: Db, c: Db, backend: string, key: string, hidden: set<JobId>, first: Semaphore, m: int, last: Semaphore,
    n: int)
    requires Released(a, b, backend, key, hidden, first, m) && Released(b, c, backend, key, hidden, last, n)
    ensures Released(a, c, backend, key, hidden, last, m + n)
  {
    hide WaitingIds;
    SetsTwice(a.blocked.Keys, b.blocked.Keys, c.blocked.Keys, a.ready.Keys, b.ready.Keys, c.ready.Keys,
              WaitingIds(a, backend, key, hidden), WaitingIds(b, backend, key, hidden), WaitingIds(c, backend, key, hidden));
    assert a.semaphores[key := first][key := last] == a.semaphores[key := last];
  }

  lemma SetsTwice(
    a: set<JobId>, b: set<JobId>, c: set<JobId>, ra: set<JobId>, rb: set<JobId>, rc: set<JobId>,
    wa: set<JobId>, wb: set<JobId>, wc: set<JobId>)
    requires c <= b <= a && a - b <= wa && b - c <= wb
    requires wb == wa - (a - b) && wc == wb - (b - c) && rb == ra + (a - b) && rc == rb + (b - c)
    ensures a - c <= wa && wc == wa - (a - c) && rc == ra + (a - c) && |a - c| == |a - b| + |b - c|
  {
    assert a - c == (a - b) + (b - c);
  }

  lemma RowReleased(a: Db, b: Db, backend: string, key: string, hidden: set<JobId>, row: Semaphore)
    requires b == a.(semaphores := a.semaphores[key := row], forgotten := b.forgotten)
    ensures Released(a, b, backend, key, hidden, row, 0)
  {
    assert Promoted(a, b) == {};
    assert forall id :: Waits(a, backend, key, hidden, id) <==> Waits(b, backend, key, hidden, id);
  }

  lemma NothingReleased(a: Db, backend: string, key: string, hidden: set<JobId>)
    requires key in a.semaphores
    ensures Released(a, a, backend, key, hidden, a.semaphores[key], 0)
  {
    assert a.semaphores[key := a.semaphores[key]] == a.semaphores;
    RowReleased(a, a, backend, key, hidden, a.semaphores[key]);
  }

  lemma OneLess(a: Db, b: Db, backend: string, key: string, hidden: set<JobId>, id: JobId)
    requires id in a.blocked && Promote(a, backend, id) == Ok(b)
    ensures WaitingIds(b, backend, key, hidden) == WaitingIds(a, backend, key, hidden) - {id}
  {
    assert forall j :: Waits(b, backend, key, hidden, j) <==> j != id && Waits(a, backend, key, hidden, j);
  }

  lemma PromoteTables(db: Db, backend: string, id: JobId)
    requires id in db.blocked && Promote(db, backend, id).Ok?
    ensures var after := Promote(db, backend, id).value;
            && after.blocked == db.blocked - {id} && after.ready.Keys == db.ready.Keys + {id}
            && after.semaphores == db.semaphores && after.nextPk == db.nextPk + 1
  {
    hide Live;
  }

  lemma PromoteReleased(db: Db, backend: string, key: string, hidden: set<JobId>, id: JobId)
    requires key in db.semaphores && id in WaitingIds(db, backend, key, hidden) && Promote(db, backend, id).Ok?
    ensures var after := Promote(db, backend, id).value;
            Released(db, after, backend, key, hidden, db.semaphores[key], 1) && after.nextPk == db.nextPk + 1
  {
    var after := Promote(db, backend, id).value;
    assert id in db.blocked;
    OneLess(db, after, backend, key, hidden, id);
    PromoteTables(db, backend, id);
    hide WaitingIds, Promote;
    assert db.semaphores[key := db.semaphores[key]] == db.semaphores;
    assert Promoted(db, after) == {id};
  }

  lemma RestoreReleased(db: Db, backend: string, key: string, hidden: set<JobId>, id: JobId)
    requires key in db.semaphores && id in WaitingIds(db, backend, key, hidden) && Restore(db, id).Ok?
    ensures var after := Restore(db, id).value;
            Released(db, after, backend, key, hidden, db.semaphores[key], 0) && after.nextPk == db.nextPk + 1
  {
    var after := Restore(db, id).value;
    assert Promoted(db, after) == {};
    assert db.semaphores[key := db.semaphores[key]] == db.semaphores;
    assert forall j :: Waits(after, backend, key, hidden, j) <==> Waits(db, backend, key, hidden, j);
  }

  lemma SomeoneWaits(db: Db, backend: string, key: string, hidden: set<JobId>)
    ensures Waiting(db, backend, key, hidden) == {} <==> WaitingIds(db, backend, key, hidden) == {}
    ensures Waiting(db, backend, key, hidden) != {} ==>
              Least(Waiting(db, backend, key, hidden)).job in WaitingIds(db, backend, key, hidden)
  {
    var (entries, ids) := (Waiting(db, backend, key, hidden), WaitingIds(db, backend, key, hidden));
    if entries != {} {
      WaitingJob(db, backend, key, hidden, Least(entries));
      assert Least(entries).job in ids;
    }
    if ids != {} {
      assert (forall id :: id !in ids) ==> ids == {};
      var id :| id in ids;
      assert Entry(0, db.blocked[id].priority, db.blocked[id].pk, id) in entries;
    }
  }

  /** What one attempt to hand a slot to a waiting job makes of the row. */
  function Taken(s: Semaphore, limit: Positive, expiresAt: Time, mode: HandoffMode, now: Time): (Semaphore, bool) {
    if mode.ReleaseClaimed? then Handoff(s, limit, expiresAt, now) else ConsumeReleased(s, limit, expiresAt, now)
  }

  lemma UnblockNextReleased(
    db: Db, cfg: Config, key: string, limit: Positive, duration: int, mode: HandoffMode, hidden: set<JobId>, now: Time)
    requires key in db.semaphores && UnblockNext(db, cfg, key, limit, duration, mode, hidden, now).Ok?
    ensures var (after, unblocked) := UnblockNext(db, cfg, key, limit, duration, mode, hidden, now).value;
            var (row, acquired) := Taken(db.semaphores[key], limit, now + duration, mode, now);
            && (unblocked <==> WaitingIds(db, cfg.backend, key, hidden) != {} && acquired)
            && Released(db, after, cfg.backend, key, hidden, if unblocked then row else db.semaphores[key],
                        if unblocked then 1 else 0)
            && (WaitingIds(db, cfg.backend, key, hidden) != {} && !unblocked && mode.ConsumeFreed? ==>
                  after.nextPk > db.nextPk)
  {
    SomeoneWaits(db, cfg.backend, key, hidden);
    var waiting := Waiting(db, cfg.backend, key, hidden);
    if waiting == {} {
      NothingReleased(db, cfg.backend, key, hidden);
    } else {
      var id := Least(waiting).job;
      var (row, acquired) := Taken(db.semaphores[key], limit, now + duration, mode, now);
      var taken := db.(semaphores := db.semaphores[key := row]);
      assert TakeForBlocked(db, key, limit, duration, mode, now) == (taken, acquired);
      RowReleased(db, taken, cfg.backend, key, hidden, row);
      assert !acquired ==> row == db.semaphores[key];
      hide Waiting, Promote, Restore, Taken, Released, TakeForBlocked;
      StillWaits(db, taken, cfg.backend, key, hidden, id);
      if acquired {
        PromoteReleased(taken, cfg.backend, key, hidden, id);
        ReleasedTwice(db, taken, Promote(taken, cfg.backend, id).value, cfg.backend, key, hidden, row, 0, row, 1);
      } else if !(mode.ReleaseClaimed? && cfg.family.Postgres?) {
        RestoreReleased(taken, cfg.backend, key, hidden, id);
        ReleasedTwice(db, taken, Restore(taken, id).value, cfg.backend, key, hidden, row, 0, row, 0);
      }
    }
  }

  lemma StillWaits(a: Db, b: Db, backend: string, key: string, hidden: set<JobId>, id: JobId)
    requires id in WaitingIds(a, backend, key, hidden) && b.blocked == a.blocked
    ensures id in WaitingIds(b, backend, key, hidden) && id in b.blocked
  {
  }

  /** A single release in the database is a single release of the row. */
  lemma ReleaseKeyReleased(
    db: Db, cfg: Config, key: string, limit: Positive, duration: int, hidden: set<JobId>, now: Time)
    requires key in db.semaphores && ReleaseKey(db, cfg, key, limit, duration, hidden, now).Ok?
    ensures var after := ReleaseKey(db, cfg, key, limit, duration, hidden, now).value;
            var waiting := WaitingIds(db, cfg.backend, key, hidden);
            var (row, promoted) := ReleaseOne(db.semaphores[key], |waiting|, limit, now + duration, now);
            && Released(db, after, cfg.backend, key, hidden, row, promoted)
            && (waiting != {} && promoted == 0 ==> after.nextPk > db.nextPk)
  {
    hide UnblockNext, Released, WaitingIds;
    UnblockNextReleased(db, cfg, key, limit, duration, ReleaseClaimed, hidden, now);
    var (first, unblocked) := UnblockNext(db, cfg, key, limit, duration, ReleaseClaimed, hidden, now).value;
    if !unblocked {
      SameWaiting(db, first, cfg.backend, key, hidden, db.semaphores[key]);
      var released := ReleaseSemaphore(first, key, limit, duration, now);
      var row := Release(db.semaphores[key], limit, now + duration, now);
      RowReleased(first, released, cfg.backend, key, hidden, row);
      SameWaiting(first, released, cfg.backend, key, hidden, row);
      ReleasedTwice(db, first, released, cfg.backend, key, hidden, db.semaphores[key], 0, row, 0);
      hide ReleaseSemaphore;
      UnblockNextReleased(released, cfg, key, limit, duration, ConsumeFreed, hidden, now);
      var (second, again) := UnblockNext(released, cfg, key, limit, duration, ConsumeFreed, hidden, now).value;
      var consumed := Taken(row, limit, now + duration, ConsumeFreed, now).0;
      ReleasedTwice(db, released, second, cfg.backend, key, hidden, row, 0, if again then consumed else row,
                    if again then 1 else 0);
    }
  }

  lemma SameWaiting(a: Db, b: Db, backend: string, key: string, hidden: set<JobId>, row: Semaphore)
    requires Released(a, b, backend, key, hidden, row, 0)
    ensures WaitingIds(b, backend, key, hidden) == WaitingIds(a, backend, key, hidden)
    ensures key in b.semaphores && b.semaphores[key] == row && b.nextPk >= a.nextPk
  {
    hide WaitingIds;
    assert Promoted(a, b) == {};
  }

  lemma FewerWait(a: Db, b: Db, backend: string, key: string, hidden: set<JobId>, row: Semaphore, promoted: int)
    requires Released(a, b, backend, key, hidden, row, promoted)
    ensures |WaitingIds(b, backend, key, hidden)| == |WaitingIds(a, backend, key, hidden)| - promoted
    ensures key in b.semaphores && b.semaphores[key] == row && b.nextPk >= a.nextPk + promoted
  {
    hide WaitingIds;
  }

  /** Single releases in the database are those of the row; a first one that promotes no waiting job uses up a row id. */
  lemma {:induction false} ReleaseKeyTimesReleased(
    db: Db, cfg: Config, key: string, n: nat, limit: Positive, duration: int, hidden: set<JobId>, now: Time,
    loose: set<JobId>, pending: multiset<string>)
    requires Good(db, loose, pending) && n <= pending[key] && key in db.semaphores
    ensures var r := ReleaseKeyTimes(db, cfg, key, n, limit, duration, hidden, now);
            var waiting := WaitingIds(db, cfg.backend, key, hidden);
            var (row, promoted) := ReleaseTimes(db.semaphores[key], n, |waiting|, limit, now + duration, now);
            && r.Ok? && Released(db, r.value, cfg.backend, key, hidden, row, promoted)
            && (n >= 1 && waiting != {} && ReleaseOne(db.semaphores[key], |waiting|, limit, now + duration, now).1 == 0 ==>
                  r.value.nextPk > db.nextPk + promoted)
    decreases n
  {
    hide Good, ReleaseKey, Released, WaitingIds, ReleaseOne;
    if n == 0 {
      NothingReleased(db, cfg.backend, key, hidden);
    } else {
      var waiting := |WaitingIds(db, cfg.backend, key, hidden)|;
      var (row, promoted) := ReleaseOne(db.semaphores[key], waiting, limit, now + duration, now);
      ReleaseKeyGood(db, cfg, key, limit, duration, hidden, now, loose, pending);
      ReleaseKeyReleased(db, cfg, key, limit, duration, hidden, now);
      var first := ReleaseKey(db, cfg, key, limit, duration, hidden, now).value;
      FewerWait(db, first, cfg.backend, key, hidden, row, promoted);
      assert (pending - multiset{key})[key] == pending[key] - 1;
      ReleaseKeyTimesReleased(first, cfg, key, n - 1, limit, duration, hidden, now, loose, pending - multiset{key});
      ReleaseTimesFront(db.semaphores[key], n, waiting, limit, now + duration, now);
      hide ReleaseTimes;
      var (last, more) := ReleaseTimes(row, n - 1, waiting - promoted, limit, now + duration, now);
      var after := ReleaseKeyTimes(first, cfg, key, n - 1, limit, duration, hidden, now).value;
      ReleasedTwice(db, first, after, cfg.backend, key, hidden, row, promoted, last, more);
      FewerWait(first, after, cfg.backend, key, hidden, last, more);
    }
  }

  // ---------------------------------------------------------------- the group

  lemma {:induction false} PromoteAllReleased(
    db: Db, backend: string, key: string, hidden: set<JobId>, ids: seq<JobId>)
    requires key in db.semaphores && Distinct(ids) && (forall id :: id in ids ==> id in WaitingIds(db, backend, key, hidden))
    requires PromoteAll(db, backend, ids).Ok?
    ensures var after := PromoteAll(db, backend, ids).value;
            Released(db, after, backend, key, hidden, db.semaphores[key], |ids|) && after.nextPk == db.nextPk + |ids|
    decreases |ids|
  {
    hide Promote, WaitingIds, Released;
    if ids == [] {
      NothingReleased(db, backend, key, hidden);
    } else {
      var (id, rest) := (ids[0], ids[1..]);
      assert id in ids && forall j :: j in rest ==> j in ids && j != id;
      PromoteReleased(db, backend, key, hidden, id);
      var first := Promote(db, backend, id).value;
      OneLess(db, first, backend, key, hidden, id);
      FewerWait(db, first, backend, key, hidden, db.semaphores[key], 1);
      PromoteAllReleased(first, backend, key, hidden, rest);
      var after := PromoteAll(first, backend, rest).value;
      ReleasedTwice(db, first, after, backend, key, hidden, db.semaphores[key], 1, db.semaphores[key], |rest|);
    }
  }

  /** The rows selected for a group are all the waiting ones, or as many as there are slots. */
  lemma TakenCount(db: Db, backend: string, key: string, hidden: set<JobId>, n: nat)
    ensures var ids := Jobs(Take(Waiting(db, backend, key, hidden), n));
            && Distinct(ids) && (forall id :: id in ids ==> id in WaitingIds(db, backend, key, hidden))
            && |ids| == Min(n, |WaitingIds(db, backend, key, hidden)|)
  {
    var entries := Waiting(db, backend, key, hidden);
    var es := Take(entries, n);
    var ids := Jobs(es);
    TakenJobs(db, backend, key, hidden, n);
    var waiting := WaitingIds(db, backend, key, hidden);
    assert Members(ids) <= waiting;
    DistinctCount(ids);
    SubsetCount(Members(ids), waiting);
    if |ids| < n {
      forall id | id in waiting
        ensures id in Members(ids)
      {
        var e := Entry(0, db.blocked[id].priority, db.blocked[id].pk, id);
        assert e in entries && e in es;
        var i :| 0 <= i < |es| && es[i] == e;
        assert ids[i] == id;
      }
      assert Members(ids) == waiting;
    }
  }

  lemma {:induction false} DistinctCount(ids: seq<JobId>)
    requires Distinct(ids)
    ensures |Members(ids)| == |ids|
    decreases |ids|
  {
    if ids != [] {
      DistinctCount(ids[1..]);
      assert Members(ids) == Members(ids[1..]) + {ids[0]} by {
        assert forall j :: j in ids <==> j == ids[0] || j in ids[1..];
      }
      assert ids[0] !in ids[1..];
    }
  }

  lemma SubsetCount(a: set<JobId>, b: set<JobId>)
    requires a <= b
    ensures |a| <= |b|
  {
    assert b == a + (b - a);
  }

  /** A group release in the database is that of the row. */
  lemma ReleaseGroupReleased(
    db: Db, cfg: Config, key: string, n: nat, limit: Positive, duration: int, hidden: set<JobId>, now: Time,
    loose: set<JobId>, pending: multiset<string>)
    requires Good(db, loose, pending) && 1 <= n <= pending[key] && key in db.semaphores
    ensures var r := ReleaseGroupOf(db, cfg, key, n, limit, duration, hidden, now);
            var waiting := WaitingIds(db, cfg.backend, key, hidden);
            var (row, promoted) := ReleaseTogether(db.semaphores[key], n, |waiting|, limit, now + duration, now);
            && r.Ok? && Released(db, r.value, cfg.backend, key, hidden, row, promoted)
            && r.value.nextPk == db.nextPk + promoted
  {
    ReleaseGroupGood(db, cfg, key, n, limit, duration, hidden, now, loose, pending);
    GroupUnfolds(db, cfg, key, n, limit, duration, hidden, now);
    hide *;
    var ids := Jobs(Take(Waiting(db, cfg.backend, key, hidden), n));
    var (row, promoted) := ReleaseTogether(
      db.semaphores[key], n, |WaitingIds(db, cfg.backend, key, hidden)|, limit, now + duration, now);
    var settled := SettleGroup(db, key, n, promoted, limit, duration, now);
    RowReleased(db, settled, cfg.backend, key, hidden, row);
    SameWaiting(db, settled, cfg.backend, key, hidden, row);
    assert forall id :: id in ids[..promoted] ==> id in ids;
    TakenCount(db, cfg.backend, key, hidden, n);
    DistinctPrefix(ids, promoted);
    PromoteAllReleased(settled, cfg.backend, key, hidden, ids[..promoted]);
    ReleasedTwice(db, settled, PromoteAll(settled, cfg.backend, ids[..promoted]).value, cfg.backend, key, hidden,
                  row, 0, row, promoted);
  }

  lemma DistinctPrefix(ids: seq<JobId>, n: nat)
    requires Distinct(ids) && n <= |ids|
    ensures Distinct(ids[..n])
  {
  }

  lemma GroupUnfolds(
    db: Db, cfg: Config, key: string, n: nat, limit: Positive, duration: int, hidden: set<JobId>, now: Time)
    requires key in db.semaphores && ReleaseGroupOf(db, cfg, key, n, limit, duration, hidden, now).Ok?
    ensures var ids := Jobs(Take(Waiting(db, cfg.backend, key, hidden), n));
            var (row, promoted) := ReleaseTogether(
                                     db.semaphores[key], n, |WaitingIds(db, cfg.backend, key, hidden)|, limit, now + duration, now);
            0 <= promoted <= |ids|
            && var settled := SettleGroup(db, key, n, promoted, limit, duration, now);
               && settled == db.(semaphores := db.semaphores[key := row], forgotten := settled.forgotten)
               && ReleaseGroupOf(db, cfg, key, n, limit, duration, hidden, now)
                  == PromoteAll(settled, cfg.backend, ids[..promoted])
  {
    TakenCount(db, cfg.backend, key, hidden, n);
    hide PromoteAll, Take, Waiting, WaitingIds, Jobs, Settled;
  }

  // ---------------------------------------------------------------- where the two forms agree

  /**
   A group release and as many single ones leave the same semaphores and promote the same number of jobs exactly
   when the limit is the slots in use but one at least, or one slot is released, or all are and no job waits.
   */
  lemma GroupIsRepeatedReleaseIff(
    db: Db, cfg: Config, key: string, n: nat, limit: Positive, duration: int, hidden: set<JobId>, now: Time,
    loose: set<JobId>, pending: multiset<string>)
    requires Good(db, loose, pending) && 1 <= n <= pending[key]
    requires key in db.semaphores && n <= Tables.Slots(db, key)
    ensures var single := ReleaseKeyTimes(db, cfg, key, n, limit, duration, hidden, now);
            var group := ReleaseGroupOf(db, cfg, key, n, limit, duration, hidden, now);
            && single.Ok? && group.Ok?
            && (single.value.semaphores == group.value.semaphores
                && |Promoted(db, single.value)| == |Promoted(db, group.value)|
                <==> || limit >= Tables.Slots(db, key) - 1
                     || n == 1
                     || (n == Tables.Slots(db, key) && WaitingIds(db, cfg.backend, key, hidden) == {}))
  {
    hide *;
    GoodSemaphore(db, loose, pending, key);
    SlotsOfRow(db, key);
    var (s, waiting) := (db.semaphores[key], |WaitingIds(db, cfg.backend, key, hidden)|);
    ReleaseKeyTimesReleased(db, cfg, key, n, limit, duration, hidden, now, loose, pending);
    ReleaseGroupReleased(db, cfg, key, n, limit, duration, hidden, now, loose, pending);
    RowsAgreeIff(s, n, waiting, limit, now + duration, now);
    var (one, p) := ReleaseTimes(s, n, waiting, limit, now + duration, now);
    var (all, q) := ReleaseTogether(s, n, waiting, limit, now + duration, now);
    var single := ReleaseKeyTimes(db, cfg, key, n, limit, duration, hidden, now).value;
    var group := ReleaseGroupOf(db, cfg, key, n, limit, duration, hidden, now).value;
    RowsAndPromotions(db, single, group, cfg.backend, key, hidden, one, p, all, q);
  }

  lemma SlotsOfRow(db: Db, key: string)
    requires key in db.semaphores
    ensures Tables.Slots(db, key) == Occupied(Some(db.semaphores[key]))
  {
  }

  lemma RowsAndPromotions(
    db: Db, a: Db, b: Db, backend: string, key: string, hidden: set<JobId>, first: Semaphore, m: int,
    second: Semaphore, n: int)
    requires Released(db, a, backend, key, hidden, first, m) && Released(db, b, backend, key, hidden, second, n)
    ensures a.semaphores == b.semaphores && |Promoted(db, a)| == |Promoted(db, b)| <==> first == second && m == n
  {
    hide WaitingIds;
    assert a.semaphores[key] == first && b.semaphores[key] == second;
  }

  lemma RowIdsDiffer(
    db: Db, a: Db, b: Db, backend: string, key: string, hidden: set<JobId>, first: Semaphore, m: int,
    second: Semaphore, n: int)
    requires Released(db, a, backend, key, hidden, first, m) && Released(db, b, backend, key, hidden, second, n)
    requires a.nextPk > db.nextPk + m && b.nextPk == db.nextPk + n
    ensures !SameTables(a, b)
  {
    hide WaitingIds;
  }

  /** Without waiting jobs the releases change the semaphore row only. */
  lemma {:induction false} NothingToPromote(
    db: Db, cfg: Config, key: string, n: nat, limit: Positive, duration: int, hidden: set<JobId>, now: Time)
    requires key in db.semaphores && WaitingIds(db, cfg.backend, key, hidden) == {}
    ensures var r := ReleaseKeyTimes(db, cfg, key, n, limit, duration, hidden, now);
            r.Ok? && r.value == db.(semaphores := r.value.semaphores, forgotten := r.value.forgotten)
    decreases n
  {
    if n > 0 {
      SomeoneWaits(db, cfg.backend, key, hidden);
      var first := ReleaseSemaphore(db, key, limit, duration, now);
      SameBlockedWaiting(db, first, cfg.backend, key, hidden);
      SomeoneWaits(first, cfg.backend, key, hidden);
      assert ReleaseKey(db, cfg, key, limit, duration, hidden, now) == Ok(first);
      NothingToPromote(first, cfg, key, n - 1, limit, duration, hidden, now);
    }
  }

  lemma NothingToPromoteTogether(
    db: Db, cfg: Config, key: string, n: nat, limit: Positive, duration: int, hidden: set<JobId>, now: Time)
    requires key in db.semaphores && WaitingIds(db, cfg.backend, key, hidden) == {}
    ensures var r := ReleaseGroupOf(db, cfg, key, n, limit, duration, hidden, now);
            r.Ok? && r.value == db.(semaphores := r.value.semaphores, forgotten := r.value.forgotten)
  {
    SomeoneWaits(db, cfg.backend, key, hidden);
  }

  /** The tables are the same; the history variable is not compared. */
  predicate SameTables(a: Db, b: Db) {
    a == b.(forgotten := a.forgotten)
  }

  /**
   The two leave the very same tables exactly when the limit covers the slots in use, or no job waits and they
   agree on the row: below that, a waiting job that got no slot was put back as a new row.
   */
  lemma SameTablesIff(
    db: Db, cfg: Config, key: string, n: nat, limit: Positive, duration: int, hidden: set<JobId>, now: Time,
    loose: set<JobId>, pending: multiset<string>)
    requires Good(db, loose, pending) && 1 <= n <= pending[key] && key !in db.forgotten
    ensures var single := ReleaseKeyTimes(db, cfg, key, n, limit, duration, hidden, now);
            var group := ReleaseGroupOf(db, cfg, key, n, limit, duration, hidden, now);
            var slots := Tables.Slots(db, key);
            && single.Ok? && group.Ok?
            && (SameTables(single.value, group.value)
                <==> || limit >= slots
                     || (WaitingIds(db, cfg.backend, key, hidden) == {} && (limit == slots - 1 || n == 1 || n == slots)))
  {
    PendingRow(db, loose, pending, key);
    GoodSemaphore(db, loose, pending, key);
    GroupIsRepeatedReleaseIff(db, cfg, key, n, limit, duration, hidden, now, loose, pending);
    if limit >= Tables.Slots(db, key) {
      GroupIsRepeatedRelease(db, cfg, key, n, limit, duration, hidden, now, loose, pending);
    } else if WaitingIds(db, cfg.backend, key, hidden) == {} {
      NothingToPromote(db, cfg, key, n, limit, duration, hidden, now);
      NothingToPromoteTogether(db, cfg, key, n, limit, duration, hidden, now);
      BothPromoteNothing(db, cfg, key, n, limit, duration, hidden, now);
    } else {
      RestoredRowDiffers(db, cfg, key, n, limit, duration, hidden, now, loose, pending);
    }
  }

  lemma BothPromoteNothing(
    db: Db, cfg: Config, key: string, n: nat, limit: Positive, duration: int, hidden: set<JobId>, now: Time)
    requires key in db.semaphores && WaitingIds(db, cfg.backend, key, hidden) == {}
    ensures var single := ReleaseKeyTimes(db, cfg, key, n, limit, duration, hidden, now);
            var group := ReleaseGroupOf(db, cfg, key, n, limit, duration, hidden, now);
            && single.Ok? && group.Ok?
            && |Promoted(db, single.value)| == |Promoted(db, group.value)|
            && (SameTables(single.value, group.value) <==> single.value.semaphores == group.value.semaphores)
  {
    NothingToPromote(db, cfg, key, n, limit, duration, hidden, now);
    NothingToPromoteTogether(db, cfg, key, n, limit, duration, hidden, now);
    hide ReleaseKeyTimes, ReleaseGroupOf, WaitingIds;
  }

  lemma RestoredRowDiffers(
    db: Db, cfg: Config, key: string, n: nat, limit: Positive, duration: int, hidden: set<JobId>, now: Time,
    loose: set<JobId>, pending: multiset<string>)
    requires Good(db, loose, pending) && 1 <= n <= pending[key] && key in db.semaphores
    requires WellFormed(db.semaphores[key]) && limit < Tables.Slots(db, key)
    requires WaitingIds(db, cfg.backend, key, hidden) != {}
    ensures var single := ReleaseKeyTimes(db, cfg, key, n, limit, duration, hidden, now);
            var group := ReleaseGroupOf(db, cfg, key, n, limit, duration, hidden, now);
            single.Ok? && group.Ok? && !SameTables(single.value, group.value)
  {
    hide *;
    SlotsOfRow(db, key);
    var (s, waiting) := (db.semaphores[key], |WaitingIds(db, cfg.backend, key, hidden)|);
    ReleaseOneFirst(s, waiting, limit, now + duration, now);
    ReleaseKeyTimesReleased(db, cfg, key, n, limit, duration, hidden, now, loose, pending);
    ReleaseGroupReleased(db, cfg, key, n, limit, duration, hidden, now, loose, pending);
    var (one, p) := ReleaseTimes(s, n, waiting, limit, now + duration, now);
    var (all, q) := ReleaseTogether(s, n, waiting, limit, now + duration, now);
    var single := ReleaseKeyTimes(db, cfg, key, n, limit, duration, hidden, now).value;
    var group := ReleaseGroupOf(db, cfg, key, n, limit, duration, hidden, now).value;
    RowIdsDiffer(db, single, group, cfg.backend, key, hidden, one, p, all, q);
  }

  // ---------------------------------------------------------------- five slots in use

  function BlockedJob(): Job {
    Job("b", "t", "q", 0, None, Some("k"), Historical, None)
  }

  /** Five slots of a key in use: two by ready jobs, three by jobs that have just left; three more jobs wait for it. */
  function FiveInUse(): Db {
    EmptyDb.(
      jobs := map[1 := BlockedJob(), 2 := BlockedJob(), 3 := BlockedJob(), 4 := BlockedJob(), 5 := BlockedJob()],
      ready := map[1 := ReadyRow(1, "b", "q", 0), 2 := ReadyRow(2, "b", "q", 0)],
      blocked := map[3 := BlockedRow(3, "b", "q", 0, "k", 0), 4 := BlockedRow(4, "b", "q", 0, "k", 0),
                     5 := BlockedRow(5, "b", "q", 0, "k", 0)],
      semaphores := map["k" := Settled(0, 5, 0, 0)], nextPk := 6)
  }

  lemma FiveInUseIsCounted()
    ensures Accounted(FiveInUse(), multiset{"k", "k", "k"})
  {
    var db := FiveInUse();
    forall key | key !in db.forgotten
      ensures Tables.Slots(db, key) == |Holders(db, key)| + multiset{"k", "k", "k"}[key]
    {
      if key == "k" {
        assert Holders(db, key) == {1, 2};
      } else {
        assert Holders(db, key) == {};
      }
    }
  }

  lemma FiveInUseIsGood()
    ensures Good(FiveInUse(), {}, multiset{"k", "k", "k"})
  {
    FiveInUseIsCounted();
    hide Accounted;
  }

  lemma FiveInUseWaiting()
    ensures WaitingIds(FiveInUse(), "b", "k", {}) == {3, 4, 5} && |WaitingIds(FiveInUse(), "b", "k", {})| == 3
    ensures "k" in FiveInUse().semaphores && FiveInUse().semaphores["k"] == Settled(0, 5, 0, 0)
  {
    assert WaitingIds(FiveInUse(), "b", "k", {}) == {3, 4, 5};
    assert |{3, 4, 5}| == 3;
  }

  lemma FiveInUseRow(expiresAt: Time, now: Time)
    ensures ReleaseTimes(Settled(0, 5, 0, 0), 3, 3, 3, expiresAt, now).1 == 2
    ensures ReleaseTogether(Settled(0, 5, 0, 0), 3, 3, 3, expiresAt, now).1 == 1
  {
    ReleaseTimesResult(Settled(0, 5, 0, 0), 3, 3, 3, expiresAt, now);
  }

  lemma PromotedCount(a: Db, b: Db, backend: string, key: string, hidden: set<JobId>, row: Semaphore, n: int)
    requires Released(a, b, backend, key, hidden, row, n)
    ensures |Promoted(a, b)| == n
  {
  }

  /** Three of them released under a limit of three: together they promote one job, one by one two. */
  lemma GroupCanPromoteFewer(cfg: Config, duration: int, now: Time)
    requires cfg.backend == "b"
    ensures var single := ReleaseKeyTimes(FiveInUse(), cfg, "k", 3, 3, duration, {}, now);
            var group := ReleaseGroupOf(FiveInUse(), cfg, "k", 3, 3, duration, {}, now);
            && single.Ok? && group.Ok?
            && |Promoted(FiveInUse(), group.value)| == 1 && |Promoted(FiveInUse(), single.value)| == 2
  {
    hide *;
    var (db, s, pending) := (FiveInUse(), Settled(0, 5, 0, 0), multiset{"k", "k", "k"});
    FiveInUseIsGood();
    FiveInUseWaiting();
    FiveInUseRow(now + duration, now);
    ReleaseKeyTimesReleased(db, cfg, "k", 3, 3, duration, {}, now, {}, pending);
    ReleaseGroupReleased(db, cfg, "k", 3, 3, duration, {}, now, {}, pending);
    PromotedCount(db, ReleaseKeyTimes(db, cfg, "k", 3, 3, duration, {}, now).value, "b", "k", {},
                  ReleaseTimes(s, 3, 3, 3, now + duration, now).0, 2);
    PromotedCount(db, ReleaseGroupOf(db, cfg, "k", 3, 3, duration, {}, now).value, "b", "k", {},
                  ReleaseTogether(s, 3, 3, 3, now + duration, now).0, 1);
  }
}
