/**
 When each key occurs with one decision, bulk dispatch gives every job the outcome, and every key the
 semaphore, that dispatching the jobs one by one in their original order gives. Only the primary keys
 of the new rows can be numbered differently.
 */
module DispatchReorder {
  import opened Results
  import opened Semaphores
  import opened Tables
  import opened Slots
  import opened Dispatch
  import opened Grouping

  // ---------------------------------------------------------------- tables up to primary keys

  ghost predicate SameRows<R(!new)>(m: map<JobId, R>, n: map<JobId, R>, strip: R -> R) {
    m.Keys == n.Keys && forall id :: id in m ==> strip(m[id]) == strip(n[id])
  }

  /** `n` is `m`, with `row` put at `id` when `put` says so. */
  ghost predicate PutRow<R(!new)>(m: map<JobId, R>, n: map<JobId, R>, id: JobId, put: bool, row: R, strip: R -> R) {
    && n.Keys == (if put then m.Keys + {id} else m.Keys)
    && forall x :: x in n ==> strip(n[x]) == if put && x == id then strip(row) else strip(m[x])
  }

  lemma PutRowCongruent<R(!new)>(
    m: map<JobId, R>, n: map<JobId, R>, m': map<JobId, R>, n': map<JobId, R>, id: JobId, put: bool, row: R, strip: R -> R)
    requires SameRows(m, m', strip)
    requires PutRow(m, n, id, put, row, strip) && PutRow(m', n', id, put, row, strip)
    ensures SameRows(n, n', strip)
  {
    forall x | x in n
      ensures x in n' && strip(n[x]) == strip(n'[x])
    {
      assert x in n';
    }
  }

  lemma PutRowCommutes<R(!new)>(
    m: map<JobId, R>, ni: map<JobId, R>, nij: map<JobId, R>, nj: map<JobId, R>, nji: map<JobId, R>,
    i: JobId, puti: bool, rowi: R, j: JobId, putj: bool, rowj: R, strip: R -> R)
    requires i != j
    requires PutRow(m, ni, i, puti, rowi, strip) && PutRow(ni, nij, j, putj, rowj, strip)
    requires PutRow(m, nj, j, putj, rowj, strip) && PutRow(nj, nji, i, puti, rowi, strip)
    ensures SameRows(nij, nji, strip)
  {
    forall x | x in nij
      ensures x in nji && strip(nij[x]) == strip(nji[x])
    {
      assert x in nji;
      assert !(putj && x == j) ==> x in ni;
      assert !(puti && x == i) ==> x in nj;
    }
  }

  function StripReady(r: ReadyRow): ReadyRow {
    r.(pk := 0)
  }

  function StripScheduled(r: ScheduledRow): ScheduledRow {
    r.(pk := 0)
  }

  function StripBlocked(r: BlockedRow): BlockedRow {
    r.(pk := 0)
  }

  /** Equal tables, but for the primary keys of the rows dispatch creates. */
  ghost predicate AlikeRows(a: Db, b: Db) {
    && a.jobs == b.jobs && a.claimed == b.claimed && a.failed == b.failed
    && a.processes == b.processes && a.pauses == b.pauses
    && SameRows(a.ready, b.ready, StripReady)
    && SameRows(a.scheduled, b.scheduled, StripScheduled)
    && SameRows(a.blocked, b.blocked, StripBlocked)
  }

  ghost predicate Alike(a: Db, b: Db) {
    AlikeRows(a, b) && a.semaphores == b.semaphores && a.forgotten == b.forgotten
  }

  lemma AlikeTransitive(a: Db, b: Db, c: Db)
    requires Alike(a, b) && Alike(b, c)
    ensures Alike(a, c)
  {
  }

  // ---------------------------------------------------------------- what one dispatch does

  function ReadyOf(job: Job): ReadyRow {
    ReadyRow(0, job.backend, job.queue, job.priority)
  }

  function ScheduledOf(job: Job, now: Time): ScheduledRow {
    ScheduledRow(0, job.backend, job.queue, job.priority,
                 if job.scheduledAt.Some? then job.scheduledAt.value else now)
  }

  function BlockedOf(job: Job, outcome: Outcome, now: Time): BlockedRow {
    BlockedRow(0, job.backend, job.queue, job.priority,
               if outcome.ToBlocked? then outcome.key else "",
               if outcome.ToBlocked? then now + outcome.duration else now)
  }

  ghost predicate Effect(db: Db, after: Db, id: JobId, job: Job, outcome: Outcome, now: Time) {
    && id in db.jobs
    && after.jobs == (if outcome.ToDiscard? then db.jobs[id := db.jobs[id].(finishedAt := Some(now))] else db.jobs)
    && after.claimed == db.claimed && after.failed == db.failed
    && after.processes == db.processes && after.pauses == db.pauses
    && PutRow(db.ready, after.ready, id, outcome.ToReady?, ReadyOf(job), StripReady)
    && PutRow(db.scheduled, after.scheduled, id, outcome.ToScheduled?, ScheduledOf(job, now), StripScheduled)
    && PutRow(db.blocked, after.blocked, id, outcome.ToBlocked?, BlockedOf(job, outcome, now), StripBlocked)
  }

  lemma PlaceAsEffect(db: Db, id: JobId, job: Job, outcome: Outcome, now: Time)
    requires id in db.jobs
    ensures Effect(db, PlaceAs(db, id, job, outcome, now), id, job, outcome, now)
  {
    match outcome
    case ToScheduled =>
    case ToReady =>
    case ToBlocked(_, _) =>
    case ToDiscard =>
  }

  lemma EffectCongruent(a: Db, a': Db, b: Db, b': Db, id: JobId, job: Job, outcome: Outcome, now: Time)
    requires AlikeRows(a, b)
    requires Effect(a, a', id, job, outcome, now) && Effect(b, b', id, job, outcome, now)
    ensures AlikeRows(a', b')
  {
    PutRowCongruent(a.ready, a'.ready, b.ready, b'.ready, id, outcome.ToReady?, ReadyOf(job), StripReady);
    PutRowCongruent(a.scheduled, a'.scheduled, b.scheduled, b'.scheduled, id, outcome.ToScheduled?,
                    ScheduledOf(job, now), StripScheduled);
    PutRowCongruent(a.blocked, a'.blocked, b.blocked, b'.blocked, id, outcome.ToBlocked?,
                    BlockedOf(job, outcome, now), StripBlocked);
  }

  lemma EffectsCommute(
    db: Db, di: Db, dij: Db, dj: Db, dji: Db, i: JobId, ji: Job, oi: Outcome, j: JobId, jj: Job, oj: Outcome, now: Time)
    requires i != j
    requires Effect(db, di, i, ji, oi, now) && Effect(di, dij, j, jj, oj, now)
    requires Effect(db, dj, j, jj, oj, now) && Effect(dj, dji, i, ji, oi, now)
    ensures AlikeRows(dij, dji)
  {
    hide PutRow, SameRows, ReadyOf, ScheduledOf, BlockedOf;
    PutRowCommutes(db.ready, di.ready, dij.ready, dj.ready, dji.ready, i, oi.ToReady?, ReadyOf(ji),
                   j, oj.ToReady?, ReadyOf(jj), StripReady);
    PutRowCommutes(db.scheduled, di.scheduled, dij.scheduled, dj.scheduled, dji.scheduled, i, oi.ToScheduled?,
                   ScheduledOf(ji, now), j, oj.ToScheduled?, ScheduledOf(jj, now), StripScheduled);
    PutRowCommutes(db.blocked, di.blocked, dij.blocked, dj.blocked, dji.blocked, i, oi.ToBlocked?,
                   BlockedOf(ji, oi, now), j, oj.ToBlocked?, BlockedOf(jj, oj, now), StripBlocked);
    assert dij.jobs == dji.jobs;
  }

  // ---------------------------------------------------------------- one dispatch after another

  /** The semaphore part of a dispatch: the rows after it, the history after it, and the outcome. */
  function Bid(semaphores: map<string, Semaphore>, forgotten: set<string>, t: Ticket, now: Time)
    : (map<string, Semaphore>, set<string>, Outcome)
  {
    match t.decision
    case Contend(key, policy) =>
      var row := Lookup(semaphores, key);
      var (after, acquired) := Acquire(row, policy.limit, now + policy.duration, now);
      (semaphores[key := after], if policy.limit < Occupied(row) then forgotten + {key} else forgotten,
       OutcomeOf(t.decision, acquired))
    case _ => (semaphores, forgotten, OutcomeOf(t.decision, true))
  }

  /** Both tickets want slots of the same key. */
  predicate Rivals(t: Ticket, u: Ticket) {
    t.decision.Contend? && u.decision.Contend? && t.decision.key == u.decision.key
  }

  /** Bids on different keys do not see each other. */
  lemma BidsCommute(semaphores: map<string, Semaphore>, forgotten: set<string>, t: Ticket, u: Ticket, now: Time)
    requires !Rivals(t, u)
    ensures var (st, ft, ot) := Bid(semaphores, forgotten, t, now);
            var (su, fu, ou) := Bid(semaphores, forgotten, u, now);
            Bid(st, ft, u, now).2 == ou && Bid(su, fu, t, now).2 == ot
            && Bid(st, ft, u, now).0 == Bid(su, fu, t, now).0
            && Bid(st, ft, u, now).1 == Bid(su, fu, t, now).1
  {
    hide Acquire, OutcomeOf;
    if t.decision.Contend? && u.decision.Contend? {
      var (kt, ku) := (t.decision.key, u.decision.key);
      var (st, ft, _) := Bid(semaphores, forgotten, t, now);
      var (su, fu, _) := Bid(semaphores, forgotten, u, now);
      assert Lookup(st, ku) == Lookup(semaphores, ku) && Lookup(su, kt) == Lookup(semaphores, kt);
    }
  }

  lemma DispatchOneByBid(db: Db, t: Ticket, now: Time)
    requires t.id in db.jobs
    ensures var (semaphores, forgotten, outcome) := Bid(db.semaphores, db.forgotten, t, now);
            var after := DispatchOne(db, t, now);
            && after.semaphores == semaphores && after.forgotten == forgotten
            && Effect(db, after, t.id, db.jobs[t.id], outcome, now)
  {
    hide Acquire, PlaceAs, OutcomeOf, Effect;
    var (semaphores, forgotten, outcome) := Bid(db.semaphores, db.forgotten, t, now);
    var after := db.(semaphores := semaphores, forgotten := forgotten);
    PlaceAsEffect(after, t.id, db.jobs[t.id], outcome, now);
    PlaceAsFrame(after, t.id, db.jobs[t.id], outcome, now, semaphores, forgotten);
    assert DispatchOne(db, t, now) == PlaceAs(after, t.id, db.jobs[t.id], outcome, now);
    EffectIgnoresSlots(db, after, DispatchOne(db, t, now), t.id, db.jobs[t.id], outcome, now);
  }

  lemma EffectKeepsOthers(db: Db, after: Db, id: JobId, job: Job, outcome: Outcome, now: Time, other: JobId)
    requires Effect(db, after, id, job, outcome, now)
    requires other in db.jobs && other != id
    ensures other in after.jobs && after.jobs[other] == db.jobs[other]
  {
  }

  lemma EffectIgnoresSlots(a: Db, b: Db, after: Db, id: JobId, job: Job, outcome: Outcome, now: Time)
    requires b == a.(semaphores := b.semaphores, forgotten := b.forgotten)
    requires Effect(b, after, id, job, outcome, now)
    ensures Effect(a, after, id, job, outcome, now)
  {
  }

  lemma DispatchCongruent(a: Db, b: Db, t: Ticket, now: Time)
    requires Alike(a, b) && t.id in a.jobs
    ensures Alike(DispatchOne(a, t, now), DispatchOne(b, t, now))
  {
    hide DispatchOne, Bid, Effect, AlikeRows;
    assert a.jobs == b.jobs by {
      AlikeJobs(a, b);
    }
    DispatchOneByBid(a, t, now);
    DispatchOneByBid(b, t, now);
    var (semaphores, forgotten, outcome) := Bid(a.semaphores, a.forgotten, t, now);
    EffectCongruent(a, DispatchOne(a, t, now), b, DispatchOne(b, t, now), t.id, a.jobs[t.id], outcome, now);
  }

  lemma AlikeJobs(a: Db, b: Db)
    requires Alike(a, b)
    ensures a.jobs == b.jobs
  {
  }

  lemma {:induction false} DispatchAllCongruent(a: Db, b: Db, ts: seq<Ticket>, now: Time)
    requires Alike(a, b) && forall t :: t in ts ==> t.id in a.jobs
    ensures Alike(DispatchAll(a, ts, now), DispatchAll(b, ts, now))
    decreases |ts|
  {
    hide Alike, DispatchOne;
    if ts != [] {
      assert ts[0] in ts && forall t :: t in ts[1..] ==> t in ts;
      DispatchCongruent(a, b, ts[0], now);
      DispatchOneJobs(a, ts[0], now);
      DispatchAllCongruent(DispatchOne(a, ts[0], now), DispatchOne(b, ts[0], now), ts[1..], now);
    }
  }

  lemma DispatchesCommute(db: Db, t: Ticket, u: Ticket, now: Time)
    requires t.id in db.jobs && u.id in db.jobs && t.id != u.id && !Rivals(t, u)
    ensures Alike(DispatchOne(DispatchOne(db, t, now), u, now), DispatchOne(DispatchOne(db, u, now), t, now))
  {
    hide DispatchOne, Bid, Effect, AlikeRows, Rivals;
    var (dt, du) := (DispatchOne(db, t, now), DispatchOne(db, u, now));
    var (dtu, dut) := (DispatchOne(dt, u, now), DispatchOne(du, t, now));
    DispatchOneByBid(db, t, now);
    DispatchOneByBid(db, u, now);
    EffectKeepsOthers(db, dt, t.id, db.jobs[t.id], Bid(db.semaphores, db.forgotten, t, now).2, now, u.id);
    EffectKeepsOthers(db, du, u.id, db.jobs[u.id], Bid(db.semaphores, db.forgotten, u, now).2, now, t.id);
    DispatchOneByBid(dt, u, now);
    DispatchOneByBid(du, t, now);
    BidsCommute(db.semaphores, db.forgotten, t, u, now);
    EffectsCommute(db, dt, dtu, du, dut, t.id, db.jobs[t.id], Bid(db.semaphores, db.forgotten, t, now).2,
                   u.id, db.jobs[u.id], Bid(db.semaphores, db.forgotten, u, now).2, now);
  }

  // ---------------------------------------------------------------- stable partitions

  predicate Independent(t: Ticket, u: Ticket) {
    t.id != u.id && !Rivals(t, u)
  }

  /** A ticket moves behind tickets it is independent of. */
  lemma {:induction false} MoveBack(db: Db, t: Ticket, us: seq<Ticket>, now: Time)
    requires t.id in db.jobs && forall u :: u in us ==> u.id in db.jobs && Independent(t, u)
    ensures Alike(DispatchAll(db, [t] + us, now), DispatchAll(db, us + [t], now))
    decreases |us|
  {
    hide Alike, DispatchOne, Rivals, DispatchAll;
    if us == [] {
      assert [t] + us == us + [t];
      AlikeReflexive(DispatchAll(db, [t] + us, now));
    } else {
      var (u, rest) := (us[0], us[1..]);
      assert u in us && forall x :: x in rest ==> x in us;
      SwapFirst(db, t, u, rest, now);
      var du := DispatchOne(db, u, now);
      DispatchOneJobs(db, u, now);
      MoveBack(du, t, rest, now);
      HeadOne(db, u, rest + [t], now);
      assert us + [t] == [u] + (rest + [t]);
      assert [t] + us == [t, u] + rest;
      AlikeTransitive(DispatchAll(db, [t, u] + rest, now), DispatchAll(du, [t] + rest, now),
                      DispatchAll(du, rest + [t], now));
    }
  }

  lemma SwapFirst(db: Db, t: Ticket, u: Ticket, rest: seq<Ticket>, now: Time)
    requires t.id in db.jobs && u.id in db.jobs && Independent(t, u)
    requires forall x :: x in rest ==> x.id in db.jobs
    ensures Alike(DispatchAll(db, [t, u] + rest, now), DispatchAll(DispatchOne(db, u, now), [t] + rest, now))
  {
    hide Alike, DispatchOne, Rivals, DispatchAll;
    var (dt, du) := (DispatchOne(db, t, now), DispatchOne(db, u, now));
    DispatchesCommute(db, t, u, now);
    DispatchOneJobs(db, t, now);
    DispatchOneJobs(dt, u, now);
    HeadTwo(db, t, u, rest, now);
    HeadOne(du, t, rest, now);
    DispatchAllCongruent(DispatchOne(dt, u, now), DispatchOne(du, t, now), rest, now);
  }

  lemma HeadOne(db: Db, t: Ticket, ts: seq<Ticket>, now: Time)
    ensures DispatchAll(db, [t] + ts, now) == DispatchAll(DispatchOne(db, t, now), ts, now)
  {
    hide DispatchOne;
    assert ([t] + ts)[1..] == ts;
  }

  lemma HeadTwo(db: Db, t: Ticket, u: Ticket, ts: seq<Ticket>, now: Time)
    ensures DispatchAll(db, [t, u] + ts, now) == DispatchAll(DispatchOne(DispatchOne(db, t, now), u, now), ts, now)
  {
    hide DispatchOne;
    assert [t, u] + ts == [t] + ([u] + ts);
    HeadOne(db, t, [u] + ts, now);
    HeadOne(DispatchOne(db, t, now), u, ts, now);
  }

  /** Tickets selected by `p`, independent of all the others, can be dispatched first. */
  lemma {:induction false} PartitionAlike(db: Db, ts: seq<Ticket>, p: Ticket -> bool, q: Ticket -> bool, now: Time)
    requires forall t :: p(t) <==> !q(t)
    requires forall t :: t in ts ==> t.id in db.jobs
    requires forall t, u :: t in ts && u in ts && q(t) && p(u) ==> Independent(t, u)
    ensures Alike(DispatchAll(db, ts, now), DispatchAll(db, Where(ts, p) + Where(ts, q), now))
    decreases |ts|
  {
    if ts == [] {
      assert Where(ts, p) + Where(ts, q) == ts;
      hide *;
      AlikeReflexive(DispatchAll(db, ts, now));
    } else {
      hide Alike, DispatchOne, Independent, DispatchAll, Where;
      var (t, us) := (ts[0], ts[1..]);
      assert t in ts && forall u :: u in us ==> u in ts;
      var (first, second) := (Where(us, p), Where(us, q));
      var dt := DispatchOne(db, t, now);
      DispatchOneJobs(db, t, now);
      PartitionAlike(dt, us, p, q, now);
      HeadOne(db, t, first + second, now);
      HeadOne(db, t, us, now);
      assert ts == [t] + us;
      PartitionHead(ts, p, q);
      if !p(t) {
        assert forall u :: u in first ==> Independent(t, u);
        MoveBehind(db, t, first, second, now);
        AlikeTransitive(DispatchAll(db, ts, now), DispatchAll(db, [t] + (first + second), now),
                        DispatchAll(db, first + [t] + second, now));
      }
    }
  }

  lemma PartitionHead(ts: seq<Ticket>, p: Ticket -> bool, q: Ticket -> bool)
    requires ts != [] && (p(ts[0]) <==> !q(ts[0]))
    ensures var (first, second) := (Where(ts[1..], p), Where(ts[1..], q));
            Where(ts, p) + Where(ts, q)
            == if p(ts[0]) then [ts[0]] + (first + second) else first + [ts[0]] + second
  {
    hide *;
    WhereHead(ts, p);
    WhereHead(ts, q);
    var (first, second) := (Where(ts[1..], p), Where(ts[1..], q));
    if p(ts[0]) {
      Associative([ts[0]], first, second);
    } else {
      Associative(first, [ts[0]], second);
    }
  }

  lemma MoveBehind(db: Db, t: Ticket, first: seq<Ticket>, second: seq<Ticket>, now: Time)
    requires t.id in db.jobs && forall u :: u in first ==> u.id in db.jobs && Independent(t, u)
    requires forall u :: u in second ==> u.id in db.jobs
    ensures Alike(DispatchAll(db, [t] + (first + second), now), DispatchAll(db, first + [t] + second, now))
  {
    hide Alike, DispatchOne, Independent, DispatchAll;
    MoveBack(db, t, first, now);
    assert [t] + (first + second) == ([t] + first) + second;
    DispatchAllConcat(db, [t] + first, second, now);
    DispatchAllConcat(db, first + [t], second, now);
    DispatchAllJobs(db, [t] + first, now);
    DispatchAllCongruent(DispatchAll(db, [t] + first, now), DispatchAll(db, first + [t], now), second, now);
  }

  lemma AlikeReflexive(a: Db)
    ensures Alike(a, a)
  {
  }

  lemma {:induction false} DispatchAllJobs(db: Db, ts: seq<Ticket>, now: Time)
    ensures DispatchAll(db, ts, now).jobs.Keys == db.jobs.Keys
    decreases |ts|
  {
    hide DispatchOne;
    if ts != [] {
      DispatchOneJobs(db, ts[0], now);
      DispatchAllJobs(DispatchOne(db, ts[0], now), ts[1..], now);
    }
  }

  // ---------------------------------------------------------------- the original order

  /** No key occurs with two different limits, durations or conflict rules. */
  ghost predicate OneDecisionPerKey(ts: seq<Ticket>) {
    forall t, u :: t in ts && u in ts && Rivals(t, u) ==> t.decision == u.decision
  }

  ghost predicate DistinctTickets(ts: seq<Ticket>) {
    forall t, u :: t in ts && u in ts && t.id == u.id ==> t == u
  }

  lemma {:induction false} GroupOrderAlike(db: Db, ts: seq<Ticket>, now: Time)
    requires OneDecisionPerKey(ts) && DistinctTickets(ts)
    requires forall t :: t in ts ==> t.id in db.jobs
    ensures Alike(DispatchAll(db, ts, now), DispatchAll(db, GroupOrder(ts), now))
    decreases |ts|
  {
    hide Alike, DispatchAll;
    if ts == [] {
      AlikeReflexive(DispatchAll(db, ts, now));
    } else {
      var d := ts[0].decision;
      var (group, rest) := (Where(ts, SameDecision(d)), Where(ts, OtherDecision(d)));
      assert ts[0] in ts && |rest| < |ts|;
      PartitionAlike(db, ts, SameDecision(d), OtherDecision(d), now);
      DispatchAllConcat(db, group, rest, now);
      DispatchAllConcat(db, group, GroupOrder(rest), now);
      DispatchAllJobs(db, group, now);
      GroupOrderAlike(DispatchAll(db, group, now), rest, now);
      AlikeTransitive(DispatchAll(db, ts, now), DispatchAll(db, group + rest, now), DispatchAll(db, GroupOrder(ts), now));
    }
  }

  /**
   Bulk dispatch of distinct jobs, each key with one decision, is single dispatch in the original
   order: the same outcome for every job, the same semaphores, the same rows up to their numbering.
   */
  lemma BulkIsSingleDispatchInOriginalOrder(db: Db, ts: seq<Ticket>, now: Time)
    requires OneDecisionPerKey(ts) && DistinctTickets(ts)
    requires forall t :: t in ts ==> t.id in db.jobs
    ensures Alike(Bulk(db, ts, now), DispatchAll(db, ts, now))
  {
    hide Alike, DispatchAll, Bulk;
    BulkIsSingleDispatchInGroupOrder(db, ts, now);
    var (direct, contenders) := (Where(ts, Direct), Where(ts, Contends));
    PartitionAlike(db, ts, Direct, Contends, now);
    DispatchAllConcat(db, direct, contenders, now);
    DispatchAllConcat(db, direct, GroupOrder(contenders), now);
    DispatchAllJobs(db, direct, now);
    GroupOrderAlike(DispatchAll(db, direct, now), contenders, now);
    AlikeTransitive(DispatchAll(db, ts, now), DispatchAll(db, direct + contenders, now), Bulk(db, ts, now));
    AlikeSymmetric(DispatchAll(db, ts, now), Bulk(db, ts, now));
  }

  lemma AlikeSymmetric(a: Db, b: Db)
    requires Alike(a, b)
    ensures Alike(b, a)
  {
  }
}
