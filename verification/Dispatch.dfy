/** Dispatch decisions, single dispatch, and the bulk dispatch that serves whole decision groups. */
module Dispatch {
  import opened Results
  import opened Semaphores
  import opened Tables
  import opened Slots
  import opened SlotAccounting
  import opened Grouping

  datatype Decision = Later | Immediately | Contend(key: string, policy: Policy)

  datatype Ticket = Ticket(id: JobId, decision: Decision)

  function Decide(job: Job, tasks: Tasks, now: Time): Result<Decision> {
    if job.scheduledAt.Some? && job.scheduledAt.value > now then
      Ok(Later)
    else if job.key.None? then
      Ok(Immediately)
    else
      var policy :- Settings(job, tasks);
      Ok(Contend(job.key.value, policy))
  }

  datatype Outcome = ToReady | ToScheduled | ToBlocked(key: string, duration: int) | ToDiscard

  function OutcomeOf(decision: Decision, acquired: bool): Outcome {
    match decision
    case Later => ToScheduled
    case Immediately => ToReady
    case Contend(key, policy) =>
      if acquired then ToReady
      else if policy.onConflict.Discard? then ToDiscard
      else ToBlocked(key, policy.duration)
  }

  /** The state row a dispatched job gets, or the finish a discarded one gets. */
  function PlaceAs(db: Db, id: JobId, job: Job, outcome: Outcome, now: Time): Db
    requires id in db.jobs
  {
    match outcome
    case ToScheduled => PutScheduled(db, id, job, if job.scheduledAt.Some? then job.scheduledAt.value else now)
    case ToReady => PutReady(db, id, job.backend, job.queue, job.priority)
    case ToBlocked(key, duration) =>
      PutBlocked(db, id, BlockedRow(0, job.backend, job.queue, job.priority, key, now + duration))
    case ToDiscard => SetFinished(db, id, Some(now))
  }

  function Place(db: Db, t: Ticket, acquired: bool, now: Time): Db {
    if t.id in db.jobs then PlaceAs(db, t.id, db.jobs[t.id], OutcomeOf(t.decision, acquired), now) else db
  }

  function DispatchOne(db: Db, t: Ticket, now: Time): Db {
    match t.decision
    case Contend(key, policy) =>
      var (after, acquired) := AcquireSlot(db, key, policy.limit, policy.duration, now);
      Place(after, t, acquired, now)
    case _ => Place(db, t, true, now)
  }

  function DispatchAll(db: Db, ts: seq<Ticket>, now: Time): Db
    decreases |ts|
  {
    if ts == [] then db else DispatchAll(DispatchOne(db, ts[0], now), ts[1..], now)
  }

  // ---------------------------------------------------------------- the bulk form

  const DecisionOf: Ticket -> Decision := (t: Ticket) => t.decision

  function SameDecision(d: Decision): Ticket -> bool {
    KeyIs(DecisionOf, d)
  }

  function OtherDecision(d: Decision): Ticket -> bool {
    KeyIsNot(DecisionOf, d)
  }

  const Contends: Ticket -> bool := (t: Ticket) => t.decision.Contend?

  const Direct: Ticket -> bool := (t: Ticket) => !t.decision.Contend?

  /** The first `granted` jobs of a group get the slots the group took. */
  function PlaceGroup(db: Db, group: seq<Ticket>, granted: nat, now: Time): Db
    decreases |group|
  {
    if group == [] then
      db
    else
      PlaceGroup(Place(db, group[0], granted > 0, now), group[1..], if granted > 0 then granted - 1 else 0, now)
  }

  /** Groups in the order their decisions first occur. */
  function BulkGroups(db: Db, ts: seq<Ticket>, now: Time): Db
    requires forall t :: t in ts ==> t.decision.Contend?
    decreases |ts|
  {
    if ts == [] then
      db
    else
      assert ts[0] in ts;
      var d := ts[0].decision;
      var group := Where(ts, SameDecision(d));
      var (after, granted) := AcquireSlots(db, d.key, |group|, d.policy.limit, d.policy.duration, now);
      assert |Where(ts, OtherDecision(d))| < |ts|;
      BulkGroups(PlaceGroup(after, group, granted, now), Where(ts, OtherDecision(d)), now)
  }

  function Bulk(db: Db, ts: seq<Ticket>, now: Time): Db {
    BulkGroups(DispatchAll(db, Where(ts, Direct), now), Where(ts, Contends), now)
  }

  // ---------------------------------------------------------------- bulk refines single, in group order

  function GroupOrder(ts: seq<Ticket>): (r: seq<Ticket>)
    ensures multiset(r) == multiset(ts)
    decreases |ts|
  {
    if ts == [] then
      []
    else
      var d := ts[0].decision;
      assert |Where(ts, OtherDecision(d))| < |ts|;
      WhereSplits(ts, SameDecision(d), OtherDecision(d));
      Where(ts, SameDecision(d)) + GroupOrder(Where(ts, OtherDecision(d)))
  }

  lemma SplitMore(t: Ticket, xs: seq<Ticket>, ys: seq<Ticket>, all: seq<Ticket>)
    requires multiset(xs) + multiset(ys) == multiset(all)
    ensures multiset([t] + xs) + multiset(ys) == multiset([t] + all)
    ensures multiset(xs) + multiset([t] + ys) == multiset([t] + all)
  {
  }

  lemma {:induction false} WhereSplits(ts: seq<Ticket>, p: Ticket -> bool, q: Ticket -> bool)
    requires forall t :: p(t) <==> !q(t)
    ensures multiset(Where(ts, p)) + multiset(Where(ts, q)) == multiset(ts)
    decreases |ts|
  {
    if ts != [] {
      hide Where;
      var (t, rest) := (ts[0], ts[1..]);
      WhereSplits(rest, p, q);
      WhereHead(ts, p);
      WhereHead(ts, q);
      assert ts == [t] + rest;
      SplitMore(t, Where(rest, p), Where(rest, q), rest);
    }
  }

  /** Jobs that contend for no slot first, then group after group, stably. */
  function DispatchOrder(ts: seq<Ticket>): seq<Ticket> {
    Where(ts, Direct) + GroupOrder(Where(ts, Contends))
  }

  lemma {:induction false} DispatchAllConcat(db: Db, xs: seq<Ticket>, ys: seq<Ticket>, now: Time)
    ensures DispatchAll(db, xs + ys, now) == DispatchAll(DispatchAll(db, xs, now), ys, now)
    decreases |xs|
  {
    hide DispatchOne;
    if xs == [] {
      assert xs + ys == ys;
    } else {
      assert (xs + ys)[1..] == xs[1..] + ys;
      DispatchAllConcat(DispatchOne(db, xs[0], now), xs[1..], ys, now);
    }
  }

  /** A batch of acquires starts with one acquire. */
  lemma AcquireManyStarts(row: Option<Semaphore>, n: nat, limit: Positive, expiresAt: Time, now: Time)
    requires n >= 1
    ensures var (first, acquired) := Acquire(row, limit, expiresAt, now);
            var (rest, more) := AcquireMany(Some(first), n - 1, limit, expiresAt, now);
            && AcquireMany(row, n, limit, expiresAt, now) == (rest, more + One(acquired))
            && rest.Some? && Occupied(Some(first)) <= limit
            && (acquired <==> AcquireMany(row, n, limit, expiresAt, now).1 > 0)
  {
  }

  /** Serving the first job of a group before the group's batch is serving it inside. */
  lemma GroupHead(db: Db, t: Ticket, n: nat, now: Time)
    requires n >= 1 && t.decision.Contend?
    ensures var (key, policy) := (t.decision.key, t.decision.policy);
            var (after, granted) := AcquireSlots(db, key, n, policy.limit, policy.duration, now);
            var (after1, granted1) := AcquireSlots(DispatchOne(db, t, now), key, n - 1, policy.limit, policy.duration, now);
            && after1 == Place(after, t, granted > 0, now)
            && granted1 == if granted > 0 then granted - 1 else 0
  {
    var (key, policy) := (t.decision.key, t.decision.policy);
    var row := Lookup(db.semaphores, key);
    AcquireManyStarts(row, n, policy.limit, now + policy.duration, now);
    var (after, granted) := AcquireSlots(db, key, n, policy.limit, policy.duration, now);
    var (first, acquired) := AcquireSlot(db, key, policy.limit, policy.duration, now);
    PlaceFrame(first, t, acquired, now, after.semaphores, after.forgotten);
    hide Place;
    var (rest, more) := AcquireMany(Lookup(first.semaphores, key), n - 1, policy.limit, now + policy.duration, now);
    assert after.semaphores == first.semaphores[key := rest.value];
  }

  lemma PlaceAsFrame(
    db: Db, id: JobId, job: Job, outcome: Outcome, now: Time, semaphores: map<string, Semaphore>, forgotten: set<string>)
    requires id in db.jobs
    ensures PlaceAs(db.(semaphores := semaphores, forgotten := forgotten), id, job, outcome, now)
         == PlaceAs(db, id, job, outcome, now).(semaphores := semaphores, forgotten := forgotten)
    ensures PlaceAs(db, id, job, outcome, now).semaphores == db.semaphores
    ensures PlaceAs(db, id, job, outcome, now).forgotten == db.forgotten
    ensures PlaceAs(db, id, job, outcome, now).jobs.Keys == db.jobs.Keys
    ensures forall j :: j in db.jobs ==> PlaceAs(db, id, job, outcome, now).jobs[j].key == db.jobs[j].key
  {
    match outcome
    case ToScheduled =>
    case ToReady =>
    case ToBlocked(_, _) =>
    case ToDiscard =>
  }

  /** Placing a job neither reads nor writes the semaphores. */
  lemma PlaceFrame(db: Db, t: Ticket, acquired: bool, now: Time, semaphores: map<string, Semaphore>, forgotten: set<string>)
    ensures Place(db.(semaphores := semaphores, forgotten := forgotten), t, acquired, now)
         == Place(db, t, acquired, now).(semaphores := semaphores, forgotten := forgotten)
    ensures Place(db, t, acquired, now).semaphores == db.semaphores
    ensures Place(db, t, acquired, now).forgotten == db.forgotten
    ensures Place(db, t, acquired, now).jobs.Keys == db.jobs.Keys
    ensures forall j :: j in db.jobs ==> Place(db, t, acquired, now).jobs[j].key == db.jobs[j].key
  {
    hide PlaceAs, OutcomeOf;
    if t.id in db.jobs {
      PlaceAsFrame(db, t.id, db.jobs[t.id], OutcomeOf(t.decision, acquired), now, semaphores, forgotten);
    }
  }

  lemma {:induction false} GroupIsRepeatedDispatch(db: Db, group: seq<Ticket>, d: Decision, now: Time)
    requires d.Contend? && forall t :: t in group ==> t.decision == d
    ensures var (after, granted) := AcquireSlots(db, d.key, |group|, d.policy.limit, d.policy.duration, now);
            PlaceGroup(after, group, granted, now) == DispatchAll(db, group, now)
    decreases |group|
  {
    if group == [] {
      assert forall key :: key in db.semaphores ==> db.semaphores[key := db.semaphores[key]] == db.semaphores;
    } else {
      assert group[0] in group;
      GroupHead(db, group[0], |group|, now);
      hide AcquireSlots, Place;
      GroupIsRepeatedDispatch(DispatchOne(db, group[0], now), group[1..], d, now);
    }
  }

  lemma {:induction false} BulkGroupsRefine(db: Db, ts: seq<Ticket>, now: Time)
    requires forall t :: t in ts ==> t.decision.Contend?
    ensures BulkGroups(db, ts, now) == DispatchAll(db, GroupOrder(ts), now)
    decreases |ts|
  {
    if ts != [] {
      var d := ts[0].decision;
      var group := Where(ts, SameDecision(d));
      var rest := Where(ts, OtherDecision(d));
      assert ts[0] in ts && |rest| < |ts|;
      GroupIsRepeatedDispatch(db, group, d, now);
      hide AcquireSlots, PlaceGroup, DispatchAll;
      BulkGroupsRefine(DispatchAll(db, group, now), rest, now);
      DispatchAllConcat(db, group, GroupOrder(rest), now);
    }
  }

  /** Bulk dispatch leaves the very database that single dispatches leave in group order. */
  lemma BulkIsSingleDispatchInGroupOrder(db: Db, ts: seq<Ticket>, now: Time)
    ensures Bulk(db, ts, now) == DispatchAll(db, DispatchOrder(ts), now)
  {
    hide DispatchAll, BulkGroups;
    var direct := Where(ts, Direct);
    BulkGroupsRefine(DispatchAll(db, direct, now), Where(ts, Contends), now);
    DispatchAllConcat(db, direct, GroupOrder(Where(ts, Contends)), now);
  }

  // ---------------------------------------------------------------- accounting

  /** The decision was made from the job's own columns. */
  predicate Fits(db: Db, t: Ticket) {
    && t.id in db.jobs
    && (t.decision.Immediately? ==> db.jobs[t.id].key == None)
    && (t.decision.Contend? ==> db.jobs[t.id].key == Some(t.decision.key))
  }

  predicate DistinctIds(ts: seq<Ticket>) {
    forall i, j :: 0 <= i < j < |ts| ==> ts[i].id != ts[j].id
  }

  lemma PlaceReadyGood(db: Db, t: Ticket, loose: set<JobId>, pending: multiset<string>, now: Time)
    requires Good(db, loose, pending) && t.id in loose && Fits(db, t)
    requires t.decision.Contend? ==> t.decision.key in pending
    requires !t.decision.Later?
    ensures Good(Place(db, t, true, now), loose - {t.id}, pending - KeyBag(db.jobs[t.id]))
  {
    hide Good;
    PutReadyGood(db, t.id, loose, pending);
  }

  lemma ContendGood(db: Db, t: Ticket, now: Time, loose: set<JobId>, pending: multiset<string>)
    requires Good(db, loose, pending) && t.id in loose && Fits(db, t) && t.decision.Contend?
    ensures Good(DispatchOne(db, t, now), loose - {t.id}, pending)
  {
    hide Good, Acquire;
    var (key, policy) := (t.decision.key, t.decision.policy);
    var (after, acquired) := AcquireSlot(db, key, policy.limit, policy.duration, now);
    assert after.jobs == db.jobs;
    AcquireSlotGood(db, key, policy.limit, policy.duration, now, loose, pending);
    hide AcquireSlot;
    if acquired {
      hide Place;
      PlaceReadyGood(after, t, loose, pending + multiset{key}, now);
      assert pending + multiset{key} - multiset{key} == pending;
    } else if policy.onConflict.Discard? {
      FinishGood(after, t.id, now, loose, pending);
    } else {
      var job := db.jobs[t.id];
      PutBlockedGood(after, t.id,
                     BlockedRow(0, job.backend, job.queue, job.priority, key, now + policy.duration), loose, pending);
    }
  }

  lemma DispatchOneGood(db: Db, t: Ticket, now: Time, loose: set<JobId>, pending: multiset<string>)
    requires Good(db, loose, pending) && t.id in loose && Fits(db, t)
    ensures Good(DispatchOne(db, t, now), loose - {t.id}, pending)
  {
    hide Good;
    match t.decision
    case Later =>
      var job := db.jobs[t.id];
      PutScheduledGood(db, t.id, if job.scheduledAt.Some? then job.scheduledAt.value else now, loose, pending);
    case Immediately =>
      PlaceReadyGood(db, t, loose, pending, now);
      assert pending - multiset{} == pending;
    case Contend(key, policy) =>
      hide DispatchOne;
      ContendGood(db, t, now, loose, pending);
  }

  lemma DispatchOneJobs(db: Db, t: Ticket, now: Time)
    ensures DispatchOne(db, t, now).jobs.Keys == db.jobs.Keys
    ensures forall id :: id in db.jobs ==> DispatchOne(db, t, now).jobs[id].key == db.jobs[id].key
  {
    hide Place;
    match t.decision
    case Contend(key, policy) =>
      var (after, acquired) := AcquireSlot(db, key, policy.limit, policy.duration, now);
      PlaceFrame(after, t, acquired, now, after.semaphores, after.forgotten);
    case _ =>
      PlaceFrame(db, t, true, now, db.semaphores, db.forgotten);
  }

  function Ids(ts: seq<Ticket>): set<JobId> {
    set t | t in ts :: t.id
  }

  lemma {:induction false} DispatchAllGood(
    db: Db, ts: seq<Ticket>, now: Time, loose: set<JobId>, pending: multiset<string>)
    requires Good(db, loose, pending) && DistinctIds(ts)
    requires forall t :: t in ts ==> t.id in loose && Fits(db, t)
    ensures Good(DispatchAll(db, ts, now), loose - Ids(ts), pending)
    ensures DispatchAll(db, ts, now).jobs.Keys == db.jobs.Keys
    decreases |ts|
  {
    hide Good, DispatchOne;
    if ts == [] {
      assert loose - Ids(ts) == loose;
    } else {
      var (t, rest) := (ts[0], ts[1..]);
      assert t in ts;
      DispatchOneGood(db, t, now, loose, pending);
      DispatchOneJobs(db, t, now);
      var db1 := DispatchOne(db, t, now);
      forall u | u in rest
        ensures u.id in loose - {t.id} && Fits(db1, u)
      {
        var i :| 0 <= i < |rest| && rest[i] == u;
        assert u == ts[i + 1] && u in ts;
      }
      DispatchAllGood(db1, rest, now, loose - {t.id}, pending);
      IdsSplit(ts, loose);
    }
  }

  lemma IdsSplit(ts: seq<Ticket>, loose: set<JobId>)
    requires ts != []
    ensures loose - {ts[0].id} - Ids(ts[1..]) == loose - Ids(ts)
  {
    assert forall t :: t in ts <==> t == ts[0] || t in ts[1..];
  }

  /** Distinct ids stay distinct in any order. */
  lemma DistinctByBag(xs: seq<Ticket>, ys: seq<Ticket>)
    requires multiset(xs) == multiset(ys) && DistinctIds(xs)
    ensures DistinctIds(ys)
    ensures forall t :: t in ys <==> t in xs
  {
    forall t
      ensures t in ys <==> t in xs
    {
      assert t in multiset(xs) <==> t in multiset(ys);
    }
    forall i, j | 0 <= i < j < |ys|
      ensures ys[i].id != ys[j].id
    {
      assert ys[i] in xs && ys[j] in xs;
      if ys[i] == ys[j] {
        TwiceInBag(ys, i, j);
        OnceInBag(xs, ys[i]);
      }
    }
  }

  lemma TwiceInBag(ys: seq<Ticket>, i: nat, j: nat)
    requires i < j < |ys| && ys[i] == ys[j]
    ensures multiset(ys)[ys[i]] >= 2
  {
    assert ys == ys[..i] + [ys[i]] + ys[i + 1..j] + [ys[j]] + ys[j + 1..];
  }

  lemma OnceInBag(xs: seq<Ticket>, t: Ticket)
    requires DistinctIds(xs) && t in xs
    ensures multiset(xs)[t] <= 1
  {
    var i :| 0 <= i < |xs| && xs[i] == t;
    assert xs == xs[..i] + [xs[i]] + xs[i + 1..];
    assert t !in xs[..i] && t !in xs[i + 1..];
    assert t !in multiset(xs[..i]) && t !in multiset(xs[i + 1..]);
  }

  lemma BulkGood(db: Db, ts: seq<Ticket>, now: Time, loose: set<JobId>, pending: multiset<string>)
    requires Good(db, loose, pending) && DistinctIds(ts)
    requires forall t :: t in ts ==> t.id in loose && Fits(db, t)
    ensures Good(Bulk(db, ts, now), loose - Ids(ts), pending)
    ensures Bulk(db, ts, now).jobs.Keys == db.jobs.Keys
  {
    hide Good, Bulk, DispatchAll;
    BulkIsSingleDispatchInGroupOrder(db, ts, now);
    WhereSplits(ts, Direct, Contends);
    var order := DispatchOrder(ts);
    DistinctByBag(ts, order);
    DispatchAllGood(db, order, now, loose, pending);
    assert Ids(order) == Ids(ts);
  }
}
