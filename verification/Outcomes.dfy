/**
 What each transaction does to the jobs it is about, and what it leaves alone: where every job is
 afterwards, said of the tables and not of the way they were reached.
 */
module Outcomes {
  import opened Results
  import opened Semaphores
  import opened Ordering
  import opened Grouping
  import opened Tables
  import opened Slots
  import opened SlotAccounting
  import opened Dispatch
  import opened Claiming
  import opened Lifecycle
  import opened LifecycleSafety

  // ---------------------------------------------------------------- releases promote and do nothing else

  /** Blocked jobs may have become ready; nothing else about any job has changed. */
  ghost predicate OnlyPromotes(a: Db, b: Db) {
    && b.jobs == a.jobs && b.claimed == a.claimed && b.failed == a.failed && b.scheduled == a.scheduled
    && b.processes == a.processes && b.pauses == a.pauses
    && (forall id :: id in a.ready ==> id in b.ready && b.ready[id] == a.ready[id])
    && (forall id :: id in b.ready ==> id in a.ready || id in a.blocked)
    && (forall id :: id in b.blocked ==> id in a.blocked)
    && (forall id :: id in a.blocked ==> id in b.blocked || id in b.ready)
  }

  lemma OnlyPromotesTransitive(a: Db, b: Db, c: Db)
    requires OnlyPromotes(a, b) && OnlyPromotes(b, c)
    ensures OnlyPromotes(a, c)
  {
  }

  lemma PromotePromotes(db: Db, backend: string, id: JobId)
    requires id in db.blocked && Promote(db, backend, id).Ok?
    ensures OnlyPromotes(db, Promote(db, backend, id).value)
    ensures id in Promote(db, backend, id).value.ready
  {
  }

  lemma RestorePromotes(db: Db, id: JobId)
    requires id in db.blocked && Restore(db, id).Ok?
    ensures OnlyPromotes(db, Restore(db, id).value)
  {
  }

  lemma SemaphoresOnly(a: Db, b: Db)
    requires b == a.(semaphores := b.semaphores, forgotten := b.forgotten)
    ensures OnlyPromotes(a, b)
  {
  }

  lemma UnblockNextPromotes(
    db: Db, cfg: Config, key: string, limit: Positive, duration: int, mode: HandoffMode, hidden: set<JobId>, now: Time)
    ensures var r := UnblockNext(db, cfg, key, limit, duration, mode, hidden, now);
            r.Ok? ==> OnlyPromotes(db, r.value.0)
  {
    hide OnlyPromotes, Promote, Restore;
    var waiting := Waiting(db, cfg.backend, key, hidden);
    if waiting == {} {
      SemaphoresOnly(db, db);
    } else {
      var id := Least(waiting).job;
      WaitingJob(db, cfg.backend, key, hidden, Least(waiting));
      hide Waiting;
      var (taken, acquired) := TakeForBlocked(db, key, limit, duration, mode, now);
      SemaphoresOnly(db, taken);
      if acquired && Promote(taken, cfg.backend, id).Ok? {
        PromotePromotes(taken, cfg.backend, id);
        OnlyPromotesTransitive(db, taken, Promote(taken, cfg.backend, id).value);
      } else if !acquired && Restore(taken, id).Ok? {
        RestorePromotes(taken, id);
        OnlyPromotesTransitive(db, taken, Restore(taken, id).value);
      }
    }
  }

  lemma ReleaseKeyPromotes(
    db: Db, cfg: Config, key: string, limit: Positive, duration: int, hidden: set<JobId>, now: Time)
    ensures var r := ReleaseKey(db, cfg, key, limit, duration, hidden, now);
            r.Ok? ==> OnlyPromotes(db, r.value)
  {
    hide OnlyPromotes, UnblockNext;
    UnblockNextPromotes(db, cfg, key, limit, duration, ReleaseClaimed, hidden, now);
    var first := UnblockNext(db, cfg, key, limit, duration, ReleaseClaimed, hidden, now);
    if first.Ok? && !first.value.1 {
      var released := ReleaseSemaphore(first.value.0, key, limit, duration, now);
      SemaphoresOnly(first.value.0, released);
      OnlyPromotesTransitive(db, first.value.0, released);
      hide ReleaseSemaphore;
      UnblockNextPromotes(released, cfg, key, limit, duration, ConsumeFreed, hidden, now);
      var second := UnblockNext(released, cfg, key, limit, duration, ConsumeFreed, hidden, now);
      if second.Ok? {
        OnlyPromotesTransitive(db, released, second.value.0);
      }
    }
  }

  lemma ReleaseSlotPromotes(db: Db, cfg: Config, tasks: Tasks, job: Job, hidden: set<JobId>, now: Time)
    ensures var r := ReleaseSlot(db, cfg, tasks, job, hidden, now);
            r.Ok? ==> OnlyPromotes(db, r.value)
  {
    hide ReleaseKey, OnlyPromotes;
    match job.key
    case None => SemaphoresOnly(db, db);
    case Some(key) =>
      var (limit, duration) := ReleaseSettings(db, cfg, tasks, job, key);
      ReleaseKeyPromotes(db, cfg, key, limit, duration, hidden, now);
  }

  lemma {:induction false} ReleaseSlotsPromotes(
    db: Db, cfg: Config, tasks: Tasks, jobs: seq<Job>, hidden: set<JobId>, now: Time)
    ensures var r := ReleaseSlots(db, cfg, tasks, jobs, hidden, now);
            r.Ok? ==> OnlyPromotes(db, r.value)
    decreases |jobs|
  {
    hide ReleaseSlot, OnlyPromotes;
    if jobs == [] {
      SemaphoresOnly(db, db);
    } else {
      ReleaseSlotPromotes(db, cfg, tasks, jobs[0], hidden, now);
      var first := ReleaseSlot(db, cfg, tasks, jobs[0], hidden, now);
      if first.Ok? {
        ReleaseSlotsPromotes(first.value, cfg, tasks, jobs[1..], hidden, now);
        var all := ReleaseSlots(db, cfg, tasks, jobs, hidden, now);
        if all.Ok? {
          OnlyPromotesTransitive(db, first.value, all.value);
        }
      }
    }
  }

  lemma {:induction false} PromoteAllPromotes(db: Db, backend: string, ids: seq<JobId>)
    ensures var r := PromoteAll(db, backend, ids);
            r.Ok? ==> OnlyPromotes(db, r.value)
    decreases |ids|
  {
    hide OnlyPromotes, Promote;
    if ids == [] {
      SemaphoresOnly(db, db);
    } else if ids[0] in db.blocked && Promote(db, backend, ids[0]).Ok? {
      PromotePromotes(db, backend, ids[0]);
      var first := Promote(db, backend, ids[0]).value;
      PromoteAllPromotes(first, backend, ids[1..]);
      var all := PromoteAll(first, backend, ids[1..]);
      if all.Ok? {
        OnlyPromotesTransitive(db, first, all.value);
      }
    }
  }

  lemma ReleaseGroupPromotes(
    db: Db, cfg: Config, key: string, count: nat, limit: Positive, duration: int, hidden: set<JobId>, now: Time)
    ensures var r := ReleaseGroupOf(db, cfg, key, count, limit, duration, hidden, now);
            r.Ok? ==> OnlyPromotes(db, r.value)
  {
    hide OnlyPromotes, PromoteAll, Take, Waiting;
    SemaphoresOnly(db, db);
    var rows := Jobs(Take(Waiting(db, cfg.backend, key, hidden), count));
    if key in db.semaphores {
      var promoted := Min(count, Min(Available(db.semaphores[key], limit, count), |rows|));
      var settled := SettleGroup(db, key, count, promoted, limit, duration, now);
      SemaphoresOnly(db, settled);
      PromoteAllPromotes(settled, cfg.backend, rows[..promoted]);
      var all := PromoteAll(settled, cfg.backend, rows[..promoted]);
      if all.Ok? {
        OnlyPromotesTransitive(db, settled, all.value);
      }
    }
  }

  lemma {:induction false} ReleaseRecoveredPromotes(
    db: Db, cfg: Config, tasks: Tasks, jobs: seq<Job>, leftover: seq<Job>, hidden: set<JobId>, now: Time)
    ensures var r := ReleaseRecovered(db, cfg, tasks, jobs, leftover, hidden, now);
            r.Ok? ==> OnlyPromotes(db, r.value.0)
    decreases |jobs|
  {
    hide OnlyPromotes, ReleaseGroupOf, GroupSettings, KeepJobs;
    if jobs == [] {
      SemaphoresOnly(db, db);
    } else if jobs[0].key.None? {
      ReleaseRecoveredPromotes(db, cfg, tasks, jobs[1..], leftover, hidden, now);
    } else {
      var key := jobs[0].key.value;
      var (group, rest) := (KeepJobs(jobs, key, true), KeepJobs(jobs[1..], key, false));
      match GroupSettings(db, cfg, tasks, group, key)
      case None => ReleaseRecoveredPromotes(db, cfg, tasks, rest, leftover + group, hidden, now);
      case Some(settings) =>
        ReleaseGroupPromotes(db, cfg, key, |group|, settings.0, settings.1, hidden, now);
        var released := ReleaseGroupOf(db, cfg, key, |group|, settings.0, settings.1, hidden, now);
        if released.Ok? {
          ReleaseRecoveredPromotes(released.value, cfg, tasks, rest, leftover, hidden, now);
          var all := ReleaseRecovered(released.value, cfg, tasks, rest, leftover, hidden, now);
          if all.Ok? {
            OnlyPromotesTransitive(db, released.value, all.value.0);
          }
        }
    }
  }

  // ---------------------------------------------------------------- complete and fail

  /** The claim is gone, its job finished now or deleted; other jobs stay put, or wait no longer. */
  lemma CompleteOutcome(db: Db, cfg: Config, tasks: Tasks, id: JobId, hidden: set<JobId>, now: Time)
    requires CompleteClaimed(db, cfg, tasks, id, hidden, now).Ok?
    ensures var after := CompleteClaimed(db, cfg, tasks, id, hidden, now).value;
            && id in db.claimed && id in db.jobs
            && after.claimed == db.claimed - {id}
            && (if cfg.preserveFinished then after.jobs == db.jobs[id := db.jobs[id].(finishedAt := Some(now))]
                else after.jobs == db.jobs - {id})
            && OnlyPromotes(db, after.(jobs := db.jobs, claimed := db.claimed))
  {
    hide ReleaseSlot, Live, OnlyPromotes;
    var evicted := Evict(db, Claimed, id);
    var done := if cfg.preserveFinished then SetFinished(evicted, id, Some(now)) else DeleteJob(evicted, id);
    ReleaseSlotPromotes(done, cfg, tasks, db.jobs[id], hidden, now);
    PromotesElsewhere(db, done, ReleaseSlot(done, cfg, tasks, db.jobs[id], hidden, now).value);
  }

  lemma PromotesElsewhere(db: Db, done: Db, after: Db)
    requires OnlyPromotes(done, after)
    requires done.ready == db.ready && done.blocked == db.blocked && done.scheduled == db.scheduled
    requires done.processes == db.processes && done.pauses == db.pauses
    ensures after.jobs == done.jobs && after.claimed == done.claimed && after.failed == done.failed
    ensures OnlyPromotes(db, after.(jobs := db.jobs, claimed := db.claimed, failed := db.failed))
    ensures done.failed == db.failed ==> OnlyPromotes(db, after.(jobs := db.jobs, claimed := db.claimed))
  {
  }

  /** The claim is gone and its job has failed now, with no retry scheduled. */
  lemma FailOutcome(db: Db, cfg: Config, tasks: Tasks, id: JobId, hidden: set<JobId>, now: Time)
    requires FailClaimed(db, cfg, tasks, id, hidden, now).Ok?
    ensures var after := FailClaimed(db, cfg, tasks, id, hidden, now).value;
            && id in db.claimed && after.claimed == db.claimed - {id} && after.jobs == db.jobs
            && after.failed == db.failed[id := FailedRow(db.nextPk, now, None)]
            && OnlyPromotes(db, after.(jobs := db.jobs, claimed := db.claimed, failed := db.failed))
  {
    hide ReleaseSlot, Live, OnlyPromotes;
    var failed := PutFailed(Evict(db, Claimed, id), id, now);
    ReleaseSlotPromotes(failed, cfg, tasks, db.jobs[id], hidden, now);
    PromotesElsewhere(db, failed, ReleaseSlot(failed, cfg, tasks, db.jobs[id], hidden, now).value);
  }

  // ---------------------------------------------------------------- claim

  /** The jobs `ids` have moved from ready to claimed, to the process, and nothing else has moved. */
  ghost predicate HaveMoved(a: Db, b: Db, ids: set<JobId>, process: Option<ProcessId>) {
    && b == a.(ready := a.ready - ids, claimed := b.claimed, nextPk := b.nextPk)
    && b.claimed.Keys == a.claimed.Keys + ids
    && (forall id :: id in ids ==> b.claimed[id].process == process)
    && (forall id :: id in a.claimed && id !in ids ==> b.claimed[id] == a.claimed[id])
  }

  lemma ClaimOneMoves(db: Db, id: JobId, process: Option<ProcessId>)
    ensures HaveMoved(db, PutClaimed(Evict(db, Ready, id), id, process), {id}, process)
  {
  }

  lemma ClaimedBoth(a: Db, b: Db, c: Db, id: JobId, ids: set<JobId>, process: Option<ProcessId>)
    requires HaveMoved(a, b, {id}, process) && HaveMoved(b, c, ids, process)
    ensures HaveMoved(a, c, {id} + ids, process)
  {
    assert a.ready - {id} - ids == a.ready - ({id} + ids);
  }

  lemma {:induction false} ClaimAllMoves(db: Db, ids: seq<JobId>, process: Option<ProcessId>)
    ensures HaveMoved(db, ClaimAll(db, ids, process), Members(ids), process)
    decreases |ids|
  {
    if ids == [] {
      assert db.ready - Members(ids) == db.ready;
    } else {
      hide HaveMoved, PutClaimed, Evict;
      var first := PutClaimed(Evict(db, Ready, ids[0]), ids[0], process);
      ClaimOneMoves(db, ids[0], process);
      ClaimAllMoves(first, ids[1..], process);
      ClaimedBoth(db, first, ClaimAll(first, ids[1..], process), ids[0], Members(ids[1..]), process);
      assert {ids[0]} + Members(ids[1..]) == Members(ids) by {
        assert forall j :: j in ids <==> j == ids[0] || j in ids[1..];
      }
    }
  }

  /** Exactly the selected jobs move from ready to claimed, to the claiming process. */
  lemma ClaimOutcome(
    db: Db, cfg: Config, queues: Queues, limit: nat, process: Option<ProcessId>, hidden: set<JobId>, paused: set<string>)
    requires Claim(db, cfg, queues, limit, process, hidden, paused).Ok?
    ensures HaveMoved(db, Claim(db, cfg, queues, limit, process, hidden, paused).value,
                    Members(ClaimedIds(db, cfg, queues, limit, hidden, paused)), process)
  {
    hide ClaimAll, Query, CheckSelected, Where, HaveMoved;
    ClaimAllMoves(db, ClaimedIds(db, cfg, queues, limit, hidden, paused), process);
  }

  // ---------------------------------------------------------------- dispatch

  /** Where a decided job has gone. */
  ghost predicate Landed(db: Db, t: Ticket, now: Time) {
    && t.id in db.jobs
    && match t.decision
       case Later => t.id in db.scheduled
       case Immediately => t.id in db.ready
       case Contend(key, policy) =>
         || t.id in db.ready
         || (policy.onConflict.Block? && t.id in db.blocked && db.blocked[t.id].key == key
             && db.blocked[t.id].expiresAt == now + policy.duration)
         || (policy.onConflict.Discard? && db.jobs[t.id].finishedAt == Some(now))
  }

  /** Neither the job nor any of its rows has changed. */
  ghost predicate SameFor(a: Db, b: Db, j: JobId) {
    && (j in a.jobs <==> j in b.jobs) && (j in a.jobs ==> b.jobs[j] == a.jobs[j])
    && (j in a.ready <==> j in b.ready) && (j in a.ready ==> b.ready[j] == a.ready[j])
    && (j in a.scheduled <==> j in b.scheduled) && (j in a.scheduled ==> b.scheduled[j] == a.scheduled[j])
    && (j in a.blocked <==> j in b.blocked) && (j in a.blocked ==> b.blocked[j] == a.blocked[j])
    && b.claimed == a.claimed && b.failed == a.failed
  }

  lemma PlaceAsTouchesOne(db: Db, id: JobId, job: Job, outcome: Outcome, now: Time, j: JobId)
    requires id in db.jobs && j != id
    ensures SameFor(db, PlaceAs(db, id, job, outcome, now), j)
  {
    match outcome
    case ToScheduled =>
    case ToReady =>
    case ToBlocked(_, _) =>
    case ToDiscard =>
  }

  lemma PlaceAsLands(db: Db, id: JobId, job: Job, outcome: Outcome, now: Time)
    requires id in db.jobs
    ensures var after := PlaceAs(db, id, job, outcome, now);
            && id in after.jobs
            && match outcome
               case ToScheduled => id in after.scheduled
               case ToReady => id in after.ready
               case ToBlocked(key, duration) =>
                 id in after.blocked && after.blocked[id].key == key && after.blocked[id].expiresAt == now + duration
               case ToDiscard => after.jobs[id].finishedAt == Some(now)
  {
  }

  lemma PlaceLands(db: Db, t: Ticket, acquired: bool, now: Time)
    requires t.id in db.jobs && (acquired || t.decision.Contend?)
    ensures Landed(Place(db, t, acquired, now), t, now)
  {
    hide PlaceAs;
    PlaceAsLands(db, t.id, db.jobs[t.id], OutcomeOf(t.decision, acquired), now);
  }

  lemma DispatchLands(db: Db, t: Ticket, now: Time)
    requires t.id in db.jobs
    ensures Landed(DispatchOne(db, t, now), t, now)
  {
    hide Place, Landed, Acquire;
    match t.decision
    case Contend(key, policy) =>
      var (after, acquired) := AcquireSlot(db, key, policy.limit, policy.duration, now);
      assert after.jobs == db.jobs;
      hide AcquireSlot;
      PlaceLands(after, t, acquired, now);
    case _ => PlaceLands(db, t, true, now);
  }

  /** A dispatch moves its own job only. */
  lemma DispatchTouchesOne(db: Db, t: Ticket, now: Time, j: JobId)
    requires t.id in db.jobs && j != t.id
    ensures SameFor(db, DispatchOne(db, t, now), j)
  {
    hide PlaceAs, OutcomeOf, Acquire;
    match t.decision
    case Contend(key, policy) =>
      var (after, acquired) := AcquireSlot(db, key, policy.limit, policy.duration, now);
      PlaceAsTouchesOne(after, t.id, db.jobs[t.id], OutcomeOf(t.decision, acquired), now, j);
    case _ => PlaceAsTouchesOne(db, t.id, db.jobs[t.id], OutcomeOf(t.decision, true), now, j);
  }

  lemma LandedStays(a: Db, b: Db, t: Ticket, now: Time)
    requires Landed(a, t, now) && SameFor(a, b, t.id)
    ensures Landed(b, t, now)
  {
  }

  lemma {:induction false} DispatchAllKeepsLanded(db: Db, ts: seq<Ticket>, now: Time, t: Ticket)
    requires Landed(db, t, now) && forall u :: u in ts ==> u.id in db.jobs && u.id != t.id
    ensures Landed(DispatchAll(db, ts, now), t, now)
    decreases |ts|
  {
    hide Landed, DispatchOne, SameFor;
    if ts != [] {
      assert ts[0] in ts;
      DispatchTouchesOne(db, ts[0], now, t.id);
      DispatchOneJobs(db, ts[0], now);
      LandedStays(db, DispatchOne(db, ts[0], now), t, now);
      DispatchAllKeepsLanded(DispatchOne(db, ts[0], now), ts[1..], now, t);
    }
  }

  lemma {:induction false} DispatchAllLands(db: Db, ts: seq<Ticket>, now: Time)
    requires DistinctIds(ts) && forall t :: t in ts ==> t.id in db.jobs
    ensures forall t :: t in ts ==> Landed(DispatchAll(db, ts, now), t, now)
    decreases |ts|
  {
    hide Landed, DispatchOne, SameFor;
    if ts != [] {
      var (t, rest) := (ts[0], ts[1..]);
      assert t in ts;
      DispatchLands(db, t, now);
      DispatchOneJobs(db, t, now);
      var first := DispatchOne(db, t, now);
      forall u | u in rest
        ensures u.id in first.jobs && u.id != t.id
      {
        var i :| 0 <= i < |rest| && rest[i] == u;
        assert u == ts[i + 1] && u in ts;
      }
      DispatchAllLands(first, rest, now);
      DispatchAllKeepsLanded(first, rest, now, t);
      assert forall u :: u in ts ==> u == t || u in rest;
    }
  }

  /** Bulk dispatch puts every job where its decision sends it. */
  lemma BulkLands(db: Db, ts: seq<Ticket>, now: Time)
    requires DistinctIds(ts) && forall t :: t in ts ==> t.id in db.jobs
    ensures forall t :: t in ts ==> Landed(Bulk(db, ts, now), t, now)
  {
    hide Landed, Bulk, DispatchAll;
    BulkIsSingleDispatchInGroupOrder(db, ts, now);
    WhereSplits(ts, Direct, Contends);
    var order := DispatchOrder(ts);
    DistinctByBag(ts, order);
    DispatchAllLands(db, order, now);
  }

  /** A slot is granted exactly when fewer slots are in use than the offered limit. */
  lemma GrantedIff(db: Db, key: string, limit: Positive, duration: int, now: Time)
    requires key in db.semaphores ==> WellFormed(db.semaphores[key])
    ensures AcquireSlot(db, key, limit, duration, now).1 <==> Tables.Slots(db, key) < limit
  {
  }

  /** What a refused contender becomes. */
  ghost predicate RefusedAs(after: Db, id: JobId, key: string, policy: Policy, now: Time) {
    id in after.jobs
    && if policy.onConflict.Discard? then
         after.jobs[id].finishedAt == Some(now)
       else
         id in after.blocked && after.blocked[id].key == key && after.blocked[id].expiresAt == now + policy.duration
  }

  lemma ContenderPlaced(db: Db, id: JobId, job: Job, key: string, policy: Policy, acquired: bool, now: Time)
    requires id in db.jobs && id !in db.ready
    ensures var after := PlaceAs(db, id, job, OutcomeOf(Contend(key, policy), acquired), now);
            (id in after.ready <==> acquired) && (!acquired ==> RefusedAs(after, id, key, policy, now))
  {
    var outcome := OutcomeOf(Contend(key, policy), acquired);
    PlaceAsLands(db, id, job, outcome, now);
    hide PlaceAs;
    if !outcome.ToReady? {
      PlaceAsReady(db, id, job, outcome, now);
    }
  }

  lemma PlaceAsReady(db: Db, id: JobId, job: Job, outcome: Outcome, now: Time)
    requires id in db.jobs && !outcome.ToReady?
    ensures PlaceAs(db, id, job, outcome, now).ready == db.ready
  {
  }

  /** A contending job without any row becomes ready exactly when it is granted a slot, else blocked or finished. */
  lemma ContenderOutcome(db: Db, id: JobId, key: string, policy: Policy, now: Time)
    requires id in db.jobs && id !in db.ready
    ensures var after := DispatchOne(db, Ticket(id, Contend(key, policy)), now);
            && (id in after.ready <==> AcquireSlot(db, key, policy.limit, policy.duration, now).1)
            && (id !in after.ready ==> RefusedAs(after, id, key, policy, now))
  {
    hide Acquire, PlaceAs, RefusedAs, OutcomeOf;
    var (taken, acquired) := AcquireSlot(db, key, policy.limit, policy.duration, now);
    assert taken.jobs == db.jobs && taken.ready == db.ready;
    hide AcquireSlot;
    ContenderPlaced(taken, id, db.jobs[id], key, policy, acquired, now);
  }

  /** A job that contends for no slot. */
  lemma DirectOutcome(db: Db, id: JobId, now: Time)
    requires id in db.jobs
    ensures var after := DispatchOne(db, Ticket(id, Later), now);
            && id in after.scheduled
            && (db.jobs[id].scheduledAt.Some? ==> after.scheduled[id].scheduledAt == db.jobs[id].scheduledAt.value)
    ensures var after := DispatchOne(db, Ticket(id, Immediately), now);
            && id in after.ready && after.ready[id].queue == db.jobs[id].queue
            && after.ready[id].priority == db.jobs[id].priority
  {
  }

  /** Where a new job must be, told from the submission and the slots in use before. */
  ghost predicate EnqueuedAs(db: Db, after: Db, id: JobId, s: Submission, now: Time) {
    && after.jobs.Keys == db.jobs.Keys + {id}
    && if s.runAfter.Some? && s.runAfter.value > now then
         id in after.scheduled && after.scheduled[id].scheduledAt == s.runAfter.value
       else if s.contention.None? then
         id in after.ready && after.ready[id].queue == s.queue && after.ready[id].priority == s.priority
       else
         var (key, policy) := s.contention.value;
         && (key !in db.forgotten ==> (id in after.ready <==> |Holders(db, key)| < policy.limit))
         && (id !in after.ready ==> RefusedAs(after, id, key, policy, now))
  }

  /** The decision for a new job: it carries its policy with it. */
  function DecisionFor(s: Submission, now: Time): Decision {
    if s.runAfter.Some? && s.runAfter.value > now then Later
    else if s.contention.None? then Immediately
    else Contend(s.contention.value.0, s.contention.value.1)
  }

  lemma EnqueueIsDispatch(db: Db, cfg: Config, tasks: Tasks, id: JobId, s: Submission, now: Time)
    requires id !in db.jobs
    ensures Enqueue(db, cfg, tasks, id, s, now)
         == Ok(DispatchOne(InsertJob(db, id, NewJob(cfg, s)), Ticket(id, DecisionFor(s, now)), now))
  {
    hide DispatchOne;
  }

  lemma DispatchedAs(db: Db, inserted: Db, id: JobId, s: Submission, now: Time)
    requires Valid(db) && id !in inserted.ready
    requires inserted.semaphores == db.semaphores && inserted.jobs.Keys == db.jobs.Keys + {id}
    requires inserted.jobs[id].scheduledAt == s.runAfter && inserted.jobs[id].queue == s.queue
    requires inserted.jobs[id].priority == s.priority
    ensures EnqueuedAs(db, DispatchOne(inserted, Ticket(id, DecisionFor(s, now)), now), id, s, now)
  {
    hide Good, DispatchOne, AcquireSlot, RefusedAs;
    DispatchOneJobs(inserted, Ticket(id, DecisionFor(s, now)), now);
    match DecisionFor(s, now)
    case Contend(key, policy) =>
      ContenderOutcome(inserted, id, key, policy, now);
      if key !in db.forgotten {
        SlotForNewcomer(db, inserted, key, policy.limit, policy.duration, now);
      }
    case _ => DirectOutcome(inserted, id, now);
  }

  /**
   An enqueued job is scheduled when it is for later, ready when it contends for no slot, and otherwise
   ready exactly when fewer jobs hold slots of its key than its limit allows.
   */
  lemma EnqueueOutcome(db: Db, cfg: Config, tasks: Tasks, id: JobId, s: Submission, now: Time)
    requires Valid(db) && id !in db.jobs
    ensures var r := Enqueue(db, cfg, tasks, id, s, now);
            r.Ok? && EnqueuedAs(db, r.value, id, s, now)
  {
    assert id !in db.ready by {
      InsertOneState(db, id, NewJob(cfg, s), {});
    }
    hide Good, Enqueue, DispatchOne, EnqueuedAs;
    EnqueueIsDispatch(db, cfg, tasks, id, s, now);
    DispatchedAs(db, InsertJob(db, id, NewJob(cfg, s)), id, s, now);
  }

  lemma SlotForNewcomer(db: Db, inserted: Db, key: string, limit: Positive, duration: int, now: Time)
    requires Valid(db) && inserted.semaphores == db.semaphores && key !in db.forgotten
    ensures AcquireSlot(inserted, key, limit, duration, now).1 <==> |Holders(db, key)| < limit
  {
    GoodSemaphore(db, {}, multiset{}, key);
    hide Good;
    GrantedIff(inserted, key, limit, duration, now);
  }

  // ---------------------------------------------------------------- batches consumed and dispatched again

  function Dropped(db: Db, table: Table, ids: set<JobId>): Db {
    match table
    case Ready => db.(ready := db.ready - ids)
    case Scheduled => db.(scheduled := db.scheduled - ids)
    case Claimed => db.(claimed := db.claimed - ids)
    case Blocked => db.(blocked := db.blocked - ids)
    case Failed => db.(failed := db.failed - ids)
  }

  lemma DroppedTwice(db: Db, table: Table, id: JobId, ids: set<JobId>)
    ensures Dropped(Evict(db, table, id), table, ids) == Dropped(db, table, {id} + ids)
    ensures Dropped(db, table, {}) == db
  {
    match table
    case Ready => assert db.ready - {id} - ids == db.ready - ({id} + ids) && db.ready - {} == db.ready;
    case Scheduled => assert db.scheduled - {id} - ids == db.scheduled - ({id} + ids) && db.scheduled - {} == db.scheduled;
    case Claimed => assert db.claimed - {id} - ids == db.claimed - ({id} + ids) && db.claimed - {} == db.claimed;
    case Blocked => assert db.blocked - {id} - ids == db.blocked - ({id} + ids) && db.blocked - {} == db.blocked;
    case Failed => assert db.failed - {id} - ids == db.failed - ({id} + ids) && db.failed - {} == db.failed;
  }

  /** Consuming rows one by one drops them from their table and touches no other. */
  lemma {:induction false} EvictAllIs(db: Db, table: Table, ids: seq<JobId>)
    ensures EvictAll(db, table, ids) == Dropped(db, table, Members(ids))
    decreases |ids|
  {
    hide Evict, Dropped;
    if ids == [] {
      assert Members(ids) == {};
      DroppedTwice(db, table, 0, {});
    } else {
      EvictAllIs(Evict(db, table, ids[0]), table, ids[1..]);
      DroppedTwice(db, table, ids[0], Members(ids[1..]));
      assert Members(ids) == {ids[0]} + Members(ids[1..]) by {
        assert forall j :: j in ids <==> j == ids[0] || j in ids[1..];
      }
    }
  }

  lemma {:induction false} FailAllIs(db: Db, ids: seq<JobId>, now: Time)
    requires Distinct(ids)
    ensures var after := FailAll(db, ids, now);
            && after == db.(failed := after.failed, nextPk := after.nextPk)
            && after.failed.Keys == db.failed.Keys + Members(ids)
            && (forall id :: id in ids ==> id in after.failed && after.failed[id].createdAt == now && after.failed[id].retryAt == None)
            && (forall id :: id in db.failed && id !in ids ==> after.failed[id] == db.failed[id])
    decreases |ids|
  {
    if ids != [] {
      FailAllIs(PutFailed(db, ids[0], now), ids[1..], now);
      assert forall j :: j in ids <==> j == ids[0] || j in ids[1..];
      assert ids[0] !in ids[1..];
    }
  }

  lemma LandedAfterFailures(db: Db, ids: seq<JobId>, now: Time, t: Ticket)
    requires Landed(db, t, now) && Distinct(ids)
    ensures Landed(FailAll(db, ids, now), t, now)
  {
    FailAllIs(db, ids, now);
  }

  /** Every job dispatched again is where its decision sends it, or failed when it cannot be decided. */
  lemma RedispatchOutcome(db: Db, tasks: Tasks, ids: seq<JobId>, isolate: bool, now: Time)
    requires Redispatch(db, tasks, ids, isolate, now).Ok? && Distinct(ids) && forall id :: id in ids ==> id in db.jobs
    ensures var after := Redispatch(db, tasks, ids, isolate, now).value;
            && (forall t :: t in Tickets(db, tasks, ids, now) ==> Landed(after, t, now))
            && (forall id :: id in ids && Undecidable(db, tasks, id, now) ==>
                  isolate && id in after.failed && after.failed[id].createdAt == now)
            && (forall id :: id in ids && !Undecidable(db, tasks, id, now) ==> id in Ids(Tickets(db, tasks, ids, now)))
  {
    hide Bulk, FailAll, Landed, Tickets, Live, Decide;
    var ts := Tickets(db, tasks, ids, now);
    TicketsFit(db, tasks, ids, now);
    BulkLands(db, ts, now);
    var undecidable := (id: JobId) => Undecidable(db, tasks, id, now);
    var failures := Where(ids, undecidable);
    KeepDistinct(ids, undecidable);
    var dispatched := Bulk(db, ts, now);
    FailAllIs(dispatched, failures, now);
    forall t | t in ts
      ensures Landed(FailAll(dispatched, failures, now), t, now)
    {
      LandedAfterFailures(dispatched, failures, now, t);
    }
  }

  // ---------------------------------------------------------------- recovery and discards

  /** All claims of the batch are gone and all their jobs have failed now; other claims and failures stay. */
  lemma FailClaimedBatchOutcome(db: Db, cfg: Config, tasks: Tasks, ids: seq<JobId>, hidden: set<JobId>, now: Time)
    requires FailClaimedBatch(db, cfg, tasks, ids, hidden, now).Ok?
    ensures var after := FailClaimedBatch(db, cfg, tasks, ids, hidden, now).value;
            && after.jobs == db.jobs && after.claimed == db.claimed - Members(ids)
            && after.failed.Keys == db.failed.Keys + Members(ids)
            && (forall id :: id in ids ==> id in db.claimed && id in after.failed && after.failed[id].createdAt == now)
            && (forall id :: id in db.failed && id !in ids ==> id in after.failed && after.failed[id] == db.failed[id])
            && OnlyPromotes(db, after.(claimed := db.claimed, failed := db.failed))
  {
    hide EvictAll, FailAll, ReleaseRecovered, ReleaseSlots, Live, OnlyPromotes, Where;
    var evicted := EvictAll(db, Claimed, ids);
    EvictAllIs(db, Claimed, ids);
    FailAllIs(evicted, ids, now);
    var failed := FailAll(evicted, ids, now);
    var keyed := Where(JobsOf(db, ids), HasKey);
    ReleaseRecoveredPromotes(failed, cfg, tasks, keyed, [], hidden, now);
    var (recovered, leftover) := ReleaseRecovered(failed, cfg, tasks, keyed, [], hidden, now).value;
    ReleaseSlotsPromotes(recovered, cfg, tasks, leftover, hidden, now);
    var after := ReleaseSlots(recovered, cfg, tasks, leftover, hidden, now).value;
    OnlyPromotesTransitive(failed, recovered, after);
    PromotesElsewhere(db, failed, after);
    assert after.(jobs := db.jobs, claimed := db.claimed, failed := db.failed)
        == after.(claimed := db.claimed, failed := db.failed);
  }

  lemma {:induction false} DeleteAllIs(db: Db, ids: seq<JobId>)
    ensures DeleteAll(db, ids) == db.(jobs := db.jobs - Members(ids))
    decreases |ids|
  {
    if ids == [] {
      assert db.jobs - Members(ids) == db.jobs;
    } else {
      DeleteAllIs(DeleteJob(db, ids[0]), ids[1..]);
      assert forall j :: j in ids <==> j == ids[0] || j in ids[1..];
      assert db.jobs - {ids[0]} - Members(ids[1..]) == db.jobs - Members(ids);
    }
  }

  /** Exactly the selected jobs are gone, with their rows; discarded ready jobs may let blocked ones become ready. */
  lemma DiscardOutcome(
    db: Db, cfg: Config, tasks: Tasks, table: Table, only: Option<set<JobId>>, queue: Option<string>, batch: nat,
    hidden: set<JobId>, now: Time)
    requires DiscardRows(db, cfg, tasks, table, only, queue, batch, hidden, now).Ok?
    ensures var after := DiscardRows(db, cfg, tasks, table, only, queue, batch, hidden, now).value;
            var ids := DiscardIds(db, cfg, table, only, queue, batch, hidden);
            && after.jobs == db.jobs - Members(ids)
            && (if table.Ready? then OnlyPromotes(db.(jobs := after.jobs, ready := db.ready - Members(ids)), after)
                else after == Dropped(db, table, Members(ids)).(jobs := after.jobs))
  {
    hide EvictAll, DeleteAll, ReleaseSlots, Live, DiscardIds, OnlyPromotes;
    var ids := DiscardIds(db, cfg, table, only, queue, batch, hidden);
    var evicted := EvictAll(db, table, ids);
    EvictAllIs(db, table, ids);
    DeleteAllIs(evicted, ids);
    if table.Ready? {
      var deleted := DeleteAll(evicted, ids);
      ReleaseSlotsPromotes(deleted, cfg, tasks, JobsOf(db, ids), hidden, now);
      var after := ReleaseSlots(deleted, cfg, tasks, JobsOf(db, ids), hidden, now).value;
      assert after.jobs == deleted.jobs by {
        SameJobsOf(deleted, after);
      }
    }
  }

  lemma SameJobsOf(a: Db, b: Db)
    requires OnlyPromotes(a, b)
    ensures b.jobs == a.jobs
  {
  }

  // ---------------------------------------------------------------- expired blocked rows

  /** Failed without a policy; ready when fewer slots are in use than the limit; else blocked until later. */
  ghost predicate ExpiredAs(db: Db, after: Db, tasks: Tasks, id: JobId, key: string, now: Time)
    requires id in db.jobs
  {
    match Settings(db.jobs[id], tasks)
    case Err(_) => id in after.failed && after.failed[id].createdAt == now
    case Ok(policy) =>
      if Tables.Slots(db, key) < policy.limit then id in after.ready
      else id in after.blocked && after.blocked[id].expiresAt == now + policy.duration
  }

  lemma ExpireOutcome(db: Db, tasks: Tasks, id: JobId, row: BlockedRow, consumed: bool, now: Time)
    requires row.key in db.semaphores ==> WellFormed(db.semaphores[row.key])
    requires ExpireOne(db, tasks, id, row, consumed, now).Ok?
    ensures id in db.jobs && ExpiredAs(db, ExpireOne(db, tasks, id, row, consumed, now).value, tasks, id, row.key, now)
  {
    hide Live, Settings;
    if Settings(db.jobs[id], tasks).Ok? {
      var p := Settings(db.jobs[id], tasks).value;
      GrantedIff(db, row.key, p.limit, p.duration, now);
      hide Tables.Slots, Acquire;
    }
  }

  // ---------------------------------------------------------------- selections

  /** A batch takes the first rows by its columns, and all rows when they fit. */
  lemma BatchIsFirst(ids: set<JobId>, columns: JobId -> Entry, k: nat, x: JobId, y: JobId)
    requires x in ids && y in ids
    ensures var batch := Batch(ids, columns, k);
            && (|batch| < k ==> x in batch)
            && (x in batch && y !in batch ==> Before(columns(x).(job := x), columns(y).(job := y)))
  {
    var all := set id | id in ids :: columns(id).(job := id);
    var es := Take(all, k);
    var (ex, ey) := (columns(x).(job := x), columns(y).(job := y));
    assert ex in all && ey in all;
    if ex in es {
      var i :| 0 <= i < |es| && es[i] == ex;
      assert Jobs(es)[i] == x;
    }
    if ey in es {
      var i :| 0 <= i < |es| && es[i] == ey;
      assert Jobs(es)[i] == y;
    }
    if x in Jobs(es) {
      var i :| 0 <= i < |es| && es[i].job == x;
      assert es[i] in es && es[i] == ex;
    }
  }

  /** The tickets are the decisions of jobs among `ids`. */
  lemma {:induction false} TicketsDecided(db: Db, tasks: Tasks, ids: seq<JobId>, now: Time)
    ensures forall t :: t in Tickets(db, tasks, ids, now) ==>
              t.id in ids && t.id in db.jobs && Decide(db.jobs[t.id], tasks, now) == Ok(t.decision)
    decreases |ids|
  {
    hide Decide;
    if ids != [] {
      TicketsDecided(db, tasks, ids[1..], now);
    }
  }

  lemma PlaceAsElsewhere(db: Db, id: JobId, job: Job, outcome: Outcome, now: Time)
    requires id in db.jobs && !outcome.ToScheduled?
    ensures PlaceAs(db, id, job, outcome, now).scheduled == db.scheduled
  {
  }

  lemma DispatchOneScheduled(db: Db, t: Ticket, now: Time, j: JobId)
    requires t.id in db.jobs && (t.id == j ==> !t.decision.Later?)
    ensures var after := DispatchOne(db, t, now);
            (j in after.scheduled <==> j in db.scheduled) && (j in db.scheduled ==> after.scheduled[j] == db.scheduled[j])
  {
    if t.id != j {
      DispatchTouchesOne(db, t, now, j);
      hide DispatchOne;
    } else {
      hide PlaceAs, Acquire;
      match t.decision
      case Contend(key, policy) =>
        var (after, acquired) := AcquireSlot(db, key, policy.limit, policy.duration, now);
        PlaceAsElsewhere(after, t.id, db.jobs[t.id], OutcomeOf(t.decision, acquired), now);
      case Immediately => PlaceAsElsewhere(db, t.id, db.jobs[t.id], ToReady, now);
      case Later =>
    }
  }

  /** Only a ticket that sends its job back there touches the scheduled table. */
  lemma {:induction false} DispatchAllScheduled(db: Db, ts: seq<Ticket>, now: Time, j: JobId)
    requires forall t :: t in ts ==> t.id in db.jobs && (t.id == j ==> !t.decision.Later?)
    ensures var after := DispatchAll(db, ts, now);
            (j in after.scheduled <==> j in db.scheduled) && (j in db.scheduled ==> after.scheduled[j] == db.scheduled[j])
    decreases |ts|
  {
    hide DispatchOne;
    if ts != [] {
      assert ts[0] in ts;
      DispatchOneScheduled(db, ts[0], now, j);
      DispatchOneJobs(db, ts[0], now);
      assert forall t :: t in ts[1..] ==> t in ts;
      DispatchAllScheduled(DispatchOne(db, ts[0], now), ts[1..], now, j);
    }
  }

  lemma BulkScheduled(db: Db, ts: seq<Ticket>, now: Time, j: JobId)
    requires forall t :: t in ts ==> t.id in db.jobs && (t.id == j ==> !t.decision.Later?)
    ensures var after := Bulk(db, ts, now);
            (j in after.scheduled <==> j in db.scheduled) && (j in db.scheduled ==> after.scheduled[j] == db.scheduled[j])
  {
    hide Bulk, DispatchAll;
    BulkIsSingleDispatchInGroupOrder(db, ts, now);
    WhereSplits(ts, Direct, Contends);
    var order := DispatchOrder(ts);
    assert multiset(order) == multiset(ts);
    forall t | t in order
      ensures t in ts
    {
      assert t in multiset(order);
    }
    DispatchAllScheduled(db, order, now, j);
  }

  /** The job was given a later date than its row says. */
  predicate Postponed(db: Db, id: JobId, now: Time) {
    id in db.jobs && db.jobs[id].scheduledAt.Some? && db.jobs[id].scheduledAt.value > now
  }

  lemma DecidedNow(db: Db, tasks: Tasks, t: Ticket, now: Time)
    requires t.id in db.jobs && Decide(db.jobs[t.id], tasks, now) == Ok(t.decision) && !Postponed(db, t.id, now)
    ensures !t.decision.Later?
  {
    hide Settings;
  }

  /** Dispatching again schedules only postponed jobs, and never touches another scheduled row. */
  lemma RedispatchScheduled(db: Db, tasks: Tasks, ids: seq<JobId>, now: Time, j: JobId)
    requires Redispatch(db, tasks, ids, true, now).Ok? && Distinct(ids) && (j in ids ==> !Postponed(db, j, now))
    ensures var after := Redispatch(db, tasks, ids, true, now).value;
            (j in after.scheduled <==> j in db.scheduled) && (j in db.scheduled ==> after.scheduled[j] == db.scheduled[j])
  {
    var ts := Tickets(db, tasks, ids, now);
    TicketsDecided(db, tasks, ids, now);
    var undecidable := (id: JobId) => Undecidable(db, tasks, id, now);
    var failures := Where(ids, undecidable);
    KeepDistinct(ids, undecidable);
    hide Tickets, Bulk, FailAll, Live, Decide, Postponed, Where;
    FailAllIs(Bulk(db, ts, now), failures, now);
    forall t | t in ts
      ensures t.id in db.jobs && (t.id == j ==> !t.decision.Later?)
    {
      if t.id == j {
        DecidedNow(db, tasks, t, now);
      }
    }
    BulkScheduled(db, ts, now, j);
  }

  /** What becomes of the scheduled table: the batch leaves it, but for postponed jobs, and other rows stay as they are. */
  lemma PromoteScheduledLeaves(
    db: Db, cfg: Config, tasks: Tasks, batch: nat, hidden: set<JobId>, now: Time, id: JobId)
    requires PromoteScheduled(db, cfg, tasks, batch, hidden, now).Ok?
    ensures var ids := Batch(DueScheduled(db, cfg, hidden, now), ScheduledColumns(db), batch);
            var after := PromoteScheduled(db, cfg, tasks, batch, hidden, now).value;
            && (id !in ids ==> (id in after.scheduled <==> id in db.scheduled)
                               && (id in db.scheduled ==> after.scheduled[id] == db.scheduled[id]))
            && (id in ids && !Postponed(db, id, now) ==> id !in after.scheduled)
  {
    var ids := Batch(DueScheduled(db, cfg, hidden, now), ScheduledColumns(db), batch);
    BatchMembers(DueScheduled(db, cfg, hidden, now), ScheduledColumns(db), batch);
    var evicted := EvictAll(db, Scheduled, ids);
    EvictAllIs(db, Scheduled, ids);
    hide Batch, EvictAll, Redispatch, DueScheduled;
    if id in ids ==> !Postponed(db, id, now) {
      RedispatchScheduled(evicted, tasks, ids, now, id);
    }
  }
}
