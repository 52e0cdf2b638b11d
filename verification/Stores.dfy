/**
 The same transactions as the queue runs them: an object whose tables are updated in place, loops
 over selected rows, and a rollback when a transaction raises. Each is proved to commit exactly what
 the corresponding function of `Lifecycle` computes, so every theorem about runs speaks about it.
 */
module Stores {
  import opened Results
  import opened Semaphores
  import opened Ordering
  import opened Grouping
  import opened Tables
  import opened Slots
  import opened Dispatch
  import opened Claiming
  import opened Lifecycle
  import opened SlotAccounting
  import opened LifecycleSafety

  /** Inside a transaction: the same error, or the specified tables. */
  ghost predicate Agrees(r: Result<()>, spec: Result<Db>, after: Db) {
    match spec
    case Ok(db) => r == Ok(()) && after == db
    case Err(e) => r == Err(e)
  }

  /** A whole transaction: the specified tables, or the same error and the tables as they were. */
  ghost predicate Commits(r: Result<()>, spec: Result<Db>, before: Db, after: Db) {
    match spec
    case Ok(db) => r == Ok(()) && after == db
    case Err(e) => r == Err(e) && after == before
  }

  lemma CommittedIsValid(r: Result<()>, spec: Result<Db>, before: Db, after: Db)
    requires Valid(before) && Sound(spec) && Commits(r, spec, before, after)
    ensures Valid(after)
  {
  }

  lemma DoneIsValid(spec: Result<Db>, after: Db)
    requires Sound(spec) && spec == Ok(after)
    ensures Valid(after)
  {
  }

  class Store {
    var jobs: map<JobId, Job>
    var ready: map<JobId, ReadyRow>
    var scheduled: map<JobId, ScheduledRow>
    var claimed: map<JobId, ClaimedRow>
    var blocked: map<JobId, BlockedRow>
    var failed: map<JobId, FailedRow>
    var semaphores: map<string, Semaphore>
    var processes: map<ProcessId, Process>
    var pauses: set<(string, string)>
    var nextPk: int
    var forgotten: set<string>

    function Snapshot(): Db
      reads this
    {
      Db(jobs, ready, scheduled, claimed, blocked, failed, semaphores, processes, pauses, nextPk, forgotten)
    }

    constructor ()
      ensures Snapshot() == EmptyDb
    {
      jobs, ready, scheduled, claimed, blocked, failed := map[], map[], map[], map[], map[], map[];
      semaphores, processes, pauses, nextPk, forgotten := map[], map[], {}, 1, {};
    }

    method Rollback(saved: Db)
      modifies this
      ensures Snapshot() == saved
    {
      jobs, ready, scheduled, claimed := saved.jobs, saved.ready, saved.scheduled, saved.claimed;
      blocked, failed, semaphores := saved.blocked, saved.failed, saved.semaphores;
      processes, pauses, nextPk, forgotten := saved.processes, saved.pauses, saved.nextPk, saved.forgotten;
    }

    // -------------------------------------------------------------- rows

    method DeleteRow(table: Table, id: JobId)
      modifies this
      ensures Snapshot() == Evict(old(Snapshot()), table, id)
    {
      match table
      case Ready => ready := ready - {id};
      case Scheduled => scheduled := scheduled - {id};
      case Claimed => claimed := claimed - {id};
      case Blocked => blocked := blocked - {id};
      case Failed => failed := failed - {id};
    }

    method ConsumeRows(table: Table, ids: seq<JobId>)
      modifies this
      ensures Snapshot() == EvictAll(old(Snapshot()), table, ids)
    {
      hide Evict;
      ghost var before := Snapshot();
      for i := 0 to |ids|
        invariant EvictAll(Snapshot(), table, ids[i..]) == EvictAll(before, table, ids)
      {
        assert ids[i..][1..] == ids[i + 1..];
        DeleteRow(table, ids[i]);
      }
    }

    method CreateReady(id: JobId, backend: string, queue: string, priority: int)
      modifies this
      ensures Snapshot() == PutReady(old(Snapshot()), id, backend, queue, priority)
    {
      ready := ready[id := ReadyRow(nextPk, backend, queue, priority)];
      nextPk := nextPk + 1;
    }

    method CreateBlocked(id: JobId, row: BlockedRow)
      modifies this
      ensures Snapshot() == PutBlocked(old(Snapshot()), id, row)
    {
      blocked := blocked[id := row.(pk := nextPk)];
      nextPk := nextPk + 1;
    }

    method CreateFailed(ids: seq<JobId>, now: Time)
      modifies this
      ensures Snapshot() == FailAll(old(Snapshot()), ids, now)
    {
      ghost var before := Snapshot();
      for i := 0 to |ids|
        invariant FailAll(Snapshot(), ids[i..], now) == FailAll(before, ids, now)
      {
        assert ids[i..][1..] == ids[i + 1..];
        failed := failed[ids[i] := FailedRow(nextPk, now, None)];
        nextPk := nextPk + 1;
      }
    }

    method DeleteJobs(ids: seq<JobId>)
      modifies this
      ensures Snapshot() == DeleteAll(old(Snapshot()), ids)
    {
      ghost var before := Snapshot();
      for i := 0 to |ids|
        invariant DeleteAll(Snapshot(), ids[i..]) == DeleteAll(before, ids)
      {
        assert ids[i..][1..] == ids[i + 1..];
        jobs := jobs - {ids[i]};
      }
    }

    // -------------------------------------------------------------- slots

    method SemaphoreAcquire(key: string, limit: Positive, duration: int, now: Time) returns (acquired: bool)
      modifies this
      ensures (Snapshot(), acquired) == AcquireSlot(old(Snapshot()), key, limit, duration, now)
    {
      var (row, ok) := Acquire(Lookup(semaphores, key), limit, now + duration, now);
      forgotten := Offer(Snapshot(), key, limit, 0);
      semaphores := semaphores[key := row];
      acquired := ok;
    }

    method SemaphoreAcquireMany(key: string, count: nat, limit: Positive, duration: int, now: Time)
      returns (taken: nat)
      modifies this
      ensures (Snapshot(), taken) == AcquireSlots(old(Snapshot()), key, count, limit, duration, now)
    {
      var (row, n) := AcquireMany(Lookup(semaphores, key), count, limit, now + duration, now);
      taken := n;
      if row.Some? {
        if count != 0 {
          forgotten := Offer(Snapshot(), key, limit, 0);
        }
        semaphores := semaphores[key := row.value];
      }
    }

    method SemaphoreRelease(key: string, limit: Positive, duration: int, now: Time)
      modifies this
      ensures Snapshot() == ReleaseSemaphore(old(Snapshot()), key, limit, duration, now)
    {
      if key in semaphores {
        forgotten := Offer(Snapshot(), key, limit, 1);
        semaphores := semaphores[key := Release(semaphores[key], limit, now + duration, now)];
      }
    }

    method TakeSlotForBlocked(key: string, limit: Positive, duration: int, mode: HandoffMode, now: Time)
      returns (acquired: bool)
      modifies this
      ensures (Snapshot(), acquired) == TakeForBlocked(old(Snapshot()), key, limit, duration, mode, now)
    {
      if key !in semaphores {
        return false;
      }
      var s := semaphores[key];
      if mode.ReleaseClaimed? {
        var (row, ok) := Handoff(s, limit, now + duration, now);
        semaphores, acquired := semaphores[key := row], ok;
      } else {
        var (row, ok) := ConsumeReleased(s, limit, now + duration, now);
        semaphores, acquired := semaphores[key := row], ok;
      }
    }

    /** The blocked row is deleted, and becomes a ready row when a slot is taken for it. */
    method UnblockNextBlockedJob(
      cfg: Config, key: string, limit: Positive, duration: int, mode: HandoffMode, hidden: set<JobId>, now: Time)
      returns (r: Result<()>, unblocked: bool)
      modifies this
      ensures var spec := UnblockNext(old(Snapshot()), cfg, key, limit, duration, mode, hidden, now);
              match spec
              case Ok((db, promoted)) => r == Ok(()) && Snapshot() == db && unblocked == promoted
              case Err(e) => r == Err(e)
      ensures forall loose, pending ::
                && Good(old(Snapshot()), loose, pending) && (mode.ReleaseClaimed? ==> key in pending)
                && (mode.ConsumeFreed? && key in old(semaphores) ==> old(semaphores)[key].limit == limit) ==>
                  r.Ok? && Good(Snapshot(), loose, if unblocked && mode.ReleaseClaimed? then pending - multiset{key} else pending)
    {
      hide Good;
      ghost var spec := UnblockNext(Snapshot(), cfg, key, limit, duration, mode, hidden, now);
      forall loose, pending | && Good(Snapshot(), loose, pending) && (mode.ReleaseClaimed? ==> key in pending)
                              && (mode.ConsumeFreed? && key in semaphores ==> semaphores[key].limit == limit)
        ensures spec.Ok? && Good(spec.value.0, loose, if spec.value.1 && mode.ReleaseClaimed? then pending - multiset{key} else pending)
      {
        UnblockNextGood(Snapshot(), cfg, key, limit, duration, mode, hidden, now, loose, pending);
      }
      hide TakeForBlocked, Live, PutReady, PutBlocked;
      var waiting := Waiting(Snapshot(), cfg.backend, key, hidden);
      if waiting == {} {
        return Ok(()), false;
      }
      var id := Least(waiting).job;
      hide Waiting;
      if id !in jobs || jobs[id].backend != cfg.backend {
        return Err(ForeignBackend), false;
      }
      WaitingRow(Snapshot(), cfg.backend, key, hidden);
      var row := blocked[id];
      ghost var taken := TakeForBlocked(Snapshot(), key, limit, duration, mode, now).0;
      TakeFrame(Snapshot(), key, limit, duration, mode, now);
      var acquired := TakeSlotForBlocked(key, limit, duration, mode, now);
      if !acquired && mode.ReleaseClaimed? && cfg.family.Postgres? {
        return Ok(()), false;
      }
      DeleteRow(Blocked, id);
      if Live(Snapshot(), id) {
        return Err(Conflict), false;
      }
      if acquired {
        CreateReady(id, cfg.backend, row.queue, row.priority);
      } else {
        CreateBlocked(id, row);
      }
      return Ok(()), acquired;
    }

    method ReleaseConcurrencySlot(cfg: Config, tasks: Tasks, job: Job, hidden: set<JobId>, now: Time)
      returns (r: Result<()>)
      modifies this
      ensures Agrees(r, ReleaseSlot(old(Snapshot()), cfg, tasks, job, hidden, now), Snapshot())
      ensures forall loose, pending :: Good(old(Snapshot()), loose, pending) && KeyBag(job) <= pending ==>
                r.Ok? && Good(Snapshot(), loose, pending - KeyBag(job))
    {
      hide Good;
      ghost var spec := ReleaseSlot(Snapshot(), cfg, tasks, job, hidden, now);
      forall loose, pending | Good(Snapshot(), loose, pending) && KeyBag(job) <= pending
        ensures spec.Ok? && Good(spec.value, loose, pending - KeyBag(job))
      {
        ReleaseSlotGood(Snapshot(), cfg, tasks, job, hidden, now, loose, pending);
      }
      hide UnblockNext, ReleaseSemaphore;
      if job.key.None? {
        return Ok(());
      }
      var key := job.key.value;
      var (limit, duration) := ReleaseSettings(Snapshot(), cfg, tasks, job, key);
      var unblocked;
      r, unblocked := UnblockNextBlockedJob(cfg, key, limit, duration, ReleaseClaimed, hidden, now);
      if r.Err? || unblocked {
        return;
      }
      SemaphoreRelease(key, limit, duration, now);
      r, unblocked := UnblockNextBlockedJob(cfg, key, limit, duration, ConsumeFreed, hidden, now);
    }

    method ReleaseEach(cfg: Config, tasks: Tasks, departed: seq<Job>, hidden: set<JobId>, now: Time)
      returns (r: Result<()>)
      modifies this
      ensures Agrees(r, ReleaseSlots(old(Snapshot()), cfg, tasks, departed, hidden, now), Snapshot())
    {
      hide ReleaseSlot;
      ghost var spec := ReleaseSlots(Snapshot(), cfg, tasks, departed, hidden, now);
      r := Ok(());
      for i := 0 to |departed|
        invariant ReleaseSlots(Snapshot(), cfg, tasks, departed[i..], hidden, now) == spec && r == Ok(())
      {
        assert departed[i..][1..] == departed[i + 1..];
        r := ReleaseConcurrencySlot(cfg, tasks, departed[i], hidden, now);
        if r.Err? {
          return;
        }
      }
    }

    // -------------------------------------------------------------- dispatch

    method PlaceJob(t: Ticket, acquired: bool, now: Time)
      modifies this
      ensures Snapshot() == Place(old(Snapshot()), t, acquired, now)
    {
      if t.id !in jobs {
        return;
      }
      var job := jobs[t.id];
      match OutcomeOf(t.decision, acquired)
      case ToScheduled =>
        var at := if job.scheduledAt.Some? then job.scheduledAt.value else now;
        scheduled := scheduled[t.id := ScheduledRow(nextPk, job.backend, job.queue, job.priority, at)];
        nextPk := nextPk + 1;
      case ToReady => CreateReady(t.id, job.backend, job.queue, job.priority);
      case ToBlocked(key, duration) =>
        CreateBlocked(t.id, BlockedRow(0, job.backend, job.queue, job.priority, key, now + duration));
      case ToDiscard => jobs := jobs[t.id := job.(finishedAt := Some(now))];
    }

    method DispatchJob(t: Ticket, now: Time)
      modifies this
      ensures Snapshot() == DispatchOne(old(Snapshot()), t, now)
      ensures forall loose, pending :: Good(old(Snapshot()), loose, pending) && t.id in loose && Fits(old(Snapshot()), t) ==>
                Good(Snapshot(), loose - {t.id}, pending)
    {
      hide Good;
      ghost var before := Snapshot();
      hide Place, AcquireSlot;
      match t.decision {
        case Contend(key, policy) =>
          var acquired := SemaphoreAcquire(key, policy.limit, policy.duration, now);
          PlaceJob(t, acquired, now);
        case _ => PlaceJob(t, true, now);
      }
      forall loose, pending | Good(before, loose, pending) && t.id in loose && Fits(before, t)
        ensures Good(Snapshot(), loose - {t.id}, pending)
      {
        DispatchOneGood(before, t, now, loose, pending);
      }
    }

    method PlaceGroupOf(group: seq<Ticket>, granted: nat, now: Time)
      modifies this
      ensures Snapshot() == PlaceGroup(old(Snapshot()), group, granted, now)
    {
      hide Place;
      ghost var spec := PlaceGroup(Snapshot(), group, granted, now);
      for i := 0 to |group|
        invariant PlaceGroup(Snapshot(), group[i..], Max(0, granted - i), now) == spec
      {
        assert group[i..][1..] == group[i + 1..];
        PlaceJob(group[i], i < granted, now);
      }
    }

    /** Entries that contend for no slot are placed at once, the others collected by decision. */
    method BuildDispatchRows(entries: seq<Ticket>, now: Time)
      modifies this
      ensures Snapshot() == Bulk(old(Snapshot()), entries, now)
    {
      hide DispatchOne, BulkGroups, Grouped, Where;
      ghost var before := Snapshot();
      var contending := [];
      for i := 0 to |entries|
        invariant contending == Where(entries[..i], Contends)
        invariant Snapshot() == DispatchAll(before, Where(entries[..i], Direct), now)
      {
        assert entries[..i + 1] == entries[..i] + [entries[i]];
        WhereSnoc(entries[..i], entries[i], Contends);
        WhereSnoc(entries[..i], entries[i], Direct);
        if entries[i].decision.Contend? {
          contending := contending + [entries[i]];
        } else {
          DispatchSnoc(before, Where(entries[..i], Direct), entries[i], now);
          DispatchJob(entries[i], now);
        }
      }
      assert entries[..|entries|] == entries;
      var order, groups := GroupBy(contending, DecisionOf);
      ServeGroups(contending, order, groups, now);
    }

    method ServeGroups(contending: seq<Ticket>, order: seq<Decision>, groups: map<Decision, seq<Ticket>>, now: Time)
      requires Grouped(contending, DecisionOf, order, groups)
      requires forall t :: t in contending ==> t.decision.Contend?
      modifies this
      ensures Snapshot() == BulkGroups(old(Snapshot()), contending, now)
    {
      hide AcquireSlots, PlaceGroup, Grouped, Where;
      ghost var spec := BulkGroups(Snapshot(), contending, now);
      ghost var rest := contending;
      GroupedUnserved(contending, DecisionOf, order, groups);
      assert order[0..] == order;
      for i := 0 to |order|
        invariant forall t :: t in rest ==> t.decision.Contend?
        invariant BulkGroups(Snapshot(), rest, now) == spec
        invariant Unserved(rest, DecisionOf, order[i..], groups)
      {
        UnservedStep(rest, DecisionOf, order[i..], groups);
        var d := order[i];
        assert rest[0] in rest && rest[0].decision == d;
        var group := groups[d];
        var granted := SemaphoreAcquireMany(d.key, |group|, d.policy.limit, d.policy.duration, now);
        PlaceGroupOf(group, granted, now);
        rest := Where(rest, KeyIsNot(DecisionOf, d));
        assert order[i..][1..] == order[i + 1..];
      }
      UnservedNone(rest, DecisionOf, groups);
    }

    // -------------------------------------------------------------- enqueue and redispatch

    method EnqueueJob(cfg: Config, tasks: Tasks, id: JobId, s: Submission, now: Time) returns (r: Result<()>)
      modifies this
      ensures Commits(r, Enqueue(old(Snapshot()), cfg, tasks, id, s, now), old(Snapshot()), Snapshot())
      ensures Valid(old(Snapshot())) ==> Valid(Snapshot())
    {
      hide Good, Valid;
      if Valid(Snapshot()) {
        EnqueueSound(Snapshot(), cfg, tasks, id, s, now);
      }
      hide DispatchOne, Decide;
      if id in jobs {
        return Err(Duplicate);
      }
      var job := NewJob(cfg, s);
      var decision := Decide(job, tasks, now);
      if decision.Err? {
        return Err(decision.error);
      }
      jobs := jobs[id := job];
      DispatchJob(Ticket(id, decision.value), now);
      r := Ok(());
    }

    method RedispatchJobs(tasks: Tasks, ids: seq<JobId>, isolate: bool, now: Time) returns (r: Result<()>)
      modifies this
      ensures Agrees(r, Redispatch(old(Snapshot()), tasks, ids, isolate, now), Snapshot())
      ensures Good(old(Snapshot()), Members(ids), multiset{}) && Distinct(ids) && r.Ok? ==> Valid(Snapshot())
    {
      hide Good, Valid, Sound;
      ghost var before := Snapshot();
      hide Bulk, FailAll, Tickets, Live, Where, Decide;
      if exists id :: id in ids && Live(Snapshot(), id) {
        return Err(Conflict);
      }
      var entries, failures := PrepareBatch(Snapshot(), tasks, ids, now);
      if !isolate && failures != [] {
        return Err(PolicyError);
      }
      BuildDispatchRows(entries, now);
      CreateFailed(failures, now);
      r := Ok(());
      if Good(before, Members(ids), multiset{}) && Distinct(ids) {
        RedispatchSound(before, tasks, ids, isolate, now);
        DoneIsValid(Redispatch(before, tasks, ids, isolate, now), Snapshot());
      }
    }

    method PromoteScheduledJobs(cfg: Config, tasks: Tasks, batch: nat, hidden: set<JobId>, now: Time)
      returns (r: Result<()>)
      modifies this
      ensures Commits(r, PromoteScheduled(old(Snapshot()), cfg, tasks, batch, hidden, now), old(Snapshot()), Snapshot())
      ensures Valid(old(Snapshot())) ==> Valid(Snapshot())
    {
      hide Good, Valid;
      if Valid(Snapshot()) {
        PromoteScheduledSound(Snapshot(), cfg, tasks, batch, hidden, now);
      }
      hide Redispatch, EvictAll, Batch;
      var saved := Snapshot();
      var ids := Batch(DueScheduled(saved, cfg, hidden, now), ScheduledColumns(saved), batch);
      ConsumeRows(Scheduled, ids);
      r := RedispatchJobs(tasks, ids, true, now);
      if r.Err? {
        Rollback(saved);
      }
    }

    method RetryFailedJobs(
      cfg: Config, tasks: Tasks, only: Option<set<JobId>>, batch: nat, hidden: set<JobId>, now: Time)
      returns (r: Result<()>)
      modifies this
      ensures Commits(r, RetryFailed(old(Snapshot()), cfg, tasks, only, batch, hidden, now),
                      old(Snapshot()), Snapshot())
      ensures Valid(old(Snapshot())) ==> Valid(Snapshot())
    {
      hide Good, Valid, Sound;
      ghost var before := Snapshot();
      hide Redispatch, EvictAll, Batch;
      var saved := Snapshot();
      var eligible := set id | id in FailedOf(saved, cfg, hidden) && (only.Some? ==> id in only.value);
      var ids := Batch(eligible, FailedColumns(saved), batch);
      ConsumeRows(Failed, ids);
      r := RedispatchJobs(tasks, ids, true, now);
      if r.Err? {
        Rollback(saved);
      }
      if Valid(before) {
        RetryFailedSound(before, cfg, tasks, only, batch, hidden, now);
        CommittedIsValid(r, RetryFailed(before, cfg, tasks, only, batch, hidden, now), before, Snapshot());
      }
    }

    // -------------------------------------------------------------- claim

    method ClaimRows(ids: seq<JobId>, process: Option<ProcessId>)
      modifies this
      ensures Snapshot() == ClaimAll(old(Snapshot()), ids, process)
    {
      ghost var before := Snapshot();
      for i := 0 to |ids|
        invariant ClaimAll(Snapshot(), ids[i..], process) == ClaimAll(before, ids, process)
      {
        assert ids[i..][1..] == ids[i + 1..];
        ready := ready - {ids[i]};
        claimed := claimed[ids[i] := ClaimedRow(nextPk, process)];
        nextPk := nextPk + 1;
      }
    }

    /** Rows selected by whatever plan suits the selectors, checked, and moved to the claimed table. */
    method ClaimReadyJobs(
      cfg: Config, queues: Queues, limit: nat, process: Option<ProcessId>, hidden: set<JobId>, paused: set<string>)
      returns (r: Result<()>)
      modifies this
      ensures Commits(r, Claim(old(Snapshot()), cfg, queues, limit, process, hidden, paused),
                      old(Snapshot()), Snapshot())
      ensures Valid(old(Snapshot())) ==> Valid(Snapshot())
    {
      hide Good, Valid, Sound;
      ghost var before := Snapshot();
      hide ClaimAll, Query, CheckSelected, Where;
      if process.Some? && (process.value !in processes || processes[process.value].backend != cfg.backend) {
        return Err(ForeignProcess);
      }
      var rows := SelectReadyRows(ready, queues, Visible(Snapshot(), cfg, hidden), limit, cfg.family);
      var db := Snapshot();
      r := CheckSelected(db, cfg, rows);
      if r.Err? {
        return;
      }
      ClaimRows(Where(rows, (id: JobId) => id in db.ready && db.ready[id].queue !in paused), process);
      r := Ok(());
      if Valid(before) {
        ClaimSound(before, cfg, queues, limit, process, hidden, paused);
        CommittedIsValid(r, Claim(before, cfg, queues, limit, process, hidden, paused), before, Snapshot());
      }
    }

    // -------------------------------------------------------------- complete, fail, discard

    method CompleteClaimedJob(cfg: Config, tasks: Tasks, id: JobId, hidden: set<JobId>, now: Time)
      returns (r: Result<()>)
      modifies this
      ensures Commits(r, CompleteClaimed(old(Snapshot()), cfg, tasks, id, hidden, now), old(Snapshot()), Snapshot())
      ensures Valid(old(Snapshot())) ==> Valid(Snapshot())
    {
      hide Good, Valid;
      if Valid(Snapshot()) {
        CompleteSound(Snapshot(), cfg, tasks, id, hidden, now);
      }
      hide ReleaseSlot, Live;
      if id !in claimed || id !in jobs || jobs[id].backend != cfg.backend {
        return Err(Missing);
      }
      var (saved, job) := (Snapshot(), jobs[id]);
      DeleteRow(Claimed, id);
      if Live(Snapshot(), id) {
        Rollback(saved);
        return Err(Conflict);
      }
      if cfg.preserveFinished {
        jobs := jobs[id := job.(finishedAt := Some(now))];
      } else {
        jobs := jobs - {id};
      }
      r := ReleaseConcurrencySlot(cfg, tasks, job, hidden, now);
      if r.Err? {
        Rollback(saved);
      }
    }

    method FailClaimedJob(cfg: Config, tasks: Tasks, id: JobId, hidden: set<JobId>, now: Time)
      returns (r: Result<()>)
      modifies this
      ensures Commits(r, FailClaimed(old(Snapshot()), cfg, tasks, id, hidden, now), old(Snapshot()), Snapshot())
      ensures Valid(old(Snapshot())) ==> Valid(Snapshot())
    {
      hide Good, Valid, Sound;
      ghost var before := Snapshot();
      hide ReleaseSlot, Live;
      if id !in claimed || id !in jobs || jobs[id].backend != cfg.backend {
        return Err(Missing);
      }
      var (saved, job) := (Snapshot(), jobs[id]);
      DeleteRow(Claimed, id);
      if Live(Snapshot(), id) {
        Rollback(saved);
        return Err(Conflict);
      }
      failed := failed[id := FailedRow(nextPk, now, None)];
      nextPk := nextPk + 1;
      r := ReleaseConcurrencySlot(cfg, tasks, job, hidden, now);
      if r.Err? {
        Rollback(saved);
      }
      if Valid(before) {
        FailSound(before, cfg, tasks, id, hidden, now);
        CommittedIsValid(r, FailClaimed(before, cfg, tasks, id, hidden, now), before, Snapshot());
      }
    }

    method DiscardTransition(
      cfg: Config, tasks: Tasks, table: Table, ids: seq<JobId>, hidden: set<JobId>, now: Time) returns (r: Result<()>)
      requires forall id :: id in ids ==> id in jobs
      modifies this
      ensures Agrees(r, DeleteAndRelease(old(Snapshot()), cfg, tasks, table, ids, hidden, now), Snapshot())
    {
      hide EvictAll, DeleteAll, ReleaseSlots, Live;
      var departed := JobsOf(Snapshot(), ids);
      ConsumeRows(table, ids);
      if exists id :: id in ids && Live(Snapshot(), id) {
        return Err(Conflict);
      }
      DeleteJobs(ids);
      r := Ok(());
      if table.Ready? {
        r := ReleaseEach(cfg, tasks, departed, hidden, now);
      }
    }

    method DiscardStateJobs(
      cfg: Config, tasks: Tasks, table: Table, only: Option<set<JobId>>, within: Option<string>, batch: nat,
      hidden: set<JobId>, now: Time) returns (r: Result<()>)
      modifies this
      ensures Commits(r, DiscardRows(old(Snapshot()), cfg, tasks, table, only, within, batch, hidden, now),
                      old(Snapshot()), Snapshot())
      ensures Valid(old(Snapshot())) ==> Valid(Snapshot())
    {
      hide Good, Valid, Sound;
      ghost var before := Snapshot();
      ghost var spec := DiscardRows(before, cfg, tasks, table, only, within, batch, hidden, now);
      if Valid(before) {
        DiscardSound(before, cfg, tasks, table, only, within, batch, hidden, now);
      }
      DiscardRowsIs(before, cfg, tasks, table, only, within, batch, hidden, now);
      hide DeleteAndRelease, DiscardIds, DiscardRows;
      if table.Claimed? {
        return Err(Missing);
      }
      var saved := Snapshot();
      var ids := DiscardIds(saved, cfg, table, only, within, batch, hidden);
      if exists id :: id in ids && (id !in jobs || jobs[id].backend != cfg.backend) {
        return Err(ForeignBackend);
      }
      r := DiscardTransition(cfg, tasks, table, ids, hidden, now);
      if r.Err? {
        Rollback(saved);
      }
      assert Commits(r, spec, before, Snapshot());
      hide Commits;
      if Valid(before) {
        CommittedIsValid(r, spec, before, Snapshot());
      }
    }

    // -------------------------------------------------------------- crash recovery

    method PromoteRows(backend: string, ids: seq<JobId>) returns (r: Result<()>)
      modifies this
      ensures Agrees(r, PromoteAll(old(Snapshot()), backend, ids), Snapshot())
    {
      hide Live;
      ghost var spec := PromoteAll(Snapshot(), backend, ids);
      for i := 0 to |ids|
        invariant PromoteAll(Snapshot(), backend, ids[i..]) == spec
      {
        assert ids[i..][1..] == ids[i + 1..];
        var id := ids[i];
        if id !in blocked {
          return Err(Missing);
        }
        var row := blocked[id];
        DeleteRow(Blocked, id);
        if Live(Snapshot(), id) {
          return Err(Conflict);
        }
        CreateReady(id, backend, row.queue, row.priority);
      }
      r := Ok(());
    }

    method ReleaseRecoveredGroup(
      cfg: Config, key: string, count: nat, limit: Positive, duration: int, hidden: set<JobId>, now: Time)
      returns (r: Result<()>)
      modifies this
      ensures Agrees(r, ReleaseGroupOf(old(Snapshot()), cfg, key, count, limit, duration, hidden, now), Snapshot())
    {
      hide PromoteAll, Take, Waiting;
      var rows := Jobs(Take(Waiting(Snapshot(), cfg.backend, key, hidden), count));
      if exists id :: id in rows && (id !in jobs || jobs[id].backend != cfg.backend) {
        return Err(ForeignBackend);
      }
      if key !in semaphores {
        return Ok(());
      }
      var available := Min(limit, Max(0, semaphores[key].value + limit - semaphores[key].limit + count));
      var promoted := Min(count, Min(available, |rows|));
      forgotten := Offer(Snapshot(), key, limit, count);
      semaphores := semaphores[key := Settled(available - promoted, limit, now + duration, now)];
      r := PromoteRows(cfg.backend, rows[..promoted]);
    }

    /** Slots of departed jobs released key by key; jobs of a key without common settings come back. */
    method ReleaseRecoveredSlots(cfg: Config, tasks: Tasks, departed: seq<Job>, hidden: set<JobId>, now: Time)
      returns (r: Result<()>, leftover: seq<Job>)
      requires forall j :: j in departed ==> j.key.Some?
      modifies this
      ensures match ReleaseRecovered(old(Snapshot()), cfg, tasks, departed, [], hidden, now)
              case Ok((db, rest)) => r == Ok(()) && Snapshot() == db && leftover == rest
              case Err(e) => r == Err(e)
    {
      hide ReleaseGroupOf, GroupSettings, Grouped, Where;
      ghost var spec := ReleaseRecovered(Snapshot(), cfg, tasks, departed, [], hidden, now);
      r, leftover := Ok(()), [];
      var order, groups := GroupBy(departed, KeyOf);
      ghost var rest := departed;
      GroupedUnserved(departed, KeyOf, order, groups);
      assert order[0..] == order;
      for i := 0 to |order|
        invariant r == Ok(()) && forall j :: j in rest ==> j.key.Some?
        invariant ReleaseRecovered(Snapshot(), cfg, tasks, rest, leftover, hidden, now) == spec
        invariant Unserved(rest, KeyOf, order[i..], groups)
      {
        UnservedStep(rest, KeyOf, order[i..], groups);
        assert rest[0] in rest && order[i].Some?;
        WhereHead(rest, KeyIsNot(KeyOf, order[i]));
        var key := order[i].value;
        var group := groups[order[i]];
        var settings := GroupSettings(Snapshot(), cfg, tasks, group, key);
        if settings.None? {
          leftover := leftover + group;
        } else {
          r := ReleaseRecoveredGroup(cfg, key, |group|, settings.value.0, settings.value.1, hidden, now);
          if r.Err? {
            return;
          }
        }
        rest := Where(rest, KeyIsNot(KeyOf, order[i]));
        assert order[i..][1..] == order[i + 1..];
      }
      UnservedNone(rest, KeyOf, groups);
    }

    method FailClaimedJobs(cfg: Config, tasks: Tasks, ids: seq<JobId>, hidden: set<JobId>, now: Time)
      returns (r: Result<()>)
      modifies this
      ensures Agrees(r, FailClaimedBatch(old(Snapshot()), cfg, tasks, ids, hidden, now), Snapshot())
    {
      hide EvictAll, FailAll, ReleaseRecovered, ReleaseSlots, Live;
      if exists id :: id in ids && (id !in jobs || jobs[id].backend != cfg.backend) {
        return Err(Missing);
      }
      if !Distinct(ids) || exists id :: id in ids && id !in claimed {
        return Err(Missing);
      }
      var departed := JobsOf(Snapshot(), ids);
      ConsumeRows(Claimed, ids);
      if exists id :: id in ids && Live(Snapshot(), id) {
        return Err(Conflict);
      }
      CreateFailed(ids, now);
      var leftover;
      r, leftover := ReleaseRecoveredSlots(cfg, tasks, Where(departed, HasKey), hidden, now);
      if r.Err? {
        return;
      }
      r := ReleaseEach(cfg, tasks, leftover, hidden, now);
    }

    /** The process row goes; its claims stay behind without a process. */
    method RemoveProcess(process: ProcessId)
      modifies this
      ensures Snapshot() == DeleteProcess(old(Snapshot()), process)
    {
      processes := processes - {process};
      claimed := map id | id in claimed ::
                   if claimed[id].process == Some(process) then claimed[id].(process := None) else claimed[id];
    }

    /** Stale processes one after another until `batch` claims have been failed. */
    method PruneProcesses(
      cfg: Config, tasks: Tasks, rows: seq<ProcessId>, cutoff: Time, batch: nat, hidden: set<JobId>, now: Time)
      returns (r: Result<()>)
      modifies this
      ensures Agrees(r, PruneEach(old(Snapshot()), cfg, tasks, rows, cutoff, batch, hidden, now), Snapshot())
    {
      hide FailClaimedBatch, Batch, DeleteProcess, Stale;
      ghost var spec := PruneEach(Snapshot(), cfg, tasks, rows, cutoff, batch, hidden, now);
      var remaining := batch;
      for i := 0 to |rows|
        invariant remaining >= 0
        invariant PruneEach(Snapshot(), cfg, tasks, rows[i..], cutoff, remaining, hidden, now) == spec
      {
        assert rows[i..][1..] == rows[i + 1..];
        if Stale(Snapshot(), cfg, rows[i], cutoff) {
          var ids := Batch(ClaimsOf(Snapshot(), rows[i]), ClaimedColumns(Snapshot()), remaining);
          RemoveProcess(rows[i]);
          r := FailClaimedJobs(cfg, tasks, ids, hidden, now);
          if r.Err? || |ids| >= remaining {
            return;
          }
          remaining := remaining - |ids|;
        }
      }
      r := Ok(());
    }

    method PruneStaleProcesses(
      cfg: Config, tasks: Tasks, cutoff: Time, exclude: Option<ProcessId>, batch: nat,
      hiddenProcesses: set<ProcessId>, hidden: set<JobId>, now: Time) returns (r: Result<()>)
      modifies this
      ensures Commits(r, PruneStale(old(Snapshot()), cfg, tasks, cutoff, exclude, batch, hiddenProcesses, hidden, now),
                      old(Snapshot()), Snapshot())
      ensures Valid(old(Snapshot())) ==> Valid(Snapshot())
    {
      hide Good, Valid, Sound;
      ghost var before := Snapshot();
      hide PruneEach, Batch;
      var saved := Snapshot();
      var stale := set p | p in saved.processes && p !in hiddenProcesses && Some(p) != exclude && Stale(saved, cfg, p, cutoff);
      r := PruneProcesses(cfg, tasks, Batch(stale, StaleColumns(saved), batch), cutoff, batch, hidden, now);
      if r.Err? {
        Rollback(saved);
      }
      if Valid(before) {
        PruneStaleSound(before, cfg, tasks, cutoff, exclude, batch, hiddenProcesses, hidden, now);
        CommittedIsValid(r, PruneStale(before, cfg, tasks, cutoff, exclude, batch, hiddenProcesses, hidden, now), before, Snapshot());
      }
    }

    // -------------------------------------------------------------- maintenance

    /** The first visible expired rows by date and key, the keys ordered as the database orders text. */
    method LockExpiredSemaphores(batch: nat, hidden: set<string>, collation: (string, string) -> bool, now: Time)
      returns (keys: seq<string>)
      requires Orders(collation)
      ensures IsFirstBy(ByExpiry(semaphores, collation), keys, ExpiredKeys(semaphores, hidden, now), batch)
      ensures forall i, j :: 0 <= i < j < |keys| ==> keys[i] != keys[j]
      ensures FirstExpired(semaphores, keys, hidden, collation, now, batch)
    {
      var (before, all) := (ByExpiry(semaphores, collation), ExpiredKeys(semaphores, hidden, now));
      var rest := all;
      keys := [];
      while |keys| < batch && rest != {}
        invariant |keys| <= batch && rest <= all
        invariant forall key :: key in all <==> key in keys || key in rest
        invariant forall i :: 0 <= i < |keys| ==> keys[i] !in rest
        invariant forall i, j :: 0 <= i < j < |keys| ==> keys[i] != keys[j] && before(keys[i], keys[j])
        invariant forall x, y :: x in keys && y in rest ==> before(x, y)
        decreases |rest|
      {
        ghost var leader := Leader(before, rest);
        var key :| key in rest && forall other :: other in rest && other != key ==> before(key, other);
        keys, rest := keys + [key], rest - {key};
      }
      FirstExpiredIf(semaphores, keys, hidden, collation, now, batch);
    }

    /** Of the locked rows, those whose key no ready or claimed job has. */
    method CleanupExpiredSemaphores(batch: nat, hidden: set<string>, collation: (string, string) -> bool, now: Time)
      returns (locked: seq<string>)
      requires Orders(collation)
      modifies this
      ensures IsFirstBy(ByExpiry(old(semaphores), collation), locked, ExpiredKeys(old(semaphores), hidden, now), batch)
      ensures FirstExpired(old(semaphores), locked, hidden, collation, now, batch)
      ensures Snapshot() == CleanupSemaphores(old(Snapshot()), KeySet(locked), now)
      ensures Valid(old(Snapshot())) ==> Valid(Snapshot())
    {
      hide Good, Valid, IsFirstBy, ByExpiry, FirstExpired;
      locked := LockExpiredSemaphores(batch, hidden, collation, now);
      var db := Snapshot();
      if Valid(db) {
        CleanupValid(db, KeySet(locked), now);
      }
      var stale: set<string> := {};
      for i := 0 to |locked|
        invariant stale == StaleKeys(db, KeySet(locked[..i]), now) && Snapshot() == db
      {
        StaleMore(db, locked[..i], locked[i], now);
        assert locked[..i + 1] == locked[..i] + [locked[i]];
        if Collectable(db, locked[i], now) {
          stale := stale + {locked[i]};
        }
      }
      assert stale == StaleKeys(db, KeySet(locked), now) by {
        assert locked[..|locked|] == locked;
      }
      hide StaleKeys;
      semaphores, forgotten := semaphores - stale, forgotten - stale;
      assert Snapshot() == db.(semaphores := db.semaphores - stale, forgotten := db.forgotten - stale);
    }

    method ExpireBlockedRow(tasks: Tasks, id: JobId, row: BlockedRow, consumed: bool, now: Time) returns (r: Result<()>)
      modifies this
      ensures Agrees(r, ExpireOne(old(Snapshot()), tasks, id, row, consumed, now), Snapshot())
      ensures forall loose, pending ::
                && Good(old(Snapshot()), loose, pending) && RowFits(old(Snapshot()), id, row)
                && (if consumed then id in loose else id in old(blocked)) ==>
                  r.Ok? && Good(Snapshot(), if consumed then loose - {id} else loose, pending)
    {
      hide Good;
      ghost var spec := ExpireOne(Snapshot(), tasks, id, row, consumed, now);
      forall loose, pending | && Good(Snapshot(), loose, pending) && RowFits(Snapshot(), id, row)
                              && (if consumed then id in loose else id in blocked)
        ensures spec.Ok? && Good(spec.value, if consumed then loose - {id} else loose, pending)
      {
        ExpireOneGood(Snapshot(), tasks, id, row, consumed, now, loose, pending);
      }
      hide Live, Acquire, Settings;
      if id !in jobs || !(consumed || id in blocked) {
        return Err(Missing);
      }
      var policy := Settings(jobs[id], tasks);
      if policy.Err? {
        if !consumed {
          DeleteRow(Blocked, id);
        }
        if Live(Snapshot(), id) {
          return Err(Conflict);
        }
        failed := failed[id := FailedRow(nextPk, now, None)];
        nextPk := nextPk + 1;
        return Ok(());
      }
      var acquired := SemaphoreAcquire(row.key, policy.value.limit, policy.value.duration, now);
      if !acquired && !consumed {
        blocked := blocked[id := blocked[id].(expiresAt := now + policy.value.duration)];
        return Ok(());
      }
      if !consumed {
        DeleteRow(Blocked, id);
      }
      if Live(Snapshot(), id) {
        return Err(Conflict);
      }
      if acquired {
        CreateReady(id, row.backend, row.queue, row.priority);
      } else {
        CreateBlocked(id, row.(expiresAt := now + policy.value.duration));
      }
      r := Ok(());
    }

    method ExpireRows(tasks: Tasks, ids: seq<JobId>, rows: map<JobId, BlockedRow>, consumed: bool, now: Time)
      returns (r: Result<()>)
      modifies this
      ensures Agrees(r, ExpireEach(old(Snapshot()), tasks, ids, rows, consumed, now), Snapshot())
    {
      hide ExpireOne;
      ghost var spec := ExpireEach(Snapshot(), tasks, ids, rows, consumed, now);
      for i := 0 to |ids|
        invariant ExpireEach(Snapshot(), tasks, ids[i..], rows, consumed, now) == spec
      {
        assert ids[i..][1..] == ids[i + 1..];
        if ids[i] !in rows {
          return Err(Missing);
        }
        r := ExpireBlockedRow(tasks, ids[i], rows[ids[i]], consumed, now);
        if r.Err? {
          return;
        }
      }
      r := Ok(());
    }

    method PromoteExpiredBlockedJobs(cfg: Config, tasks: Tasks, batch: nat, hidden: set<JobId>, now: Time)
      returns (r: Result<()>)
      modifies this
      ensures Commits(r, PromoteExpired(old(Snapshot()), cfg, tasks, batch, hidden, now), old(Snapshot()), Snapshot())
      ensures Valid(old(Snapshot())) ==> Valid(Snapshot())
    {
      hide Good, Valid, Sound;
      ghost var before := Snapshot();
      hide Batch, EvictAll, ExpireEach;
      var saved := Snapshot();
      var ids := Batch(ExpiredBlocked(saved, cfg, hidden, now), BlockedColumns(saved), batch);
      if exists id :: id in ids && (id !in jobs || jobs[id].backend != cfg.backend) {
        return Err(ForeignBackend);
      }
      var consumed := cfg.family.Sqlite?;
      if consumed {
        ConsumeRows(Blocked, ids);
      }
      r := ExpireRows(tasks, ids, saved.blocked, consumed, now);
      if r.Err? {
        Rollback(saved);
      }
      if Valid(before) {
        PromoteExpiredSound(before, cfg, tasks, batch, hidden, now);
        CommittedIsValid(r, PromoteExpired(before, cfg, tasks, batch, hidden, now), before, Snapshot());
      }
    }
  }

  /** Decisions for a batch, in order; the undecidable jobs on a list of their own. */
  method PrepareBatch(db: Db, tasks: Tasks, ids: seq<JobId>, now: Time)
    returns (entries: seq<Ticket>, failures: seq<JobId>)
    ensures entries == Tickets(db, tasks, ids, now)
    ensures failures == Where(ids, (id: JobId) => Undecidable(db, tasks, id, now))
  {
    ghost var undecidable := (id: JobId) => Undecidable(db, tasks, id, now);
    entries, failures := [], [];
    assert Tickets(db, tasks, [], now) == [] && Where([], undecidable) == [];
    hide Decide, Where, Tickets;
    for i := 0 to |ids|
      invariant entries == Tickets(db, tasks, ids[..i], now)
      invariant failures == Where(ids[..i], undecidable)
    {
      var id := ids[i];
      assert ids[..i + 1] == ids[..i] + [id];
      TicketsSnoc(db, tasks, ids[..i], id, now);
      WhereSnoc(ids[..i], id, undecidable);
      if id in db.jobs {
        var decision := Decide(db.jobs[id], tasks, now);
        match decision
        case Ok(d) => entries := entries + [Ticket(id, d)];
        case Err(_) => failures := failures + [id];
      }
    }
    assert ids[..|ids|] == ids;
  }

  function ExpiredKeys(rows: map<string, Semaphore>, hidden: set<string>, now: Time): set<string> {
    set key | key in rows && key !in hidden && rows[key].expiresAt <= now
  }

  /** Discarding refuses running jobs and jobs of another backend, and deletes the batch otherwise. */
  lemma DiscardRowsIs(
    db: Db, cfg: Config, tasks: Tasks, table: Table, only: Option<set<JobId>>, queue: Option<string>, batch: nat,
    hidden: set<JobId>, now: Time)
    ensures var ids := DiscardIds(db, cfg, table, only, queue, batch, hidden);
            DiscardRows(db, cfg, tasks, table, only, queue, batch, hidden, now)
            == if table.Claimed? then Err(Missing)
               else if exists id :: id in ids && (id !in db.jobs || db.jobs[id].backend != cfg.backend) then Err(ForeignBackend)
               else DeleteAndRelease(db, cfg, tasks, table, ids, hidden, now)
  {
    hide DiscardIds, DeleteAndRelease;
  }

  /** Rows that have expired and are not locked, the first by date and then by key, all of them when there are fewer. */
  ghost predicate FirstExpired(
    rows: map<string, Semaphore>, keys: seq<string>, hidden: set<string>, collation: (string, string) -> bool, now: Time,
    batch: nat)
  {
    && |keys| <= batch
    && (forall key :: key in keys ==> key in rows && key !in hidden && rows[key].expiresAt <= now)
    && (forall i, j :: 0 <= i < j < |keys| && keys[i] in rows && keys[j] in rows ==>
          NoLaterExpiry(rows[keys[i]], keys[i], rows[keys[j]], keys[j], collation))
    && (forall key :: key in rows && key !in hidden && rows[key].expiresAt <= now && key !in keys ==>
          && |keys| == batch
          && forall other :: other in keys && other in rows ==> NoLaterExpiry(rows[other], other, rows[key], key, collation))
  }

  predicate NoLaterExpiry(a: Semaphore, x: string, b: Semaphore, y: string, collation: (string, string) -> bool) {
    a.expiresAt < b.expiresAt || (a.expiresAt == b.expiresAt && collation(x, y))
  }

  lemma FirstExpiredIf(
    rows: map<string, Semaphore>, keys: seq<string>, hidden: set<string>, collation: (string, string) -> bool, now: Time,
    batch: nat)
    requires IsFirstBy(ByExpiry(rows, collation), keys, ExpiredKeys(rows, hidden, now), batch)
    ensures FirstExpired(rows, keys, hidden, collation, now, batch)
  {
    var before := ByExpiry(rows, collation);
    forall x, y | x in rows && y in rows && before(x, y)
      ensures NoLaterExpiry(rows[x], x, rows[y], y, collation)
    {
      assert ExpiryOf(rows, x) < ExpiryOf(rows, y) || (ExpiryOf(rows, x) == ExpiryOf(rows, y) && collation(x, y));
    }
    forall key
      ensures key in ExpiredKeys(rows, hidden, now) <==> key in rows && key !in hidden && rows[key].expiresAt <= now
    {
    }
    hide ByExpiry, ExpiredKeys, NoLaterExpiry;
  }

  function ExpiryOf(rows: map<string, Semaphore>, key: string): Time {
    if key in rows then rows[key].expiresAt else 0
  }

  /** By date, then by key. */
  function ByExpiry(rows: map<string, Semaphore>, collation: (string, string) -> bool): (r: (string, string) -> bool)
    ensures Orders(collation) ==> Orders(r)
  {
    (a: string, b: string) =>
      ExpiryOf(rows, a) < ExpiryOf(rows, b) || (ExpiryOf(rows, a) == ExpiryOf(rows, b) && collation(a, b))
  }

  lemma {:induction false} TicketsSnoc(db: Db, tasks: Tasks, ids: seq<JobId>, id: JobId, now: Time)
    ensures Tickets(db, tasks, ids + [id], now)
         == Tickets(db, tasks, ids, now)
            + if id in db.jobs && Decide(db.jobs[id], tasks, now).Ok?
              then [Ticket(id, Decide(db.jobs[id], tasks, now).value)] else []
    decreases |ids|
  {
    hide Decide;
    if ids == [] {
      assert ids + [id] == [id] && [id][1..] == [];
    } else {
      assert (ids + [id])[1..] == ids[1..] + [id];
      TicketsSnoc(db, tasks, ids[1..], id, now);
    }
  }

  function KeySet(keys: seq<string>): set<string> {
    set key | key in keys
  }

  lemma StaleMore(db: Db, keys: seq<string>, key: string, now: Time)
    ensures StaleKeys(db, KeySet(keys + [key]), now)
         == StaleKeys(db, KeySet(keys), now) + if Collectable(db, key, now) then {key} else {}
  {
    hide Collectable;
  }

  lemma WaitingRow(db: Db, backend: string, key: string, hidden: set<JobId>)
    requires Waiting(db, backend, key, hidden) != {}
    ensures Least(Waiting(db, backend, key, hidden)).job in db.blocked
  {
  }

  lemma TakeFrame(db: Db, key: string, limit: Positive, duration: int, mode: HandoffMode, now: Time)
    ensures TakeForBlocked(db, key, limit, duration, mode, now).0.blocked == db.blocked
  {
  }

  lemma DispatchSnoc(db: Db, ts: seq<Ticket>, t: Ticket, now: Time)
    ensures DispatchAll(db, ts + [t], now) == DispatchOne(DispatchAll(db, ts, now), t, now)
  {
    DispatchAllConcat(db, ts, [t], now);
    hide DispatchOne;
    assert DispatchAll(DispatchOne(DispatchAll(db, ts, now), t, now), [], now) == DispatchOne(DispatchAll(db, ts, now), t, now);
  }
}
