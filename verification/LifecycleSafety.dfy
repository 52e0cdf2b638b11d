/**
 Every transaction keeps the invariant: one state per job, state rows that repeat their job's columns,
 exact slot counts and possible semaphore rows. And no transaction that starts from a valid database
 finds a job with two state rows or a row of another backend.
 */
module LifecycleSafety {
  import opened Results
  import opened Semaphores
  import opened Ordering
  import opened Tables
  import opened Slots
  import opened SlotAccounting
  import opened Dispatch
  import opened Claiming
  import opened Grouping
  import opened Lifecycle

  /** The transaction leaves a valid database, or leaves it alone for a reason that is not an inconsistency. */
  ghost predicate Sound(r: Result<Db>) {
    match r
    case Ok(db) => Valid(db)
    case Err(e) => e != Conflict && e != ForeignBackend
  }

  lemma BatchMembers(ids: set<JobId>, columns: JobId -> Entry, k: nat)
    ensures var r := Batch(ids, columns, k);
            Distinct(r) && |r| <= k && (forall id :: id in r ==> id in ids)
  {
    var all := set id | id in ids :: columns(id).(job := id);
    var es := Take(all, k);
    forall i | 0 <= i < |es|
      ensures es[i].job in ids && es[i] == columns(es[i].job).(job := es[i].job)
    {
      assert es[i] in es;
    }
    forall i, j | 0 <= i < j < |es|
      ensures es[i].job != es[j].job
    {
      assert Before(es[i], es[j]);
    }
  }

  lemma GoodRow(db: Db, loose: set<JobId>, pending: multiset<string>, table: Table, id: JobId)
    requires Good(db, loose, pending) && Has(db, table, id)
    ensures id in db.jobs && id !in loose && !Live(Evict(db, table, id), id)
    ensures db.jobs[id].finishedAt == None
  {
    assert Live(db, id);
    assert StateCount(db, id) == 1;
  }

  lemma LooseNotLive(db: Db, loose: set<JobId>, pending: multiset<string>, id: JobId)
    requires Good(db, loose, pending) && id in loose
    ensures id in db.jobs && !Live(db, id) && db.jobs[id].finishedAt == None
  {
    assert StateCount(db, id) == 0;
  }

  // ---------------------------------------------------------------- enqueue

  lemma InsertOneState(db: Db, id: JobId, job: Job, loose: set<JobId>)
    requires OneState(db, loose) && id !in db.jobs && job.finishedAt == None
    ensures OneState(InsertJob(db, id, job), loose + {id})
    ensures !Live(db, id)
  {
    var after := InsertJob(db, id, job);
    assert forall j :: j in db.jobs ==> StateCount(after, j) == StateCount(db, j);
    assert forall j :: Live(after, j) <==> Live(db, j);
  }

  lemma InsertGood(db: Db, id: JobId, job: Job, loose: set<JobId>, pending: multiset<string>)
    requires Good(db, loose, pending) && id !in db.jobs && job.finishedAt == None
    ensures Good(InsertJob(db, id, job), loose + {id}, pending)
  {
    InsertOneState(db, id, job, loose);
    hide OneState, Accounted;
    AccountedFrame(db, InsertJob(db, id, job), pending);
  }

  lemma EnqueueSound(db: Db, cfg: Config, tasks: Tasks, id: JobId, s: Submission, now: Time)
    requires Valid(db)
    ensures Sound(Enqueue(db, cfg, tasks, id, s, now))
  {
    hide Good, DispatchOne;
    var job := NewJob(cfg, s);
    if id !in db.jobs && Decide(job, tasks, now).Ok? {
      InsertGood(db, id, job, {}, multiset{});
      assert {} + {id} == {id} && {id} - {id} == {};
      DispatchOneGood(InsertJob(db, id, job), Ticket(id, Decide(job, tasks, now).value), now, {id}, multiset{});
    }
  }

  lemma {:induction false} InsertAllGood(
    db: Db, cfg: Config, items: seq<(JobId, Submission)>, loose: set<JobId>, pending: multiset<string>)
    requires Good(db, loose, pending)
    ensures var r := InsertAll(db, cfg, items);
            && (r.Err? ==> r.error == Duplicate)
            && (r.Ok? ==> var ids := seq(|items|, i requires 0 <= i < |items| => items[i].0);
                  && Good(r.value, loose + Members(ids), pending)
                  && Distinct(ids) && (forall id :: id in ids ==> id !in db.jobs)
                  && (forall id :: id in db.jobs ==> id in r.value.jobs))
    decreases |items|
  {
    hide Good;
    if items == [] {
      var ids := seq(|items|, i requires 0 <= i < |items| => items[i].0);
      assert loose + Members(ids) == loose;
    } else if items[0].0 !in db.jobs {
      var id := items[0].0;
      var db1 := InsertJob(db, id, NewJob(cfg, items[0].1));
      InsertGood(db, id, NewJob(cfg, items[0].1), loose, pending);
      InsertAllGood(db1, cfg, items[1..], loose + {id}, pending);
      var ids := seq(|items|, i requires 0 <= i < |items| => items[i].0);
      var rest := seq(|items[1..]|, i requires 0 <= i < |items[1..]| => items[1..][i].0);
      assert ids[1..] == rest && ids == [id] + rest;
      MembersSplit(ids, loose);
      if InsertAll(db1, cfg, items[1..]).Ok? {
        DistinctCons(id, rest, db1.jobs);
      }
    }
  }

  lemma DistinctCons(id: JobId, rest: seq<JobId>, jobs: map<JobId, Job>)
    requires id in jobs && Distinct(rest) && forall j :: j in rest ==> j !in jobs
    ensures Distinct([id] + rest)
  {
    var ids := [id] + rest;
    forall i, j | 0 <= i < j < |ids|
      ensures ids[i] != ids[j]
    {
      assert ids[j] == rest[j - 1] && ids[j] in rest;
    }
  }

  /** Decisions are made job by job: each decidable job has one ticket, made from its own columns. */
  lemma {:induction false} TicketsFit(db: Db, tasks: Tasks, ids: seq<JobId>, now: Time)
    requires Distinct(ids) && forall id :: id in ids ==> id in db.jobs
    ensures var ts := Tickets(db, tasks, ids, now);
            && DistinctIds(ts)
            && (forall t :: t in ts ==> t.id in ids && Fits(db, t) && !Undecidable(db, tasks, t.id, now))
            && (forall id :: id in ids && !Undecidable(db, tasks, id, now) ==> id in Ids(ts))
    decreases |ids|
  {
    if ids != [] {
      var (id, rest) := (ids[0], ids[1..]);
      assert id in ids && forall j :: j in rest ==> j in ids && j != id;
      TicketsFit(db, tasks, rest, now);
      var (ts, us) := (Tickets(db, tasks, ids, now), Tickets(db, tasks, rest, now));
      hide Tickets;
      if Undecidable(db, tasks, id, now) {
        assert ts == us by {
          SkipTicket(db, tasks, ids, now);
        }
      } else {
        var t := Ticket(id, Decide(db.jobs[id], tasks, now).value);
        assert ts == [t] + us by {
          SkipTicket(db, tasks, ids, now);
        }
        hide Decide, Undecidable;
        ConsTickets(t, us);
      }
    }
  }

  lemma SkipTicket(db: Db, tasks: Tasks, ids: seq<JobId>, now: Time)
    requires ids != [] && ids[0] in db.jobs
    ensures Tickets(db, tasks, ids, now)
         == (if Undecidable(db, tasks, ids[0], now) then []
             else [Ticket(ids[0], Decide(db.jobs[ids[0]], tasks, now).value)]) + Tickets(db, tasks, ids[1..], now)
  {
  }

  lemma ConsTickets(t: Ticket, us: seq<Ticket>)
    requires DistinctIds(us) && forall u :: u in us ==> u.id != t.id
    ensures DistinctIds([t] + us)
    ensures Ids([t] + us) == {t.id} + Ids(us)
    ensures forall u :: u in [t] + us <==> u == t || u in us
  {
    var ts := [t] + us;
    assert forall i :: 0 <= i < |us| ==> us[i] in us;
    assert forall u :: u in us ==> u in ts;
  }

  lemma EnqueueBulkSound(db: Db, cfg: Config, tasks: Tasks, items: seq<(JobId, Submission)>, now: Time)
    requires Valid(db)
    ensures Sound(EnqueueBulk(db, cfg, tasks, items, now))
  {
    hide Good, Bulk;
    InsertAllGood(db, cfg, items, {}, multiset{});
    var inserted := InsertAll(db, cfg, items);
    if inserted.Ok? {
      var ids := seq(|items|, i requires 0 <= i < |items| => items[i].0);
      assert {} + Members(ids) == Members(ids);
      forall id | id in ids
        ensures id in inserted.value.jobs
      {
        LooseNotLive(inserted.value, Members(ids), multiset{}, id);
      }
      TicketsFit(inserted.value, tasks, ids, now);
      var ts := Tickets(inserted.value, tasks, ids, now);
      BulkGood(inserted.value, ts, now, Members(ids), multiset{});
      AllDecided(inserted.value, cfg, tasks, items, db, now);
      assert Members(ids) - Ids(ts) == {};
    }
  }

  /** New jobs carry their policy with them. */
  lemma {:induction false} AllDecided(
    inserted: Db, cfg: Config, tasks: Tasks, items: seq<(JobId, Submission)>, db: Db, now: Time)
    requires InsertAll(db, cfg, items) == Ok(inserted)
    ensures forall i :: 0 <= i < |items| ==> !Undecidable(inserted, tasks, items[i].0, now)
    ensures forall id :: id in db.jobs ==> id in inserted.jobs && inserted.jobs[id] == db.jobs[id]
    decreases |items|
  {
    if items != [] {
      var db1 := InsertJob(db, items[0].0, NewJob(cfg, items[0].1));
      AllDecided(inserted, cfg, tasks, items[1..], db1, now);
      assert inserted.jobs[items[0].0] == NewJob(cfg, items[0].1);
      forall i | 0 <= i < |items|
        ensures !Undecidable(inserted, tasks, items[i].0, now)
      {
        if i > 0 {
          assert items[i] == items[1..][i - 1];
        }
      }
    }
  }

  // ---------------------------------------------------------------- redispatch

  lemma {:induction false} FailAllGood(
    db: Db, ids: seq<JobId>, now: Time, loose: set<JobId>, pending: multiset<string>)
    requires Good(db, loose, pending) && Distinct(ids) && Members(ids) <= loose
    ensures Good(FailAll(db, ids, now), loose - Members(ids), pending)
    ensures FailAll(db, ids, now).jobs == db.jobs
    decreases |ids|
  {
    hide Good;
    if ids == [] {
      assert loose - Members(ids) == loose;
    } else {
      var (id, rest) := (ids[0], ids[1..]);
      assert id in Members(ids);
      PutFailedGood(db, id, now, loose, pending);
      RestLoose(ids, loose);
      FailAllGood(PutFailed(db, id, now), rest, now, loose - {id}, pending);
    }
  }

  lemma RestLoose(ids: seq<JobId>, loose: set<JobId>)
    requires ids != [] && Distinct(ids) && Members(ids) <= loose
    ensures Members(ids[1..]) <= loose - {ids[0]}
    ensures loose - {ids[0]} - Members(ids[1..]) == loose - Members(ids)
  {
    assert forall id :: id in ids <==> id == ids[0] || id in ids[1..];
    assert ids[0] !in ids[1..];
  }

  lemma {:induction false} KeepDistinct(ids: seq<JobId>, p: JobId -> bool)
    requires Distinct(ids)
    ensures Distinct(Where(ids, p))
    decreases |ids|
  {
    if ids != [] {
      KeepDistinct(ids[1..], p);
      var rest := Where(ids[1..], p);
      if p(ids[0]) {
        var all := [ids[0]] + rest;
        forall i, j | 0 <= i < j < |all|
          ensures all[i] != all[j]
        {
          var x := all[j];
          assert x == rest[j - 1] && x in rest && x in ids[1..];
        }
      }
    }
  }

  lemma RedispatchSound(db: Db, tasks: Tasks, ids: seq<JobId>, isolate: bool, now: Time)
    requires Good(db, Members(ids), multiset{}) && Distinct(ids)
    ensures Sound(Redispatch(db, tasks, ids, isolate, now))
  {
    hide Good, Bulk, FailAll, Tickets;
    forall id | id in ids
      ensures id in db.jobs && !Live(db, id)
    {
      LooseNotLive(db, Members(ids), multiset{}, id);
    }
    var undecidable := (id: JobId) => Undecidable(db, tasks, id, now);
    var failures := Where(ids, undecidable);
    KeepDistinct(ids, undecidable);
    TicketsFit(db, tasks, ids, now);
    var ts := Tickets(db, tasks, ids, now);
    BulkGood(db, ts, now, Members(ids), multiset{});
    assert Members(failures) == Members(ids) - Ids(ts);
    FailAllGood(Bulk(db, ts, now), failures, now, Members(ids) - Ids(ts), multiset{});
    assert Members(ids) - Ids(ts) - Members(failures) == {};
  }

  /** A batch consumed from one table: its jobs are loose, and the slots they held are pending. */
  lemma ConsumedGood(db: Db, table: Table, ids: seq<JobId>)
    requires Valid(db) && Distinct(ids) && forall id :: id in ids ==> Has(db, table, id)
    ensures forall id :: id in ids ==> id in db.jobs && !Live(EvictAll(db, table, ids), id)
    ensures EvictAll(db, table, ids).jobs == db.jobs
    ensures Good(EvictAll(db, table, ids), Members(ids), Freed(table, Bag(JobsOf(db, ids))))
  {
    hide Good, EvictAll, Bag, Has, Freed, Live;
    EvictAllGood(db, table, ids, {}, multiset{});
    assert {} + Members(ids) == Members(ids);
    var bag := Freed(table, Bag(JobsOf(db, ids)));
    assert multiset{} + bag == bag;
    forall id | id in ids
      ensures !Live(EvictAll(db, table, ids), id)
    {
      LooseNotLive(EvictAll(db, table, ids), Members(ids), bag, id);
    }
  }

  /** A batch consumed from a table that holds no slots, then dispatched again. */
  lemma ConsumeAndRedispatchSound(db: Db, tasks: Tasks, table: Table, ids: seq<JobId>, isolate: bool, now: Time)
    requires Valid(db) && Distinct(ids) && (table.Scheduled? || table.Failed?)
    requires forall id :: id in ids ==> Has(db, table, id)
    ensures Sound(Redispatch(EvictAll(db, table, ids), tasks, ids, isolate, now))
  {
    hide Good, Redispatch, EvictAll, Bag;
    ConsumedGood(db, table, ids);
    RedispatchSound(EvictAll(db, table, ids), tasks, ids, isolate, now);
  }

  lemma PromoteScheduledSound(db: Db, cfg: Config, tasks: Tasks, batch: nat, hidden: set<JobId>, now: Time)
    requires Valid(db)
    ensures Sound(PromoteScheduled(db, cfg, tasks, batch, hidden, now))
  {
    hide Good, Redispatch, EvictAll, Batch;
    BatchMembers(DueScheduled(db, cfg, hidden, now), ScheduledColumns(db), batch);
    var ids := Batch(DueScheduled(db, cfg, hidden, now), ScheduledColumns(db), batch);
    ConsumeAndRedispatchSound(db, tasks, Scheduled, ids, true, now);
  }

  /** The scheduled row is gone and the date is cleared; nothing else has changed. */
  lemma ClearedGood(db: Db, id: JobId)
    requires Valid(db) && id in db.scheduled
    ensures id in db.jobs && db.scheduled[id].backend == db.jobs[id].backend
    ensures var evicted := Evict(db, Scheduled, id);
            var cleared := evicted.(jobs := evicted.jobs[id := evicted.jobs[id].(scheduledAt := None)]);
            Good(cleared, {id}, multiset{}) && !Live(cleared, id)
  {
    GoodRow(db, {}, multiset{}, Scheduled, id);
    hide Accounted, OneState;
    EvictGood(db, Scheduled, id, {}, multiset{});
    var evicted := Evict(db, Scheduled, id);
    assert multiset{} + Freed(Scheduled, KeyBag(db.jobs[id])) == multiset{};
    assert {} + {id} == {id};
    RewriteGood(evicted, id, evicted.jobs[id].(scheduledAt := None), {id}, multiset{});
  }

  lemma DispatchNowSound(db: Db, cfg: Config, tasks: Tasks, id: JobId, hidden: set<JobId>, now: Time)
    requires Valid(db)
    ensures Sound(DispatchNow(db, cfg, tasks, id, hidden, now))
  {
    hide Good, DispatchOne;
    if id in db.scheduled {
      ClearedGood(db, id);
      var evicted := Evict(db, Scheduled, id);
      var cleared := evicted.(jobs := evicted.jobs[id := evicted.jobs[id].(scheduledAt := None)]);
      if Decide(cleared.jobs[id], tasks, now).Ok? {
        DispatchOneGood(cleared, Ticket(id, Decide(cleared.jobs[id], tasks, now).value), now, {id}, multiset{});
        assert {id} - {id} == {};
      }
    }
  }

  lemma RewriteOneState(db: Db, id: JobId, job: Job, loose: set<JobId>)
    requires OneState(db, loose) && id in db.jobs && job.finishedAt == db.jobs[id].finishedAt
    ensures OneState(db.(jobs := db.jobs[id := job]), loose)
  {
    var after := db.(jobs := db.jobs[id := job]);
    assert forall j :: j in db.jobs ==> StateCount(after, j) == StateCount(db, j);
    assert forall j :: Live(after, j) <==> Live(db, j);
  }

  /** Columns that no state row repeats and no count reads can be rewritten. */
  lemma RewriteGood(db: Db, id: JobId, job: Job, loose: set<JobId>, pending: multiset<string>)
    requires Good(db, loose, pending) && id in db.jobs
    requires var j := db.jobs[id];
             job.backend == j.backend && job.queue == j.queue && job.priority == j.priority && job.key == j.key
             && job.finishedAt == j.finishedAt
    ensures Good(db.(jobs := db.jobs[id := job]), loose, pending)
  {
    hide OneState, Accounted;
    RewriteOneState(db, id, job, loose);
    AccountedFrame(db, db.(jobs := db.jobs[id := job]), pending);
  }

  lemma RetryFailedSound(
    db: Db, cfg: Config, tasks: Tasks, only: Option<set<JobId>>, batch: nat, hidden: set<JobId>, now: Time)
    requires Valid(db)
    ensures Sound(RetryFailed(db, cfg, tasks, only, batch, hidden, now))
  {
    hide Good, Redispatch, EvictAll, Batch;
    var eligible := set id | id in FailedOf(db, cfg, hidden) && (only.Some? ==> id in only.value);
    BatchMembers(eligible, FailedColumns(db), batch);
    ConsumeAndRedispatchSound(db, tasks, Failed, Batch(eligible, FailedColumns(db), batch), true, now);
  }

  lemma RetryOneSound(db: Db, cfg: Config, tasks: Tasks, id: JobId, now: Time)
    requires Valid(db)
    ensures Sound(RetryOne(db, cfg, tasks, id, now))
  {
    hide Good, Redispatch;
    if id in db.failed {
      assert EvictAll(db, Failed, [id]) == Evict(db, Failed, id);
      ConsumeAndRedispatchSound(db, tasks, Failed, [id], false, now);
    }
  }

  lemma PromoteRetriesSound(db: Db, cfg: Config, tasks: Tasks, batch: nat, hidden: set<JobId>, now: Time)
    requires Valid(db)
    ensures Sound(PromoteRetries(db, cfg, tasks, batch, hidden, now))
  {
    hide Good, Redispatch, EvictAll, Batch;
    var due := set id | id in FailedOf(db, cfg, hidden) && db.failed[id].retryAt.Some? && db.failed[id].retryAt.value <= now;
    BatchMembers(due, RetryColumns(db), batch);
    ConsumeAndRedispatchSound(db, tasks, Failed, Batch(due, RetryColumns(db), batch), true, now);
  }

  lemma ScheduleRetrySound(db: Db, cfg: Config, id: JobId, at: Time)
    requires Valid(db)
    ensures Sound(ScheduleRetry(db, cfg, id, at))
  {
    if id in FailedOf(db, cfg, {}) {
      var after := db.(failed := db.failed[id := db.failed[id].(retryAt := Some(at))]);
      SameShapeGood(db, after, {}, multiset{});
    }
  }

  /** Neither membership of a table, nor a job, nor a copied column, nor a count has changed. */
  lemma SameShapeGood(a: Db, b: Db, loose: set<JobId>, pending: multiset<string>)
    requires Good(a, loose, pending)
    requires b.jobs == a.jobs && b.semaphores == a.semaphores && b.forgotten == a.forgotten
    requires b.ready == a.ready && b.scheduled == a.scheduled
    requires b.claimed.Keys == a.claimed.Keys && b.failed.Keys == a.failed.Keys && b.blocked.Keys == a.blocked.Keys
    requires forall id :: id in a.blocked ==> b.blocked[id] == a.blocked[id].(expiresAt := b.blocked[id].expiresAt)
    ensures Good(b, loose, pending)
  {
    assert OneState(b, loose) by {
      assert forall id :: Live(b, id) <==> Live(a, id);
      assert forall id :: id in a.jobs ==> StateCount(b, id) == StateCount(a, id);
    }
    hide OneState, Accounted;
    AccountedFrame(a, b, pending);
  }

  // ---------------------------------------------------------------- claim

  lemma {:induction false} ClaimAllGood(
    db: Db, ids: seq<JobId>, process: Option<ProcessId>, loose: set<JobId>, pending: multiset<string>)
    requires Good(db, loose, pending) && Distinct(ids) && forall id :: id in ids ==> id in db.ready
    ensures Good(ClaimAll(db, ids, process), loose, pending)
    decreases |ids|
  {
    hide Good;
    if ids != [] {
      var (id, rest) := (ids[0], ids[1..]);
      assert id in ids;
      GoodRow(db, loose, pending, Ready, id);
      EvictGood(db, Ready, id, loose, pending);
      var evicted := Evict(db, Ready, id);
      PutClaimedGood(evicted, id, process, loose + {id}, pending + KeyBag(db.jobs[id]));
      assert loose + {id} - {id} == loose;
      assert pending + KeyBag(db.jobs[id]) - KeyBag(db.jobs[id]) == pending;
      forall j | j in rest
        ensures j in PutClaimed(evicted, id, process).ready
      {
        assert j in ids && j != id;
      }
      ClaimAllGood(PutClaimed(evicted, id, process), rest, process, loose, pending);
    }
  }

  lemma ClaimSound(
    db: Db, cfg: Config, queues: Queues, limit: nat, process: Option<ProcessId>, hidden: set<JobId>, paused: set<string>)
    requires Valid(db)
    ensures Sound(Claim(db, cfg, queues, limit, process, hidden, paused))
  {
    hide Good, Query, ClaimAll;
    var selectors := SelectorsOf(queues);
    var visible := Visible(db, cfg, hidden);
    QueryMembers(db.ready, RankBy(db.ready, selectors), Matching(db.ready, selectors, visible), limit);
    var rows := Selection(db.ready, selectors, visible, limit);
    forall id | id in rows
      ensures id in db.jobs && db.jobs[id].backend == cfg.backend && !Live(Evict(db, Ready, id), id)
    {
      GoodRow(db, {}, multiset{}, Ready, id);
      GoodReady(db, {}, multiset{}, id);
    }
    KeepDistinct(rows, (id: JobId) => id in db.ready && db.ready[id].queue !in paused);
    ClaimAllGood(db, ClaimedIds(db, cfg, queues, limit, hidden, paused), process, {}, multiset{});
  }

  lemma GoodReady(db: Db, loose: set<JobId>, pending: multiset<string>, id: JobId)
    requires Good(db, loose, pending) && id in db.ready && id in db.jobs
    ensures db.ready[id].backend == db.jobs[id].backend
  {
  }

  // ---------------------------------------------------------------- complete, fail, discard

  lemma CompleteSound(db: Db, cfg: Config, tasks: Tasks, id: JobId, hidden: set<JobId>, now: Time)
    requires Valid(db)
    ensures Sound(CompleteClaimed(db, cfg, tasks, id, hidden, now))
    ensures id in db.claimed && id in db.jobs && db.jobs[id].backend == cfg.backend ==>
              CompleteClaimed(db, cfg, tasks, id, hidden, now).Ok?
  {
    hide Good, ReleaseSlot;
    if id in db.claimed {
      GoodRow(db, {}, multiset{}, Claimed, id);
      EvictGood(db, Claimed, id, {}, multiset{});
      var evicted := Evict(db, Claimed, id);
      var bag := KeyBag(db.jobs[id]);
      assert {} + {id} == {id} && {id} - {id} == {};
      assert multiset{} + Freed(Claimed, bag) == bag && bag - bag == multiset{};
      FinishGood(evicted, id, now, {id}, bag);
      DeleteGood(evicted, id, {id}, bag);
      var done := if cfg.preserveFinished then SetFinished(evicted, id, Some(now)) else DeleteJob(evicted, id);
      ReleaseSlotGood(done, cfg, tasks, db.jobs[id], hidden, now, {}, bag);
    }
  }

  lemma FailSound(db: Db, cfg: Config, tasks: Tasks, id: JobId, hidden: set<JobId>, now: Time)
    requires Valid(db)
    ensures Sound(FailClaimed(db, cfg, tasks, id, hidden, now))
    ensures id in db.claimed && id in db.jobs && db.jobs[id].backend == cfg.backend ==>
              FailClaimed(db, cfg, tasks, id, hidden, now).Ok?
  {
    hide Good, ReleaseSlot;
    if id in db.claimed {
      GoodRow(db, {}, multiset{}, Claimed, id);
      EvictGood(db, Claimed, id, {}, multiset{});
      var evicted := Evict(db, Claimed, id);
      var bag := KeyBag(db.jobs[id]);
      assert {} + {id} == {id} && {id} - {id} == {};
      assert multiset{} + Freed(Claimed, bag) == bag && bag - bag == multiset{};
      PutFailedGood(evicted, id, now, {id}, bag);
      ReleaseSlotGood(PutFailed(evicted, id, now), cfg, tasks, db.jobs[id], hidden, now, {}, bag);
    }
  }

  lemma {:induction false} DeleteAllGood(db: Db, ids: seq<JobId>, loose: set<JobId>, pending: multiset<string>)
    requires Good(db, loose, pending) && Distinct(ids)
    requires forall id :: id in ids ==> id in db.jobs && !Live(db, id)
    ensures Good(DeleteAll(db, ids), loose - Members(ids), pending)
    decreases |ids|
  {
    hide Good;
    if ids == [] {
      assert loose - Members(ids) == loose;
    } else {
      var (id, rest) := (ids[0], ids[1..]);
      assert id in ids;
      DeleteGood(db, id, loose, pending);
      forall j | j in rest
        ensures j in DeleteJob(db, id).jobs && !Live(DeleteJob(db, id), j)
      {
        assert j in ids && j != id;
      }
      DeleteAllGood(DeleteJob(db, id), rest, loose - {id}, pending);
      assert forall j :: j in ids <==> j == id || j in rest;
      assert loose - {id} - Members(rest) == loose - Members(ids);
    }
  }

  lemma DiscardableRow(db: Db, cfg: Config, table: Table, id: JobId, queue: Option<string>)
    requires Owned(db) && id in db.jobs && Discardable(db, cfg, table, id, queue)
    ensures Has(db, table, id) && db.jobs[id].backend == cfg.backend
  {
  }

  lemma DiscardIdsMembers(
    db: Db, cfg: Config, table: Table, only: Option<set<JobId>>, queue: Option<string>, batch: nat, hidden: set<JobId>)
    requires Valid(db)
    ensures var ids := DiscardIds(db, cfg, table, only, queue, batch, hidden);
            Distinct(ids) && forall id :: id in ids ==> Has(db, table, id) && id in db.jobs && db.jobs[id].backend == cfg.backend
  {
    var eligible := set id | id in db.jobs && id !in hidden && Discardable(db, cfg, table, id, queue)
                             && (only.Some? ==> id in only.value);
    hide Batch, Accounted, OneState, Owned, Has, Discardable;
    BatchMembers(eligible, RowColumns(db, table), batch);
    forall id | id in eligible
      ensures Has(db, table, id) && db.jobs[id].backend == cfg.backend
    {
      DiscardableRow(db, cfg, table, id, queue);
    }
  }

  lemma ConsumeAndDeleteGood(db: Db, table: Table, ids: seq<JobId>)
    requires Valid(db) && Distinct(ids) && forall id :: id in ids ==> Has(db, table, id)
    ensures forall id :: id in ids ==> id in db.jobs && !Live(EvictAll(db, table, ids), id)
    ensures Good(DeleteAll(EvictAll(db, table, ids), ids), {}, Freed(table, Bag(JobsOf(db, ids))))
  {
    hide Good, EvictAll, DeleteAll, Bag, Has, Freed, Live;
    ConsumedGood(db, table, ids);
    DeleteAllGood(EvictAll(db, table, ids), ids, Members(ids), Freed(table, Bag(JobsOf(db, ids))));
    assert Members(ids) - Members(ids) == {};
  }

  lemma DiscardSound(
    db: Db, cfg: Config, tasks: Tasks, table: Table, only: Option<set<JobId>>, queue: Option<string>, batch: nat,
    hidden: set<JobId>, now: Time)
    requires Valid(db)
    ensures Sound(DiscardRows(db, cfg, tasks, table, only, queue, batch, hidden, now))
  {
    hide Good, DiscardIds, EvictAll, DeleteAll, ReleaseSlots, Bag, Has, Live;
    DiscardIdsMembers(db, cfg, table, only, queue, batch, hidden);
    var ids := DiscardIds(db, cfg, table, only, queue, batch, hidden);
    ConsumeAndDeleteGood(db, table, ids);
    if table.Ready? {
      var bag := Bag(JobsOf(db, ids));
      assert multiset{} + bag == bag;
      ReleaseSlotsGood(DeleteAll(EvictAll(db, table, ids), ids), cfg, tasks, JobsOf(db, ids), hidden, now, {}, multiset{});
    }
  }

  // ---------------------------------------------------------------- crash recovery

  /** `n` slots of one key. */
  function Times(key: string, n: nat): multiset<string> {
    multiset{}[key := n]
  }

  lemma {:induction false} BagOfKey(jobs: seq<Job>, key: string)
    ensures var group := KeepJobs(jobs, key, true);
            Bag(group) == Times(key, |group|)
    decreases |jobs|
  {
    if jobs == [] {
      assert Bag([]) == Times(key, 0);
    } else {
      BagOfKey(jobs[1..], key);
      var rest := KeepJobs(jobs[1..], key, true);
      if jobs[0].key == Some(key) {
        BagCons(jobs[0], rest);
        hide Bag;
        assert multiset{key} + Times(key, |rest|) == Times(key, |rest| + 1);
        assert KeepJobs(jobs, key, true) == [jobs[0]] + rest;
      } else {
        assert KeepJobs(jobs, key, true) == rest;
      }
    }
  }

  lemma BagCons(job: Job, jobs: seq<Job>)
    ensures Bag([job] + jobs) == KeyBag(job) + Bag(jobs)
  {
    assert ([job] + jobs)[1..] == jobs;
  }

  /** A list of jobs' slots are the slots of one key and the slots of the others. */
  lemma {:induction false} BagSplit(jobs: seq<Job>, key: string)
    ensures Bag(jobs) == Bag(KeepJobs(jobs, key, true)) + Bag(KeepJobs(jobs, key, false))
    decreases |jobs|
  {
    if jobs == [] {
      assert KeepJobs(jobs, key, true) == [] && KeepJobs(jobs, key, false) == [];
    } else {
      var rest := jobs[1..];
      BagSplit(rest, key);
      var same := jobs[0].key == Some(key);
      assert KeepJobs(jobs, key, same) == [jobs[0]] + KeepJobs(rest, key, same);
      assert KeepJobs(jobs, key, !same) == KeepJobs(rest, key, !same);
      BagCons(jobs[0], KeepJobs(rest, key, same));
      assert Bag(jobs) == KeyBag(jobs[0]) + Bag(rest);
      hide Bag, KeyBag, KeepJobs;
    }
  }

  lemma {:induction false} BagConcat(xs: seq<Job>, ys: seq<Job>)
    ensures Bag(xs + ys) == Bag(xs) + Bag(ys)
    decreases |xs|
  {
    if xs == [] {
      assert xs + ys == ys;
    } else {
      assert (xs + ys)[1..] == xs[1..] + ys;
      BagConcat(xs[1..], ys);
    }
  }

  lemma KeepFirst(jobs: seq<Job>, key: string)
    requires jobs != [] && jobs[0].key == Some(key)
    ensures |KeepJobs(jobs, key, true)| >= 1
    ensures KeepJobs(jobs, key, false) == KeepJobs(jobs[1..], key, false)
  {
  }

  lemma MoveGroup(all: multiset<string>, group: multiset<string>, rest: multiset<string>, left: multiset<string>)
    requires all == group + rest
    ensures rest + (left + group) == all + left
  {
  }

  lemma TakeOutGroup(all: multiset<string>, other: multiset<string>, key: string, n: nat, rest: multiset<string>)
    requires all == Times(key, n) + rest
    ensures var bag := all + other;
            n <= bag[key] && bag[key := bag[key] - n] == rest + other
  {
  }

  /** All pending slots are settled but those of the jobs left over. */
  ghost predicate Recovered(db: Db, r: Result<(Db, seq<Job>)>, loose: set<JobId>) {
    r.Ok? && Good(r.value.0, loose, Bag(r.value.1)) && r.value.0.jobs == db.jobs
  }

  lemma {:induction false} ReleaseRecoveredGood(
    db: Db, cfg: Config, tasks: Tasks, jobs: seq<Job>, leftover: seq<Job>, hidden: set<JobId>, now: Time,
    loose: set<JobId>)
    requires Good(db, loose, Bag(jobs) + Bag(leftover))
    ensures Recovered(db, ReleaseRecovered(db, cfg, tasks, jobs, leftover, hidden, now), loose)
    decreases |jobs|, 1
  {
    hide Good, ReleaseGroupOf, GroupSettings, KeepJobs;
    if jobs == [] {
      assert Bag(jobs) + Bag(leftover) == Bag(leftover);
    } else if jobs[0].key.None? {
      assert Bag(jobs) == Bag(jobs[1..]);
      ReleaseRecoveredGood(db, cfg, tasks, jobs[1..], leftover, hidden, now, loose);
    } else {
      hide Recovered, ReleaseRecovered;
      ReleaseFirstGroupGood(db, cfg, tasks, jobs, leftover, hidden, now, loose);
    }
  }

  lemma {:induction false} ReleaseFirstGroupGood(
    db: Db, cfg: Config, tasks: Tasks, jobs: seq<Job>, leftover: seq<Job>, hidden: set<JobId>, now: Time,
    loose: set<JobId>)
    requires jobs != [] && jobs[0].key.Some?
    requires Good(db, loose, Bag(jobs) + Bag(leftover))
    ensures Recovered(db, ReleaseRecovered(db, cfg, tasks, jobs, leftover, hidden, now), loose)
    decreases |jobs|, 0
  {
    hide Good, ReleaseGroupOf, GroupSettings, KeepJobs, Times, Bag;
    var key := jobs[0].key.value;
    var (group, rest) := (KeepJobs(jobs, key, true), KeepJobs(jobs[1..], key, false));
    KeepFirst(jobs, key);
    BagSplit(jobs, key);
    BagOfKey(jobs, key);
    match GroupSettings(db, cfg, tasks, group, key)
    case None =>
      BagConcat(leftover, group);
      MoveGroup(Bag(jobs), Bag(group), Bag(rest), Bag(leftover));
      ReleaseRecoveredGood(db, cfg, tasks, rest, leftover + group, hidden, now, loose);
    case Some(settings) =>
      TakeOutGroup(Bag(jobs), Bag(leftover), key, |group|, Bag(rest));
      ReleaseGroupGood(
        db, cfg, key, |group|, settings.0, settings.1, hidden, now, loose, Bag(jobs) + Bag(leftover));
      var released := ReleaseGroupOf(db, cfg, key, |group|, settings.0, settings.1, hidden, now).value;
      ReleaseRecoveredGood(released, cfg, tasks, rest, leftover, hidden, now, loose);
  }

  lemma {:induction false} BagKeyed(jobs: seq<Job>)
    ensures Bag(Where(jobs, HasKey)) == Bag(jobs)
    decreases |jobs|
  {
    if jobs != [] {
      BagKeyed(jobs[1..]);
      WhereHead(jobs, HasKey);
      if jobs[0].key.Some? {
        BagCons(jobs[0], Where(jobs[1..], HasKey));
      }
    }
  }

  /** The claims are gone, their jobs failed, and the slots they held are pending. */
  lemma ConsumeAndFailGood(db: Db, ids: seq<JobId>, now: Time)
    requires Valid(db) && Distinct(ids) && forall id :: id in ids ==> id in db.claimed
    ensures forall id :: id in ids ==> id in db.jobs && !Live(EvictAll(db, Claimed, ids), id)
    ensures Good(FailAll(EvictAll(db, Claimed, ids), ids, now), {}, Bag(Where(JobsOf(db, ids), HasKey)) + Bag([]))
  {
    assert forall id :: id in ids ==> Has(db, Claimed, id);
    ConsumedGood(db, Claimed, ids);
    var bag := Bag(JobsOf(db, ids));
    assert Freed(Claimed, bag) == bag;
    BagKeyed(JobsOf(db, ids));
    assert bag + Bag([]) == bag;
    hide Good, EvictAll, FailAll, Bag, Has, Freed, Live;
    FailAllGood(EvictAll(db, Claimed, ids), ids, now, Members(ids), bag);
    assert Members(ids) - Members(ids) == {};
  }

  lemma FailClaimedBatchSound(db: Db, cfg: Config, tasks: Tasks, ids: seq<JobId>, hidden: set<JobId>, now: Time)
    requires Valid(db)
    ensures Sound(FailClaimedBatch(db, cfg, tasks, ids, hidden, now))
  {
    hide Good, EvictAll, FailAll, ReleaseRecovered, ReleaseSlots, Live, Bag;
    if Distinct(ids) && forall id :: id in ids ==> id in db.claimed && id in db.jobs {
      ConsumeAndFailGood(db, ids, now);
      var failed := FailAll(EvictAll(db, Claimed, ids), ids, now);
      ReleaseRecoveredGood(failed, cfg, tasks, Where(JobsOf(db, ids), HasKey), [], hidden, now, {});
      var (recovered, leftover) := ReleaseRecovered(failed, cfg, tasks, Where(JobsOf(db, ids), HasKey), [], hidden, now).value;
      assert multiset{} + Bag(leftover) == Bag(leftover);
      ReleaseSlotsGood(recovered, cfg, tasks, leftover, hidden, now, {}, multiset{});
    }
  }

  lemma FailOrphanedSound(db: Db, cfg: Config, tasks: Tasks, batch: nat, hidden: set<JobId>, now: Time)
    requires Valid(db)
    ensures Sound(FailOrphaned(db, cfg, tasks, batch, hidden, now))
  {
    hide Good, FailClaimedBatch, Batch;
    var orphans := set id | id in db.claimed && id !in hidden && db.claimed[id].process.None?
                            && id in db.jobs && db.jobs[id].backend == cfg.backend;
    FailClaimedBatchSound(db, cfg, tasks, Batch(orphans, ClaimedColumns(db), batch), hidden, now);
  }

  lemma FailForProcessSound(db: Db, cfg: Config, tasks: Tasks, process: ProcessId, hidden: set<JobId>, now: Time)
    requires Valid(db)
    ensures Sound(FailForProcess(db, cfg, tasks, process, hidden, now))
  {
    hide Good, FailClaimedBatch, Batch;
    var claims := ClaimsOf(db, process);
    FailClaimedBatchSound(db, cfg, tasks, Batch(claims, ClaimedColumns(db), |claims|), hidden, now);
  }

  lemma DeleteProcessValid(db: Db, process: ProcessId)
    requires Valid(db)
    ensures Valid(DeleteProcess(db, process))
  {
    hide Good;
    SameShapeGood(db, DeleteProcess(db, process), {}, multiset{});
  }

  lemma {:induction false} PruneEachSound(
    db: Db, cfg: Config, tasks: Tasks, processes: seq<ProcessId>, cutoff: Time, remaining: nat, hidden: set<JobId>,
    now: Time)
    requires Valid(db)
    ensures Sound(PruneEach(db, cfg, tasks, processes, cutoff, remaining, hidden, now))
    decreases |processes|
  {
    hide Good, FailClaimedBatch, DeleteProcess, Batch;
    if processes != [] {
      if !Stale(db, cfg, processes[0], cutoff) {
        PruneEachSound(db, cfg, tasks, processes[1..], cutoff, remaining, hidden, now);
      } else {
        var ids := Batch(ClaimsOf(db, processes[0]), ClaimedColumns(db), remaining);
        DeleteProcessValid(db, processes[0]);
        FailClaimedBatchSound(DeleteProcess(db, processes[0]), cfg, tasks, ids, hidden, now);
        var pruned := FailClaimedBatch(DeleteProcess(db, processes[0]), cfg, tasks, ids, hidden, now);
        if pruned.Ok? && |ids| < remaining {
          PruneEachSound(pruned.value, cfg, tasks, processes[1..], cutoff, remaining - |ids|, hidden, now);
        }
      }
    }
  }

  lemma PruneStaleSound(
    db: Db, cfg: Config, tasks: Tasks, cutoff: Time, exclude: Option<ProcessId>, batch: nat,
    hiddenProcesses: set<ProcessId>, hidden: set<JobId>, now: Time)
    requires Valid(db)
    ensures Sound(PruneStale(db, cfg, tasks, cutoff, exclude, batch, hiddenProcesses, hidden, now))
  {
    hide Good, PruneEach, Batch;
    var stale := set p | p in db.processes && p !in hiddenProcesses && Some(p) != exclude && Stale(db, cfg, p, cutoff);
    PruneEachSound(db, cfg, tasks, Batch(stale, StaleColumns(db), batch), cutoff, batch, hidden, now);
  }

  // ---------------------------------------------------------------- maintenance

  lemma CleanupValid(db: Db, locked: set<string>, now: Time)
    requires Valid(db)
    ensures Valid(CleanupSemaphores(db, locked, now))
  {
    var after := CleanupSemaphores(db, locked, now);
    assert OneState(after, {}) by {
      assert forall id :: Live(after, id) <==> Live(db, id);
      assert forall id :: id in db.jobs ==> StateCount(after, id) == StateCount(db, id);
    }
    hide OneState, Owned;
    forall key | key !in after.forgotten
      ensures Tables.Slots(after, key) == |Holders(after, key)| + multiset{}[key]
    {
      assert Holders(after, key) == Holders(db, key);
      assert key !in db.forgotten ==> Tables.Slots(db, key) == |Holders(db, key)| + multiset{}[key];
    }
  }

  /** The row repeats the columns of the job it blocks. */
  predicate RowFits(db: Db, id: JobId, row: BlockedRow) {
    id in db.jobs
    && var job := db.jobs[id];
       row.backend == job.backend && row.queue == job.queue && row.priority == job.priority && job.key == Some(row.key)
  }

  lemma ExpireFailedGood(
    db: Db, tasks: Tasks, id: JobId, row: BlockedRow, consumed: bool, now: Time, loose: set<JobId>,
    pending: multiset<string>)
    requires Good(db, loose, pending) && RowFits(db, id, row) && Settings(db.jobs[id], tasks).Err?
    requires if consumed then id in loose else id in db.blocked
    ensures Expired(db, ExpireOne(db, tasks, id, row, consumed, now), id, consumed, loose, pending)
  {
    hide Good;
    LooseAfter(db, id, consumed, loose, pending);
    var evicted := if consumed then db else Evict(db, Blocked, id);
    PutFailedGood(evicted, id, now, loose + {id}, pending);
    assert loose + {id} - {id} == if consumed then loose - {id} else loose;
  }

  lemma ExpireRenewedGood(taken: Db, id: JobId, expiresAt: Time, loose: set<JobId>, pending: multiset<string>)
    requires Good(taken, loose, pending) && id in taken.blocked
    ensures Good(taken.(blocked := taken.blocked[id := taken.blocked[id].(expiresAt := expiresAt)]), loose, pending)
  {
    hide Good;
    SameShapeGood(taken, taken.(blocked := taken.blocked[id := taken.blocked[id].(expiresAt := expiresAt)]), loose, pending);
  }

  /** What handling one expired row leaves behind. */
  ghost predicate Expired(
    db: Db, r: Result<Db>, id: JobId, consumed: bool, loose: set<JobId>, pending: multiset<string>)
  {
    && r.Ok? && r.value.jobs == db.jobs
    && Good(r.value, if consumed then loose - {id} else loose, pending)
    && (forall j :: j in db.blocked && j != id ==> j in r.value.blocked)
  }

  lemma ExpireOneGood(
    db: Db, tasks: Tasks, id: JobId, row: BlockedRow, consumed: bool, now: Time, loose: set<JobId>,
    pending: multiset<string>)
    requires Good(db, loose, pending) && RowFits(db, id, row)
    requires if consumed then id in loose else id in db.blocked
    ensures Expired(db, ExpireOne(db, tasks, id, row, consumed, now), id, consumed, loose, pending)
  {
    hide Good, Acquire, Live, Expired, ExpireOne;
    if Settings(db.jobs[id], tasks).Err? {
      ExpireFailedGood(db, tasks, id, row, consumed, now, loose, pending);
    } else {
      ExpireContendedGood(db, tasks, id, row, consumed, now, loose, pending);
    }
  }

  lemma ExpireContendedGood(
    db: Db, tasks: Tasks, id: JobId, row: BlockedRow, consumed: bool, now: Time, loose: set<JobId>,
    pending: multiset<string>)
    requires Good(db, loose, pending) && RowFits(db, id, row) && Settings(db.jobs[id], tasks).Ok?
    requires if consumed then id in loose else id in db.blocked
    ensures Expired(db, ExpireOne(db, tasks, id, row, consumed, now), id, consumed, loose, pending)
  {
    hide Good, Acquire, Live, Settings, ExpireOne, Expired;
    var p := Settings(db.jobs[id], tasks).value;
    AcquireSlotGood(db, row.key, p.limit, p.duration, now, loose, pending);
    var (taken, acquired) := AcquireSlot(db, row.key, p.limit, p.duration, now);
    assert taken.blocked == db.blocked && taken.jobs == db.jobs;
    hide AcquireSlot;
    if acquired {
      var held := pending + multiset{row.key};
      ExpirePlaced(taken, id, row, consumed, true, now + p.duration, loose, held);
      assert held - KeyBag(db.jobs[id]) == pending;
      ExpireCases(db, tasks, id, row, consumed, now, loose, pending);
    } else if consumed {
      ExpirePlaced(taken, id, row, true, false, now + p.duration, loose, pending);
      ExpireCases(db, tasks, id, row, consumed, now, loose, pending);
    } else {
      ExpireRenewedGood(taken, id, now + p.duration, loose, pending);
      ExpireCases(db, tasks, id, row, consumed, now, loose, pending);
    }
  }

  lemma ExpireCases(
    db: Db, tasks: Tasks, id: JobId, row: BlockedRow, consumed: bool, now: Time, loose: set<JobId>,
    pending: multiset<string>)
    requires RowFits(db, id, row) && Settings(db.jobs[id], tasks).Ok?
    requires !consumed ==> id in db.blocked
    requires var p := Settings(db.jobs[id], tasks).value;
             var (taken, acquired) := AcquireSlot(db, row.key, p.limit, p.duration, now);
             var evicted := if consumed then taken else Evict(taken, Blocked, id);
             var after := if acquired then PutReady(evicted, id, row.backend, row.queue, row.priority)
                          else if consumed then PutBlocked(evicted, id, row.(expiresAt := now + p.duration))
                          else taken.(blocked := taken.blocked[id := taken.blocked[id].(expiresAt := now + p.duration)]);
             && (acquired || consumed ==> !Live(evicted, id))
             && Good(after, if consumed then loose - {id} else loose, pending)
    ensures Expired(db, ExpireOne(db, tasks, id, row, consumed, now), id, consumed, loose, pending)
  {
    hide Good, Acquire, Live, Settings;
  }

  lemma LooseAfter(db: Db, id: JobId, consumed: bool, loose: set<JobId>, pending: multiset<string>)
    requires Good(db, loose, pending)
    requires if consumed then id in loose else id in db.blocked
    ensures var evicted := if consumed then db else Evict(db, Blocked, id);
            Good(evicted, loose + {id}, pending) && !Live(evicted, id) && id in db.jobs
    ensures consumed || id !in loose
  {
    hide Good;
    if consumed {
      LooseNotLive(db, loose, pending, id);
      assert loose + {id} == loose;
    } else {
      GoodBlocked(db, loose, pending, id);
      EvictGood(db, Blocked, id, loose, pending);
      assert pending + Freed(Blocked, KeyBag(db.jobs[id])) == pending;
    }
  }

  lemma ExpirePlaced(
    taken: Db, id: JobId, row: BlockedRow, consumed: bool, acquired: bool, expiresAt: Time, loose: set<JobId>,
    held: multiset<string>)
    requires Good(taken, loose, held) && RowFits(taken, id, row)
    requires if consumed then id in loose else id in taken.blocked
    requires acquired ==> row.key in held
    ensures var evicted := if consumed then taken else Evict(taken, Blocked, id);
            && !Live(evicted, id)
            && Good(if acquired then PutReady(evicted, id, row.backend, row.queue, row.priority)
                    else PutBlocked(evicted, id, row.(expiresAt := expiresAt)),
                    if consumed then loose - {id} else loose,
                    if acquired then held - KeyBag(taken.jobs[id]) else held)
  {
    hide Good;
    LooseAfter(taken, id, consumed, loose, held);
    var evicted := if consumed then taken else Evict(taken, Blocked, id);
    assert loose + {id} - {id} == if consumed then loose - {id} else loose;
    if acquired {
      PutReadyGood(evicted, id, loose + {id}, held);
    } else {
      PutBlockedGood(evicted, id, row.(expiresAt := expiresAt), loose + {id}, held);
    }
  }

  lemma {:induction false} ExpireEachGood(
    db: Db, tasks: Tasks, ids: seq<JobId>, rows: map<JobId, BlockedRow>, consumed: bool, now: Time,
    loose: set<JobId>, pending: multiset<string>)
    requires Good(db, loose, pending) && Distinct(ids)
    requires forall id :: id in ids ==> id in rows && RowFits(db, id, rows[id])
    requires if consumed then Members(ids) <= loose else forall id :: id in ids ==> id in db.blocked
    ensures var r := ExpireEach(db, tasks, ids, rows, consumed, now);
            r.Ok? && Good(r.value, if consumed then loose - Members(ids) else loose, pending)
    decreases |ids|
  {
    hide Good, ExpireOne;
    if ids == [] {
      assert loose - Members(ids) == loose;
    } else {
      var (id, rest) := (ids[0], ids[1..]);
      assert id in ids && forall j :: j in rest ==> j in ids && j != id;
      assert consumed ==> id in Members(ids);
      ExpireOneGood(db, tasks, id, rows[id], consumed, now, loose, pending);
      var first := ExpireOne(db, tasks, id, rows[id], consumed, now).value;
      if consumed {
        RestLoose(ids, loose);
      }
      ExpireEachGood(first, tasks, rest, rows, consumed, now, if consumed then loose - {id} else loose, pending);
    }
  }

  lemma PromoteExpiredSound(db: Db, cfg: Config, tasks: Tasks, batch: nat, hidden: set<JobId>, now: Time)
    requires Valid(db)
    ensures Sound(PromoteExpired(db, cfg, tasks, batch, hidden, now))
  {
    hide Good, Batch, EvictAll, ExpireEach, Bag, Live;
    var ids := Batch(ExpiredBlocked(db, cfg, hidden, now), BlockedColumns(db), batch);
    BatchMembers(ExpiredBlocked(db, cfg, hidden, now), BlockedColumns(db), batch);
    forall id | id in ids
      ensures id in db.blocked && RowFits(db, id, db.blocked[id]) && db.jobs[id].backend == cfg.backend
    {
      GoodBlocked(db, {}, multiset{}, id);
    }
    if cfg.family.Sqlite? {
      ConsumedGood(db, Blocked, ids);
      ExpireEachGood(EvictAll(db, Blocked, ids), tasks, ids, db.blocked, true, now, Members(ids), multiset{});
      assert Members(ids) - Members(ids) == {};
    } else {
      ExpireEachGood(db, tasks, ids, db.blocked, false, now, {}, multiset{});
    }
  }

  lemma FinishedNotLive(db: Db, id: JobId)
    requires Valid(db) && id in db.jobs && db.jobs[id].finishedAt.Some?
    ensures !Live(db, id)
  {
    assert StateCount(db, id) == 1;
  }

  lemma ClearFinishedSound(
    db: Db, cfg: Config, cutoff: Time, task: Option<string>, batch: nat, hidden: set<JobId>)
    requires Valid(db)
    ensures Sound(ClearFinished(db, cfg, cutoff, task, batch, hidden))
  {
    hide Good, Batch, Live, DeleteAll;
    var aged := set id | id in db.jobs && id !in hidden && db.jobs[id].backend == cfg.backend
                         && db.jobs[id].finishedAt.Some? && db.jobs[id].finishedAt.value < cutoff
                         && (task.Some? ==> db.jobs[id].taskPath == task.value);
    BatchMembers(aged, FinishedColumns(db), batch);
    var ids := Batch(aged, FinishedColumns(db), batch);
    forall id | id in ids
      ensures id in db.jobs && !Live(db, id)
    {
      FinishedNotLive(db, id);
    }
    DeleteAllGood(db, ids, {}, multiset{});
    assert {} - Members(ids) == {};
  }

  lemma ClearFailedSound(
    db: Db, cfg: Config, cutoff: Time, task: Option<string>, batch: nat, hidden: set<JobId>)
    requires Valid(db)
    ensures Sound(ClearFailed(db, cfg, cutoff, task, batch, hidden))
  {
    hide Good, Batch, EvictAll, DeleteAll, Bag, Live;
    var aged := set id | id in FailedOf(db, cfg, hidden) && db.failed[id].createdAt < cutoff
                         && (task.Some? ==> db.jobs[id].taskPath == task.value);
    BatchMembers(aged, FailureColumns(db), batch);
    ConsumeAndDeleteGood(db, Failed, Batch(aged, FailureColumns(db), batch));
  }
}
