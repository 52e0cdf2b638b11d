/** What enqueueing stores about a job. */
module Submissions {
  import opened Results
  import opened Semaphores
  import opened Tables
  import opened Slots
  import opened Dispatch
  import opened Lifecycle
  import opened Outcomes
  import opened Conservation

  /** The job carries what was submitted, and a policy exactly when it contends for a key. */
  predicate StoredAs(job: Job, cfg: Config, s: Submission) {
    && job.backend == cfg.backend && job.taskPath == s.taskPath && job.queue == s.queue && job.priority == s.priority
    && job.scheduledAt == s.runAfter
    && match s.contention
       case None => job.key == None && job.policy == Historical
       case Some(contention) => job.key == Some(contention.0) && job.policy == Persisted(contention.1)
  }

  /** Dispatch leaves all of it. */
  lemma StoredStays(a: Job, b: Job, cfg: Config, s: Submission)
    requires StoredAs(a, cfg, s) && b.(finishedAt := a.finishedAt) == a
    ensures StoredAs(b, cfg, s)
  {
  }

  lemma NewJobIsStored(cfg: Config, s: Submission)
    ensures StoredAs(NewJob(cfg, s), cfg, s)
  {
  }

  /** A new id is stored with what was submitted, and no other job is touched; an id that is there is refused. */
  lemma EnqueueStores(db: Db, cfg: Config, tasks: Tasks, id: JobId, s: Submission, now: Time)
    ensures var r := Enqueue(db, cfg, tasks, id, s, now);
            && (r.Ok? <==> id !in db.jobs)
            && (r.Ok? ==> && r.value.jobs.Keys == db.jobs.Keys + {id} && StoredAs(r.value.jobs[id], cfg, s)
                          && forall j :: j in db.jobs ==> r.value.jobs[j] == db.jobs[j])
  {
    if id !in db.jobs {
      var (inserted, t) := (InsertJob(db, id, NewJob(cfg, s)), Ticket(id, DecisionFor(s, now)));
      EnqueueIsDispatch(db, cfg, tasks, id, s, now);
      DispatchOneKept(inserted, t, now);
      NewJobIsStored(cfg, s);
      hide Enqueue, DispatchOne, NewJob, DecisionFor, StoredAs;
      StoredStays(NewJob(cfg, s), DispatchOne(inserted, t, now).jobs[id], cfg, s);
    }
  }

  /** Ids that are new and differ from one another. */
  predicate NewIdsOnly(db: Db, items: seq<(JobId, Submission)>) {
    && (forall i :: 0 <= i < |items| ==> items[i].0 !in db.jobs)
    && (forall i, j :: 0 <= i < j < |items| ==> items[i].0 != items[j].0)
  }

  lemma {:induction false} InsertAllStores(db: Db, cfg: Config, items: seq<(JobId, Submission)>)
    ensures var r := InsertAll(db, cfg, items);
            && (r.Ok? <==> NewIdsOnly(db, items))
            && (r.Ok? ==> forall i :: 0 <= i < |items| ==>
                  items[i].0 in r.value.jobs && StoredAs(r.value.jobs[items[i].0], cfg, items[i].1))
    decreases |items|
  {
    hide NewJob, StoredAs;
    if items != [] && items[0].0 !in db.jobs {
      var (first, rest) := (InsertJob(db, items[0].0, NewJob(cfg, items[0].1)), items[1..]);
      InsertAllStores(first, cfg, rest);
      InsertAllAdds(first, cfg, rest);
      NewIdsOnlyRest(db, first, items);
      NewJobIsStored(cfg, items[0].1);
      if InsertAll(first, cfg, rest).Ok? {
        forall i | 0 < i < |items|
          ensures var after := InsertAll(first, cfg, rest).value;
                  items[i].0 in after.jobs && StoredAs(after.jobs[items[i].0], cfg, items[i].1)
        {
          assert items[i] == rest[i - 1];
        }
      }
    }
  }

  lemma NewIdsOnlyRest(db: Db, first: Db, items: seq<(JobId, Submission)>)
    requires items != [] && items[0].0 !in db.jobs && first.jobs.Keys == db.jobs.Keys + {items[0].0}
    ensures NewIdsOnly(db, items) <==> NewIdsOnly(first, items[1..])
  {
    var rest := items[1..];
    assert forall i :: 0 <= i < |rest| ==> rest[i] == items[i + 1];
    assert forall i :: 0 < i < |items| ==> items[i] == rest[i - 1];
    if NewIdsOnly(first, rest) {
      forall i, j | 0 <= i < j < |items|
        ensures items[i].0 != items[j].0
      {
        assert items[j] == rest[j - 1];
        assert i > 0 ==> items[i] == rest[i - 1];
      }
    }
  }

  /** A batch of new ids is stored entry by entry, and no other job is touched; otherwise the batch is refused. */
  lemma EnqueueBulkStores(db: Db, cfg: Config, tasks: Tasks, items: seq<(JobId, Submission)>, now: Time)
    ensures var r := EnqueueBulk(db, cfg, tasks, items, now);
            && (r.Ok? <==> NewIdsOnly(db, items))
            && (r.Ok? ==>
                  && (forall i :: 0 <= i < |items| ==>
                        items[i].0 in r.value.jobs && StoredAs(r.value.jobs[items[i].0], cfg, items[i].1))
                  && (forall id :: id in r.value.jobs <==> id in db.jobs || exists i :: 0 <= i < |items| && items[i].0 == id)
                  && (forall id :: id in db.jobs ==> r.value.jobs[id] == db.jobs[id]))
  {
    hide *;
    var r := EnqueueBulk(db, cfg, tasks, items, now);
    InsertAllStores(db, cfg, items);
    InsertAllAdds(db, cfg, items);
    EnqueueBulkConserved(db, cfg, tasks, items, now);
    EnqueueBulkUnfold(db, cfg, tasks, items, now);
    if r.Ok? {
      var inserted := InsertAll(db, cfg, items).value;
      DispatchedStays(db, inserted, r.value, cfg, items);
    }
  }

  lemma EnqueueBulkUnfold(db: Db, cfg: Config, tasks: Tasks, items: seq<(JobId, Submission)>, now: Time)
    ensures var (r, inserted) := (EnqueueBulk(db, cfg, tasks, items, now), InsertAll(db, cfg, items));
            && (r.Ok? <==> inserted.Ok?)
            && (r.Ok? ==> Kept(inserted.value, r.value, NewIds(items)))
  {
    hide Bulk, InsertAll, Tickets, NewIds, Kept;
    var inserted := InsertAll(db, cfg, items);
    if inserted.Ok? {
      var ids := seq(|items|, i requires 0 <= i < |items| => items[i].0);
      var ts := Tickets(inserted.value, tasks, ids, now);
      TicketIds(inserted.value, tasks, ids, now);
      BulkIds(items);
      BulkKept(inserted.value, ts, now);
      KeptMore(inserted.value, Bulk(inserted.value, ts, now), Ids(ts), NewIds(items));
    }
  }

  lemma KeptMore(a: Db, b: Db, first: set<JobId>, second: set<JobId>)
    requires Kept(a, b, first) && first <= second
    ensures Kept(a, b, second)
  {
  }

  lemma KeptJob(a: Db, b: Db, finishing: set<JobId>, id: JobId)
    requires Kept(a, b, finishing) && id in a.jobs
    ensures id in b.jobs && b.jobs[id].(finishedAt := a.jobs[id].finishedAt) == a.jobs[id]
  {
  }

  lemma DispatchedStays(db: Db, inserted: Db, after: Db, cfg: Config, items: seq<(JobId, Submission)>)
    requires Kept(inserted, after, NewIds(items)) && db.jobs.Keys !! NewIds(items)
    requires forall id :: id in db.jobs ==> id in inserted.jobs && inserted.jobs[id] == db.jobs[id]
    requires forall id :: id in inserted.jobs <==> id in db.jobs || id in NewIds(items)
    requires forall i :: 0 <= i < |items| ==>
               items[i].0 in inserted.jobs && StoredAs(inserted.jobs[items[i].0], cfg, items[i].1)
    ensures forall i :: 0 <= i < |items| ==>
              items[i].0 in after.jobs && StoredAs(after.jobs[items[i].0], cfg, items[i].1)
    ensures forall id :: id in after.jobs <==> id in db.jobs || exists i :: 0 <= i < |items| && items[i].0 == id
    ensures forall id :: id in db.jobs ==> after.jobs[id] == db.jobs[id]
  {
    hide StoredAs, NewIds;
    forall i | 0 <= i < |items|
      ensures items[i].0 in after.jobs && StoredAs(after.jobs[items[i].0], cfg, items[i].1)
    {
      KeptJob(inserted, after, NewIds(items), items[i].0);
      StoredStays(inserted.jobs[items[i].0], after.jobs[items[i].0], cfg, items[i].1);
    }
    forall id
      ensures id in NewIds(items) <==> exists i :: 0 <= i < |items| && items[i].0 == id
    {
      NewIdsAre(items, id);
    }
  }

  lemma NewIdsAre(items: seq<(JobId, Submission)>, id: JobId)
    ensures id in NewIds(items) <==> exists i :: 0 <= i < |items| && items[i].0 == id
  {
    if i :| 0 <= i < |items| && items[i].0 == id {
      assert items[i] in items;
    }
  }
}
