/**
 The status a job reports, the query that finds jobs with two states, and what both say about the
 states a run can reach.
 */
module Status {
  import opened Results
  import opened Tables
  import opened Runs

  /** The relations a job's status is read from, in their order. */
  const Relations: seq<Table> := [Ready, Scheduled, Claimed, Blocked, Failed]

  datatype Status = Invalid | Finished | In(table: Table) | NoState

  function IfHas(db: Db, table: Table, id: JobId): seq<Table> {
    if Has(db, table, id) then [table] else []
  }

  function LiveTables(db: Db, id: JobId): seq<Table> {
    IfHas(db, Ready, id) + IfHas(db, Scheduled, id) + IfHas(db, Claimed, id) + IfHas(db, Blocked, id)
    + IfHas(db, Failed, id)
  }

  function StatusOf(db: Db, id: JobId): Status
    requires id in db.jobs
  {
    var live := LiveTables(db, id);
    if |live| > 1 then Invalid
    else if db.jobs[id].finishedAt.Some? then (if live != [] then Invalid else Finished)
    else if live != [] then In(live[0])
    else NoState
  }

  /** The status is invalid exactly for a job with two states, and missing exactly for one with none. */
  lemma StatusCountsStates(db: Db, id: JobId)
    requires id in db.jobs
    ensures StatusOf(db, id) == Invalid <==> StateCount(db, id) >= 2
    ensures StatusOf(db, id) == NoState <==> StateCount(db, id) == 0
  {
  }

  /** The disjunction over pairs of relations, and of each relation with the finish. */
  method InvalidExecutionState(db: Db, id: JobId) returns (invalid: bool)
    requires id in db.jobs
    ensures invalid <==> StateCount(db, id) >= 2
    ensures invalid <==> StatusOf(db, id) == Invalid
  {
    invalid := false;
    var i := 0;
    while i < |Relations|
      invariant 0 <= i <= |Relations|
      invariant invalid <==> exists a, b :: 0 <= a < i && a < b < |Relations| && Both(db, id, a, b)
    {
      var j := i + 1;
      while j < |Relations|
        invariant i < j <= |Relations|
        invariant invalid <==> (exists a, b :: 0 <= a < i && a < b < |Relations| && Both(db, id, a, b))
                               || exists b :: i < b < j && Both(db, id, i, b)
      {
        invalid := invalid || Both(db, id, i, j);
        j := j + 1;
      }
      i := i + 1;
    }
    ghost var paired := invalid;
    i := 0;
    while i < |Relations|
      invariant 0 <= i <= |Relations|
      invariant invalid <==> paired || (db.jobs[id].finishedAt.Some? && exists a :: 0 <= a < i && Has(db, Relations[a], id))
    {
      invalid := invalid || (db.jobs[id].finishedAt.Some? && Has(db, Relations[i], id));
      i := i + 1;
    }
    PairsCount(db, id);
    StatusCountsStates(db, id);
  }

  predicate Both(db: Db, id: JobId, a: nat, b: nat)
    requires a < |Relations| && b < |Relations|
  {
    Has(db, Relations[a], id) && Has(db, Relations[b], id)
  }

  lemma PairsCount(db: Db, id: JobId)
    requires id in db.jobs
    ensures (exists a, b :: 0 <= a < b < |Relations| && Both(db, id, a, b))
            || (db.jobs[id].finishedAt.Some? && exists a :: 0 <= a < |Relations| && Has(db, Relations[a], id))
       <==> StateCount(db, id) >= 2
  {
    assert Has(db, Relations[0], id) == (id in db.ready) && Has(db, Relations[1], id) == (id in db.scheduled);
    assert Has(db, Relations[2], id) == (id in db.claimed) && Has(db, Relations[3], id) == (id in db.blocked);
    assert Has(db, Relations[4], id) == (id in db.failed);
    forall a, b | 0 <= a < b < |Relations| && Both(db, id, a, b)
      ensures StateCount(db, id) >= 2
    {
    }
    if StateCount(db, id) >= 2 && db.jobs[id].finishedAt.None? {
      var a := if id in db.ready then 0 else if id in db.scheduled then 1 else if id in db.claimed then 2 else 3;
      var b := if id in db.failed then 4 else if id in db.blocked then 3 else if id in db.claimed then 2 else 1;
      assert Both(db, id, a, b);
    }
  }

  /** In every reachable state each job reports the one state it is in. */
  lemma EveryRunReportsOneStatus(steps: seq<Step>, id: JobId)
    requires id in Run(EmptyDb, steps).jobs
    ensures var db := Run(EmptyDb, steps);
            var status := StatusOf(db, id);
            && (status == Finished || status.In?)
            && (status == Finished <==> db.jobs[id].finishedAt.Some?)
            && (forall table :: status == In(table) <==> Has(db, table, id))
  {
    EveryRunKeepsOneState(steps, id);
    hide Run;
    var db := Run(EmptyDb, steps);
    StatusCountsStates(db, id);
  }
}
