/** Synchronising the statically configured recurring tasks of a backend with its rows. */
module RecurringSync {
  import opened Results
  import opened Recurring

  datatype Wanted = Wanted(definition: Definition, schedule: string)

  /** A configured key that is already scheduled dynamically. */
  predicate Clashes(tasks: map<TaskKey, Task>, backend: string, wanted: map<string, Wanted>) {
    exists key :: key in wanted && (backend, key) in tasks && !tasks[(backend, key)].isStatic
  }

  /** The row a configured task must have: its cursor survives exactly if its schedule does. */
  function Row(tasks: map<TaskKey, Task>, k: TaskKey, want: Wanted): Task {
    Task(want.definition, want.schedule, true,
         if k in tasks && tasks[k].schedule == want.schedule then tasks[k].nextRunAt else None)
  }

  predicate Configured(backend: string, wanted: map<string, Wanted>, k: TaskKey) {
    k.0 == backend && k.1 in wanted
  }

  predicate Obsolete(tasks: map<TaskKey, Task>, backend: string, wanted: map<string, Wanted>, k: TaskKey) {
    k in tasks && k.0 == backend && tasks[k].isStatic && k.1 !in wanted
  }

  /** The tables a sync must leave: said of every key separately. */
  ghost predicate Synced(
    before: map<TaskKey, Task>, after: map<TaskKey, Task>, backend: string, wanted: map<string, Wanted>)
  {
    forall k :: if Configured(backend, wanted, k) then k in after && after[k] == Row(before, k, wanted[k.1])
                else if Obsolete(before, backend, wanted, k) then k !in after
                else (k in after <==> k in before) && (k in before ==> after[k] == before[k])
  }

  class TaskTable {
    var tasks: map<TaskKey, Task>

    constructor ()
      ensures tasks == map[]
    {
      tasks := map[];
    }

    /** Missing rows are inserted, then every configured row is compared field by field. */
    method UpdateConfigured(backend: string, keys: seq<string>, wanted: map<string, Wanted>)
      requires forall key :: key in keys <==> key in wanted
      requires forall i, j :: 0 <= i < j < |keys| ==> keys[i] != keys[j]
      requires !Clashes(tasks, backend, wanted)
      modifies this
      ensures forall k :: if Configured(backend, wanted, k) then k in tasks && tasks[k] == Row(old(tasks), k, wanted[k.1])
                          else (k in tasks <==> k in old(tasks)) && (k in tasks ==> tasks[k] == old(tasks)[k])
    {
      ghost var before := tasks;
      for i := 0 to |keys|
        invariant forall k: TaskKey ::
                    if k.0 == backend && k.1 in keys[..i]
                    then k in tasks && k.1 in wanted && tasks[k] == Row(before, k, wanted[k.1])
                    else (k in tasks <==> k in before) && (k in tasks ==> tasks[k] == before[k])
      {
        var key := keys[i];
        assert key in keys && key !in keys[..i];
        assert forall other :: other in keys[..i + 1] <==> other in keys[..i] || other == key;
        var k := (backend, key);
        var want := wanted[key];
        if k !in tasks {
          tasks := tasks[k := Task(want.definition, want.schedule, true, None)];
        } else {
          assert tasks[k].isStatic by {
            assert key in wanted && k in before;
          }
          var row := tasks[k];
          if row.definition != want.definition {
            row := row.(definition := want.definition);
          }
          if row.schedule != want.schedule {
            row := row.(schedule := want.schedule, nextRunAt := None);
          }
          tasks := tasks[k := row];
        }
      }
      assert keys[..|keys|] == keys;
    }

    /** A clash raises before anything is written; otherwise rows no longer configured are deleted last. */
    method ApplyStaticRecurringTasks(backend: string, keys: seq<string>, wanted: map<string, Wanted>)
      returns (r: Result<()>)
      requires forall key :: key in keys <==> key in wanted
      requires forall i, j :: 0 <= i < j < |keys| ==> keys[i] != keys[j]
      modifies this
      ensures r.Err? <==> Clashes(old(tasks), backend, wanted)
      ensures r.Err? ==> tasks == old(tasks)
      ensures r.Ok? ==> Synced(old(tasks), tasks, backend, wanted)
    {
      for i := 0 to |keys|
        invariant forall j :: 0 <= j < i ==> (backend, keys[j]) in tasks ==> tasks[(backend, keys[j])].isStatic
      {
        var key := keys[i];
        assert key in keys;
        if (backend, key) in tasks && !tasks[(backend, key)].isStatic {
          return Err(Conflict);
        }
      }
      UpdateConfigured(backend, keys, wanted);
      tasks := map k | k in tasks && !Obsolete(tasks, backend, wanted, k) :: tasks[k];
      r := Ok(());
    }

    /**
     A dynamic task is written field by field, unless its key is configured or its row is static; a changed schedule
     restarts the cursor.
     */
    method ScheduleRecurringTask(k: TaskKey, want: Wanted, configured: bool) returns (r: Result<()>)
      modifies this
      ensures r.Err? <==> configured || (k in old(tasks) && old(tasks)[k].isStatic)
      ensures r.Err? ==> tasks == old(tasks)
      ensures r.Ok? ==> tasks.Keys == old(tasks).Keys + {k} && !tasks[k].isStatic
                        && (forall other :: other in old(tasks) && other != k ==> tasks[other] == old(tasks)[other])
                        && tasks[k].definition == want.definition && tasks[k].schedule == want.schedule
                        && tasks[k].nextRunAt == if k in old(tasks) && old(tasks)[k].schedule == want.schedule
                                                 then old(tasks)[k].nextRunAt else None
    {
      if configured {
        return Err(Conflict);
      }
      if k !in tasks {
        tasks := tasks[k := Task(want.definition, want.schedule, false, None)];
        return Ok(());
      }
      if tasks[k].isStatic {
        return Err(Conflict);
      }
      var row := tasks[k];
      if row.definition != want.definition {
        row := row.(definition := want.definition);
      }
      if row.schedule != want.schedule {
        row := row.(schedule := want.schedule, nextRunAt := None);
      }
      tasks := tasks[k := row];
      r := Ok(());
    }

    /** Static rows stay. */
    method UnscheduleRecurringTask(k: TaskKey) returns (deleted: nat)
      modifies this
      ensures deleted == 1 <==> k in old(tasks) && !old(tasks)[k].isStatic
      ensures deleted <= 1 && tasks == if deleted == 1 then old(tasks) - {k} else old(tasks)
    {
      deleted := 0;
      if k in tasks && !tasks[k].isStatic {
        tasks, deleted := tasks - {k}, 1;
      }
    }
  }

  /**
   Rows of other backends and dynamic rows stay as they are, static rows no longer configured go, and a configured
   row keeps its cursor exactly if it keeps its schedule.
   */
  lemma SyncOutcome(
    before: map<TaskKey, Task>, after: map<TaskKey, Task>, backend: string, wanted: map<string, Wanted>, k: TaskKey)
    requires Synced(before, after, backend, wanted) && !Clashes(before, backend, wanted)
    ensures k.0 == backend && k.1 in wanted ==>
              && k in after && after[k].isStatic
              && after[k].definition == wanted[k.1].definition && after[k].schedule == wanted[k.1].schedule
              && (k in before && before[k].schedule == wanted[k.1].schedule ==> after[k].nextRunAt == before[k].nextRunAt)
              && (k in before && before[k].schedule != wanted[k.1].schedule ==> after[k].nextRunAt == None)
              && (k !in before ==> after[k].nextRunAt == None)
    ensures k.0 == backend && k.1 !in wanted ==> (k in after <==> k in before && !before[k].isStatic)
    ensures k in after && (k.0 != backend || k.1 !in wanted) ==> k in before && after[k] == before[k]
    ensures k in before && (k.0 != backend || !before[k].isStatic) ==> k in after && after[k] == before[k]
  {
    assert k == (k.0, k.1);
    assert k.0 == backend && k.1 in wanted && k in before ==> before[k].isStatic;
  }

  /** The step that saves a task is what these transactions do to its row. */
  lemma SavedRow(w: World, k: TaskKey, want: Wanted, isStatic: bool)
    ensures var after := Save(w, k, want.definition, want.schedule, isStatic);
            && after == w.(tasks := after.tasks) && after.tasks.Keys == w.tasks.Keys + {k}
            && after.tasks[k] == Row(w.tasks, k, want).(isStatic := isStatic)
            && (forall other :: other in w.tasks && other != k ==> after.tasks[other] == w.tasks[other])
  {
  }

  /** Two tables synced from the same rows are equal. */
  lemma SyncedIsUnique(
    before: map<TaskKey, Task>, a: map<TaskKey, Task>, b: map<TaskKey, Task>, backend: string, wanted: map<string, Wanted>)
    requires Synced(before, a, backend, wanted) && Synced(before, b, backend, wanted)
    ensures a == b
  {
    forall k
      ensures k in a <==> k in b
      ensures k in a ==> a[k] == b[k]
    {
    }
  }

  /** Syncing again changes nothing, and cannot clash. */
  lemma SyncIsIdempotent(
    before: map<TaskKey, Task>, after: map<TaskKey, Task>, again: map<TaskKey, Task>, backend: string,
    wanted: map<string, Wanted>)
    requires Synced(before, after, backend, wanted) && !Clashes(before, backend, wanted)
    ensures !Clashes(after, backend, wanted)
    ensures Synced(after, again, backend, wanted) <==> again == after
  {
    forall key | key in wanted
      ensures (backend, key) in after && after[(backend, key)].isStatic
    {
      assert Configured(backend, wanted, (backend, key));
    }
    assert Synced(after, after, backend, wanted) by {
      forall k
        ensures if Configured(backend, wanted, k) then k in after && after[k] == Row(after, k, wanted[k.1])
                else !Obsolete(after, backend, wanted, k)
      {
      }
    }
    if Synced(after, again, backend, wanted) {
      SyncedIsUnique(after, again, after, backend, wanted);
    }
  }

  /** The backend's static rows are then exactly the configured tasks. */
  lemma StaticRowsAreConfigured(
    before: map<TaskKey, Task>, after: map<TaskKey, Task>, backend: string, wanted: map<string, Wanted>, k: TaskKey)
    requires Synced(before, after, backend, wanted) && k.0 == backend
    ensures k in after && after[k].isStatic <==> k.1 in wanted
    ensures k.1 in wanted ==> after[k].definition == wanted[k.1].definition && after[k].schedule == wanted[k.1].schedule
  {
    assert Configured(backend, wanted, k) <==> k.1 in wanted;
  }
}
