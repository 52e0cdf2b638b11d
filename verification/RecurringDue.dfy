/** Which runs a poll attempts, and that a due task is fired: its latest run is published once and its cursor moves on. */
module RecurringDue {
  import opened Results
  import opened Recurring
  import opened RecurringFiring

  // ---------------------------------------------------------------- what is attempted

  /** A task without a cursor, or with a cursor that has come. */
  predicate CursorDue(w: World, now: Time, key: TaskKey) {
    key in w.tasks && (w.tasks[key].nextRunAt == None || w.tasks[key].nextRunAt.value <= now)
  }

  /** A selected row is this run's. */
  ghost predicate HasPending(w: World, pending: seq<int>, key: TaskKey, runAt: Time) {
    exists pk :: pk in pending && pk in w.executions && w.executions[pk].key == key && w.executions[pk].runAt == runAt
  }

  /** The run of a selected row of a selected task, or the latest run of a due one; or that such a run cannot be found. */
  ghost predicate ToAttempt(host: Host, w: World, now: Time, selected: seq<TaskKey>, pending: seq<int>, a: Attempt) {
    a.key in selected
    && match a
       case Attempt(key, runAt) =>
         HasPending(w, pending, key, runAt) || (CursorDue(w, now, key) && host.latest(w.tasks[key].schedule, now) == Some(runAt))
       case NoDueRun(key) => CursorDue(w, now, key) && host.latest(w.tasks[key].schedule, now) == None
  }

  lemma {:induction false} AttemptedIff(
    host: Host, w: World, now: Time, selected: seq<TaskKey>, pending: seq<int>, a: Attempt)
    ensures a in Attempts(host, w, now, selected, pending) <==> ToAttempt(host, w, now, selected, pending, a)
    decreases |selected|
  {
    if selected != [] {
      PendingOfIff(w, pending, selected[0], a);
      DueOfIff(host, w, now, selected[0], a);
      AttemptedIff(host, w, now, selected[1..], pending, a);
      assert a.key in selected <==> a.key == selected[0] || a.key in selected[1..];
      hide PendingOf, DueOf, HasPending, CursorDue;
    }
  }

  lemma {:induction false} PendingOfIff(w: World, pending: seq<int>, key: TaskKey, a: Attempt)
    ensures a in PendingOf(w, pending, key) <==> a.Attempt? && a.key == key && HasPending(w, pending, key, a.runAt)
    decreases |pending|
  {
    if pending != [] {
      PendingOfIff(w, pending[1..], key, a);
      assert forall pk :: pk in pending <==> pk == pending[0] || pk in pending[1..];
    }
  }

  lemma DueOfIff(host: Host, w: World, now: Time, key: TaskKey, a: Attempt)
    ensures a in DueOf(host, w, now, key) <==>
              a.key == key && CursorDue(w, now, key)
              && host.latest(w.tasks[key].schedule, now) == if a.Attempt? then Some(a.runAt) else None
  {
  }

  // ---------------------------------------------------------------- one reservation

  /**
   A reservation is issued for a run of the schedule that has one after it, if its row is open, or if it has none and
   the cursor is not past it; and then the cursor is past it.
   */
  lemma ReservedIff(host: Host, runs: (string, Time) -> bool, w: World, key: TaskKey, runAt: Time, drawn: JobId)
    requires Lawful(host, runs) && Sound(w)
    ensures var (after, r) := Reserve(host, w, key, runAt, drawn, true);
            r.Some? <==> && key in w.tasks && runs(w.tasks[key].schedule, runAt)
                         && host.next(w.tasks[key].schedule, runAt).Some?
                         && ((exists pk :: IsRow(w, key, runAt, pk) && Open(w.executions[pk]))
                             || ((forall pk :: !IsRow(w, key, runAt, pk)) && !Past(w.tasks[key], runAt)))
    ensures var (after, r) := Reserve(host, w, key, runAt, drawn, true);
            r.Some? ==> key in after.tasks && Past(after.tasks[key], runAt)
                        && r.value.definition == w.tasks[key].definition
                        && IsRow(after, key, runAt, r.value.pk) && Open(after.executions[r.value.pk])
  {
  }

  // ---------------------------------------------------------------- one due run

  /** No row and no job for the run. */
  ghost predicate Unfired(w: World, key: TaskKey, runAt: Time) {
    (forall pk :: !IsRow(w, key, runAt, pk)) && w.published[(key, runAt)] == 0
  }

  /** The latest run of a due task, with another to come, of a definition that can be enqueued. */
  ghost predicate DueRun(host: Host, w: World, key: TaskKey, runAt: Time, now: Time) {
    && key in w.tasks && !Past(w.tasks[key], now) && host.latest(w.tasks[key].schedule, now) == Some(runAt)
    && host.next(w.tasks[key].schedule, runAt).Some? && host.enqueues(w.tasks[key].definition)
  }

  ghost predicate PublishedOnce(w: World, key: TaskKey, runAt: Time) {
    w.published[(key, runAt)] == 1 && exists pk :: IsRow(w, key, runAt, pk) && w.executions[pk].job.Some?
  }

  /** Reserved anew, published, and the cursor moved past now. */
  lemma DueRunFires(
    host: Host, runs: (string, Time) -> bool, w: World, key: TaskKey, runAt: Time, now: Time, drawn: JobId)
    requires Lawful(host, runs) && CursorsRun(runs, w) && Sound(w) && drawn !in w.used
    requires DueRun(host, w, key, runAt, now) && Unfired(w, key, runAt)
    ensures var after := Fire(host, w, key, runAt, drawn);
            && PublishedOnce(after, key, runAt) && key in after.tasks && Past(after.tasks[key], now)
            && drawn in after.jobs && after.jobs[drawn] == w.tasks[key].definition
  {
    FiredTaskIsNotDue(host, runs, w, key, now, drawn);
    var schedule := w.tasks[key].schedule;
    assert runs(schedule, runAt) && runAt <= now by {
      assert IsLatest(runs, schedule, now, runAt);
    }
    assert host.latest(schedule, runAt + 1) == Some(runAt);
    assert drawn !in w.jobs;
    hide Lawful, CursorsRun;
    var (reserved, r) := Reserve(host, w, key, runAt, drawn, true);
    assert r == Some(Reservation(w.nextPk, drawn, w.tasks[key].definition));
    assert reserved.executions[w.nextPk] == Execution(key, runAt, Some(drawn), None);
    var after := Publish(host, reserved, r.value, true);
    assert IsRow(after, key, runAt, w.nextPk) && after.executions[w.nextPk].job.Some?;
  }

  /** Firing another run leaves this one unfired. */
  lemma OtherFires(host: Host, w: World, k: TaskKey, at: Time, drawn: JobId, key: TaskKey, runAt: Time)
    requires Unfired(w, key, runAt) && (k, at) != (key, runAt)
    ensures Unfired(Fire(host, w, k, at, drawn), key, runAt)
  {
    var (reserved, r) := Reserve(host, w, k, at, drawn, true);
    IssuedIsOpen(host, w, k, at, drawn);
    assert Unfired(reserved, key, runAt) by {
      ReservePublishesNothing(host, w, k, at, drawn, true);
      forall pk
        ensures !IsRow(reserved, key, runAt, pk)
      {
        assert !IsRow(w, key, runAt, pk);
        hide Find;
      }
    }
    if r.Some? {
      hide Reserve;
      var after := Publish(host, reserved, r.value, true);
      forall pk
        ensures !IsRow(after, key, runAt, pk)
      {
        assert !IsRow(reserved, key, runAt, pk);
      }
    }
  }

  /** A run that is published once stays so, whatever is fired. */
  lemma StaysPublished(host: Host, w: World, k: TaskKey, at: Time, drawn: JobId, key: TaskKey, runAt: Time)
    requires Sound(w) && drawn !in w.used && PublishedOnce(w, key, runAt)
    ensures PublishedOnce(Fire(host, w, k, at, drawn), key, runAt)
  {
    var pk :| IsRow(w, key, runAt, pk) && w.executions[pk].job.Some?;
    FireElsewhere(host, w, k, at, drawn, pk, key, runAt);
    var (reserved, r) := Reserve(host, w, k, at, drawn, true);
    IssuedIsOpen(host, w, k, at, drawn);
    ReservePublishesNothing(host, w, k, at, drawn, true);
    if (k, at) == (key, runAt) {
      ReserveSound(host, w, k, at, drawn, true);
      ReserveElsewhere(host, w, k, at, drawn, pk);
      assert r.None?;
    }
    hide Sound, Reserve;
  }

  /** An earlier run of the task, or a run of another task, does not move the cursor past now. */
  lemma StaysDue(
    host: Host, runs: (string, Time) -> bool, w: World, k: TaskKey, at: Time, drawn: JobId, key: TaskKey, runAt: Time,
    now: Time)
    requires Lawful(host, runs) && CursorsRun(runs, w) && DueRun(host, w, key, runAt, now)
    requires k == key ==> at < runAt
    ensures var after := Fire(host, w, k, at, drawn);
            CursorsRun(runs, after) && DueRun(host, after, key, runAt, now)
  {
    var (reserved, r) := Reserve(host, w, k, at, drawn, true);
    ReserveCursorsRun(host, runs, w, k, at, drawn, true);
    ReserveCursor(host, w, k, at, drawn, true, key);
    assert !Past(reserved.tasks[key], now) by {
      assert IsLatest(runs, w.tasks[key].schedule, now, runAt);
      if k == key && host.next(w.tasks[key].schedule, at).Some? {
        assert IsNext(runs, w.tasks[key].schedule, at, host.next(w.tasks[key].schedule, at).value);
      }
      hide Find, CursorsRun, Lawful;
    }
    assert Fire(host, w, k, at, drawn).tasks == reserved.tasks;
    hide Reserve, Publish, Lawful, Fire;
  }

  // ---------------------------------------------------------------- the poll

  /** Once published and behind the cursor, a run stays so for the rest of the poll. */
  lemma {:induction false} PollKeepsFired(
    host: Host, w: World, attempts: seq<Attempt>, draws: seq<JobId>, key: TaskKey, runAt: Time, now: Time)
    requires Sound(w) && |draws| >= |attempts| && Fresh(w, draws)
    requires PublishedOnce(w, key, runAt) && key in w.tasks && Past(w.tasks[key], now)
    ensures var after := Poll(host, w, attempts, draws).0;
            PublishedOnce(after, key, runAt) && key in after.tasks && Past(after.tasks[key], now)
    decreases |attempts|
  {
    hide Sound, Fresh, Fire, Raises, PublishedOnce;
    if attempts != [] {
      var first := attempts[0];
      CommitSound(host, w, first, draws);
      if first.Attempt? {
        StaysPublished(host, w, first.key, first.runAt, draws[0], key, runAt);
        FireCursor(host, w, first.key, first.runAt, draws[0], key);
      }
      PollKeepsFired(host, Commit(host, w, first, draws[0]), attempts[1..], draws[1..], key, runAt, now);
    }
  }

  /**
   The latest run of a due task is published once, and the task's cursor moves past now, exactly if the poll comes to
   it; no later run of the task is attempted before.
   */
  lemma {:induction false} DueRunIsPublished(
    host: Host, runs: (string, Time) -> bool, w: World, attempts: seq<Attempt>, draws: seq<JobId>, key: TaskKey,
    runAt: Time, now: Time)
    requires Lawful(host, runs) && CursorsRun(runs, w) && Sound(w) && |draws| >= |attempts| && Fresh(w, draws)
    requires DueRun(host, w, key, runAt, now) && Unfired(w, key, runAt)
    requires forall a :: a in attempts && a.Attempt? && a.key == key ==> a.runAt <= runAt
    ensures var after := Poll(host, w, attempts, draws).0;
            if Reaches(host, w, attempts, draws, Attempt(key, runAt))
            then PublishedOnce(after, key, runAt) && key in after.tasks && Past(after.tasks[key], now)
            else Unfired(after, key, runAt) && key in after.tasks && !Past(after.tasks[key], now)
    decreases |attempts|
  {
    hide Sound, Fresh, Fire, Lawful, CursorsRun, Raises, Unfired, PublishedOnce;
    if attempts == [] {
      assert !Reaches(host, w, attempts, draws, Attempt(key, runAt));
    } else {
      var first := attempts[0];
      assert first in attempts;
      var after := Commit(host, w, first, draws[0]);
      CommitSound(host, w, first, draws);
      ReachesHeadOrTail(host, w, attempts, draws, Attempt(key, runAt));
      hide Reaches, DueRun;
      if first == Attempt(key, runAt) {
        DueRunFires(host, runs, w, key, runAt, now, draws[0]);
        PollKeepsFired(host, after, attempts[1..], draws[1..], key, runAt, now);
      } else {
        if first.Attempt? {
          OtherFires(host, w, first.key, first.runAt, draws[0], key, runAt);
          StaysDue(host, runs, w, first.key, first.runAt, draws[0], key, runAt, now);
        }
        assert DueRun(host, after, key, runAt, now);
        NotYetPast(host, after, key, runAt, now);
        DueRunIsPublished(host, runs, after, attempts[1..], draws[1..], key, runAt, now);
      }
    }
  }

  lemma NotYetPast(host: Host, w: World, key: TaskKey, runAt: Time, now: Time)
    requires DueRun(host, w, key, runAt, now)
    ensures key in w.tasks && !Past(w.tasks[key], now)
  {
  }

  // ---------------------------------------------------------------- from the tables

  /** Of the backend, due or with an open reservation, and static unless dynamic tasks are asked for. */
  ghost predicate Selectable(w: World, backend: string, dynamics: bool, now: Time, key: TaskKey) {
    && key in w.tasks && key.0 == backend && (dynamics || w.tasks[key].isStatic)
    && (CursorDue(w, now, key) || exists pk :: pk in w.executions && w.executions[pk].key == key && Open(w.executions[pk]))
  }

  /** What the poll's two queries answer, whatever order they use and when the batch has room for all their rows. */
  ghost predicate Selects(w: World, backend: string, dynamics: bool, now: Time, selected: seq<TaskKey>, pending: seq<int>) {
    && (forall key :: key in selected <==> Selectable(w, backend, dynamics, now, key))
    && (forall pk :: pk in pending <==> pk in w.executions && w.executions[pk].key in selected && Open(w.executions[pk]))
  }

  /** Every task can be enqueued and has the runs a poll asks for. */
  ghost predicate AllCanFire(host: Host, runs: (string, Time) -> bool, w: World, now: Time) {
    AllEnqueue(host, w) && AllHaveLatest(host, w, now) && AllGoOn(host, runs, w) && PendingHaveLatest(host, w)
  }

  ghost predicate AllEnqueue(host: Host, w: World) {
    forall key :: key in w.tasks ==> host.enqueues(w.tasks[key].definition)
  }

  ghost predicate AllHaveLatest(host: Host, w: World, now: Time) {
    forall key :: key in w.tasks ==> host.latest(w.tasks[key].schedule, now).Some?
  }

  /** No run is the last of its schedule. */
  ghost predicate AllGoOn(host: Host, runs: (string, Time) -> bool, w: World) {
    forall key, t :: key in w.tasks && runs(w.tasks[key].schedule, t) ==> host.next(w.tasks[key].schedule, t).Some?
  }

  ghost predicate PendingHaveLatest(host: Host, w: World) {
    forall pk :: pk in w.executions && Open(w.executions[pk]) && w.executions[pk].key in w.tasks ==>
      host.latest(w.tasks[w.executions[pk].key].schedule, w.executions[pk].runAt + 1).Some?
  }

  /** A run that is the latest at some time has the runs that reserving it asks for. */
  lemma RunCanFire(host: Host, runs: (string, Time) -> bool, w: World, now: Time, key: TaskKey, runAt: Time, t: Time)
    requires Lawful(host, runs) && AllCanFire(host, runs, w, now) && key in w.tasks
    requires host.latest(w.tasks[key].schedule, t) == Some(runAt)
    ensures runs(w.tasks[key].schedule, runAt) && runAt <= t && !LacksRun(host, w, key, runAt)
  {
    hide AllEnqueue, AllHaveLatest, PendingHaveLatest;
    assert IsLatest(runs, w.tasks[key].schedule, t, runAt);
  }

  lemma PendingCanFire(host: Host, runs: (string, Time) -> bool, w: World, now: Time, pk: int)
    requires Lawful(host, runs) && AllCanFire(host, runs, w, now)
    requires pk in w.executions && Open(w.executions[pk]) && w.executions[pk].key in w.tasks
    ensures !LacksRun(host, w, w.executions[pk].key, w.executions[pk].runAt)
  {
    hide *;
    var (key, runAt) := (w.executions[pk].key, w.executions[pk].runAt);
    PendingHasLatest(host, runs, w, now, pk);
    if host.latest(w.tasks[key].schedule, runAt + 1) == Some(runAt) {
      RunCanFire(host, runs, w, now, key, runAt, runAt + 1);
    } else {
      OtherRun(host, w, key, runAt);
    }
  }

  lemma PendingHasLatest(host: Host, runs: (string, Time) -> bool, w: World, now: Time, pk: int)
    requires AllCanFire(host, runs, w, now)
    requires pk in w.executions && Open(w.executions[pk]) && w.executions[pk].key in w.tasks
    ensures host.latest(w.tasks[w.executions[pk].key].schedule, w.executions[pk].runAt + 1).Some?
  {
    hide AllEnqueue, AllHaveLatest, AllGoOn;
  }

  /** Nothing is reserved for a time the schedule has no run at, and nothing more is asked for. */
  lemma OtherRun(host: Host, w: World, key: TaskKey, runAt: Time)
    requires key in w.tasks && host.latest(w.tasks[key].schedule, runAt + 1).Some?
    requires host.latest(w.tasks[key].schedule, runAt + 1) != Some(runAt)
    ensures !LacksRun(host, w, key, runAt)
  {
  }

  lemma AttemptCanFire(
    host: Host, runs: (string, Time) -> bool, w: World, now: Time, selected: seq<TaskKey>, pending: seq<int>, a: Attempt)
    requires Lawful(host, runs) && AllCanFire(host, runs, w, now)
    requires forall pk :: pk in pending ==> pk in w.executions && Open(w.executions[pk])
    requires a.key in w.tasks && ToAttempt(host, w, now, selected, pending, a)
    ensures !Lacks(host, w, a)
  {
    assert host.latest(w.tasks[a.key].schedule, now).Some? by {
      hide Lawful, ToAttempt, AllEnqueue, AllGoOn, PendingHaveLatest;
    }
    hide Lawful, AllCanFire, LacksRun, Open, CursorDue;
    if a.Attempt? {
      if HasPending(w, pending, a.key, a.runAt) {
        var pk :| pk in pending && pk in w.executions && w.executions[pk].key == a.key && w.executions[pk].runAt == a.runAt;
        PendingCanFire(host, runs, w, now, pk);
      } else {
        RunCanFire(host, runs, w, now, a.key, a.runAt, now);
      }
    }
  }

  lemma AttemptsCanFire(
    host: Host, runs: (string, Time) -> bool, w: World, backend: string, dynamics: bool, now: Time,
    selected: seq<TaskKey>, pending: seq<int>)
    requires Lawful(host, runs) && AllCanFire(host, runs, w, now)
    requires Selects(w, backend, dynamics, now, selected, pending)
    ensures forall a :: a in Attempts(host, w, now, selected, pending) ==> !Lacks(host, w, a)
  {
    hide *;
    SelectedRows(w, backend, dynamics, now, selected, pending);
    forall a | a in Attempts(host, w, now, selected, pending)
      ensures !Lacks(host, w, a)
    {
      AttemptedIff(host, w, now, selected, pending, a);
      AttemptedKey(host, w, now, selected, pending, a);
      AttemptCanFire(host, runs, w, now, selected, pending, a);
    }
  }

  /** With room for everything the poll comes to all it attempts. */
  lemma PollComesToAll(
    host: Host, runs: (string, Time) -> bool, w: World, backend: string, dynamics: bool, now: Time,
    selected: seq<TaskKey>, pending: seq<int>, draws: seq<JobId>, a: Attempt)
    requires Lawful(host, runs) && Sound(w) && AllCanFire(host, runs, w, now)
    requires Selects(w, backend, dynamics, now, selected, pending)
    requires |draws| >= |Attempts(host, w, now, selected, pending)| && Fresh(w, draws)
    requires ToAttempt(host, w, now, selected, pending, a)
    ensures Reaches(host, w, Attempts(host, w, now, selected, pending), draws, a)
  {
    hide *;
    var attempts := Attempts(host, w, now, selected, pending);
    EnqueuesAll(host, runs, w, now);
    AttemptsCanFire(host, runs, w, backend, dynamics, now, selected, pending);
    AttemptedIff(host, w, now, selected, pending, a);
    PollReachesIffRunsExist(host, w, attempts, draws, |attempts|);
    InReach(host, w, attempts, draws, a);
  }

  lemma SelectedRows(w: World, backend: string, dynamics: bool, now: Time, selected: seq<TaskKey>, pending: seq<int>)
    requires Selects(w, backend, dynamics, now, selected, pending)
    ensures forall key :: key in selected ==> key in w.tasks
    ensures forall pk :: pk in pending ==> pk in w.executions && Open(w.executions[pk])
  {
    hide CursorDue, Open;
  }

  lemma EnqueuesAll(host: Host, runs: (string, Time) -> bool, w: World, now: Time)
    requires AllCanFire(host, runs, w, now)
    ensures forall key :: key in w.tasks ==> host.enqueues(w.tasks[key].definition)
  {
    hide AllHaveLatest, AllGoOn, PendingHaveLatest;
  }

  lemma AttemptedKey(host: Host, w: World, now: Time, selected: seq<TaskKey>, pending: seq<int>, a: Attempt)
    requires ToAttempt(host, w, now, selected, pending, a)
    ensures a.key in selected
  {
  }

  lemma InReach(host: Host, w: World, attempts: seq<Attempt>, draws: seq<JobId>, a: Attempt)
    requires |draws| >= |attempts| && |attempts| <= Poll(host, w, attempts, draws).1 && a in attempts
    ensures Reaches(host, w, attempts, draws, a)
  {
    hide Poll;
    var i :| 0 <= i < |attempts| && attempts[i] == a;
  }

  /** The task's latest run is still to be fired, and no later one of it is reserved. */
  ghost predicate LatestUnfired(host: Host, w: World, key: TaskKey, runAt: Time, now: Time) {
    && key in w.tasks && host.latest(w.tasks[key].schedule, now) == Some(runAt) && Unfired(w, key, runAt)
    && forall pk :: pk in w.executions && w.executions[pk].key == key && Open(w.executions[pk]) ==> w.executions[pk].runAt <= runAt
  }

  /**
   A poll with room for everything publishes the latest run of every due task once, and moves the task's cursor past
   now.
   */
  lemma PollFiresEveryDueTask(
    host: Host, runs: (string, Time) -> bool, w: World, backend: string, dynamics: bool, now: Time,
    selected: seq<TaskKey>, pending: seq<int>, draws: seq<JobId>, key: TaskKey, runAt: Time)
    requires Lawful(host, runs) && CursorsRun(runs, w) && Sound(w) && AllCanFire(host, runs, w, now)
    requires Selects(w, backend, dynamics, now, selected, pending)
    requires |draws| >= |Attempts(host, w, now, selected, pending)| && Fresh(w, draws)
    requires CursorDue(w, now, key) && key.0 == backend && (dynamics || w.tasks[key].isStatic)
    requires LatestUnfired(host, w, key, runAt, now)
    ensures var after := Poll(host, w, Attempts(host, w, now, selected, pending), draws).0;
            PublishedOnce(after, key, runAt) && key in after.tasks && Past(after.tasks[key], now)
  {
    var (attempts, a) := (Attempts(host, w, now, selected, pending), Attempt(key, runAt));
    DueIsToAttempt(host, w, backend, dynamics, now, selected, pending, key, runAt);
    IsDueRun(host, runs, w, key, runAt, now);
    hide *;
    PollComesToAll(host, runs, w, backend, dynamics, now, selected, pending, draws, a);
    forall b | b in attempts
      ensures b.Attempt? && b.key == key ==> b.runAt <= runAt
    {
      AttemptedIff(host, w, now, selected, pending, b);
      NoLaterAttempt(host, w, backend, dynamics, now, selected, pending, key, runAt, b);
    }
    DueRunIsPublished(host, runs, w, attempts, draws, key, runAt, now);
  }

  lemma DueIsToAttempt(
    host: Host, w: World, backend: string, dynamics: bool, now: Time, selected: seq<TaskKey>, pending: seq<int>,
    key: TaskKey, runAt: Time)
    requires Selects(w, backend, dynamics, now, selected, pending)
    requires CursorDue(w, now, key) && key.0 == backend && (dynamics || w.tasks[key].isStatic)
    requires LatestUnfired(host, w, key, runAt, now)
    ensures ToAttempt(host, w, now, selected, pending, Attempt(key, runAt))
  {
    assert Selectable(w, backend, dynamics, now, key);
    hide Selectable, Unfired, HasPending;
  }

  lemma IsDueRun(host: Host, runs: (string, Time) -> bool, w: World, key: TaskKey, runAt: Time, now: Time)
    requires Lawful(host, runs) && AllCanFire(host, runs, w, now) && CursorDue(w, now, key)
    requires LatestUnfired(host, w, key, runAt, now)
    ensures DueRun(host, w, key, runAt, now) && Unfired(w, key, runAt)
  {
    hide Unfired;
    RunCanFire(host, runs, w, now, key, runAt, now);
    hide LacksRun, Lawful;
  }

  lemma NoLaterAttempt(
    host: Host, w: World, backend: string, dynamics: bool, now: Time, selected: seq<TaskKey>, pending: seq<int>,
    key: TaskKey, runAt: Time, a: Attempt)
    requires Selects(w, backend, dynamics, now, selected, pending) && LatestUnfired(host, w, key, runAt, now)
    requires ToAttempt(host, w, now, selected, pending, a)
    ensures a.Attempt? && a.key == key ==> a.runAt <= runAt
  {
    hide Selectable, Unfired, Open;
  }

  /** A poll with room for everything publishes every open reservation of a run the schedule still has. */
  lemma PollPublishesEveryReservation(
    host: Host, runs: (string, Time) -> bool, w: World, backend: string, dynamics: bool, now: Time,
    selected: seq<TaskKey>, pending: seq<int>, draws: seq<JobId>, pk: int, key: TaskKey, runAt: Time, intended: JobId)
    requires Lawful(host, runs) && Sound(w) && AllCanFire(host, runs, w, now)
    requires Selects(w, backend, dynamics, now, selected, pending)
    requires |draws| >= |Attempts(host, w, now, selected, pending)| && Fresh(w, draws)
    requires Holds(w, pk, key, runAt, intended) && w.executions[pk].job.None?
    requires key in w.tasks && key.0 == backend && (dynamics || w.tasks[key].isStatic) && runs(w.tasks[key].schedule, runAt)
    ensures var after := Poll(host, w, Attempts(host, w, now, selected, pending), draws).0;
            Holds(after, pk, key, runAt, intended) && after.executions[pk].job == Some(intended)
  {
    var (attempts, a) := (Attempts(host, w, now, selected, pending), Attempt(key, runAt));
    EnqueuesAll(host, runs, w, now);
    assert host.next(w.tasks[key].schedule, runAt).Some? by {
      hide AllHaveLatest, AllEnqueue, PendingHaveLatest, Lawful;
    }
    assert DueAt(host, runs, w, key, runAt) by {
      hide AllCanFire, Lawful;
    }
    OpenIsToAttempt(host, w, backend, dynamics, now, selected, pending, pk, key, runAt);
    hide *;
    PollComesToAll(host, runs, w, backend, dynamics, now, selected, pending, draws, a);
    ReachedReservationIsPublished(host, runs, w, attempts, draws, pk, key, runAt, intended);
  }

  lemma OpenIsToAttempt(
    host: Host, w: World, backend: string, dynamics: bool, now: Time, selected: seq<TaskKey>, pending: seq<int>, pk: int,
    key: TaskKey, runAt: Time)
    requires Selects(w, backend, dynamics, now, selected, pending)
    requires IsRow(w, key, runAt, pk) && Open(w.executions[pk])
    requires key in w.tasks && key.0 == backend && (dynamics || w.tasks[key].isStatic)
    ensures ToAttempt(host, w, now, selected, pending, Attempt(key, runAt))
  {
    assert Selectable(w, backend, dynamics, now, key);
    hide Selectable, CursorDue;
  }
}
