/**
 Firing recurring tasks: what one poll does, where an exception ends it, what it does about reservations whose
 scheduler crashed, and exactly when a published run could be published again.
 */
module RecurringFiring {
  import opened Results
  import opened Recurring

  // ---------------------------------------------------------------- one firing

  /** What reserving and then publishing commit, with nothing locked elsewhere. */
  function Fire(host: Host, w: World, key: TaskKey, runAt: Time, drawn: JobId): World {
    var (reserved, r) := Reserve(host, w, key, runAt, drawn, true);
    match r
    case None => reserved
    case Some(reservation) => Publish(host, reserved, reservation, true)
  }

  /** The task's schedule lacks a run that reserving asks for. */
  predicate LacksRun(host: Host, w: World, key: TaskKey, runAt: Time) {
    key in w.tasks
    && var schedule := w.tasks[key].schedule;
       || host.latest(schedule, runAt + 1).None?
       || (host.latest(schedule, runAt + 1) == Some(runAt) && host.next(schedule, runAt).None?)
  }

  /** A reservation was issued, and its publication raises. */
  predicate Refused(host: Host, w: World, key: TaskKey, runAt: Time, drawn: JobId) {
    var (reserved, r) := Reserve(host, w, key, runAt, drawn, true);
    r.Some? && TryPublish(host, reserved, r.value, true).Err?
  }

  lemma ReserveRaisesIff(host: Host, w: World, key: TaskKey, runAt: Time, drawn: JobId)
    ensures TryReserve(host, w, key, runAt, drawn, true).Err? <==> LacksRun(host, w, key, runAt)
  {
  }

  /** A publication raises exactly when a reservation was issued for a definition that cannot be enqueued. */
  lemma RefusedIff(host: Host, w: World, key: TaskKey, runAt: Time, drawn: JobId)
    requires Sound(w) && drawn !in w.used
    ensures Refused(host, w, key, runAt, drawn) <==>
              Reserve(host, w, key, runAt, drawn, true).1.Some? && !host.enqueues(w.tasks[key].definition)
  {
    var (reserved, r) := Reserve(host, w, key, runAt, drawn, true);
    if r.Some? {
      ReserveSound(host, w, key, runAt, drawn, true);
      IssuedIsOpen(host, w, key, runAt, drawn);
      assert RowFits(reserved, reserved.executions[r.value.pk]);
    }
  }

  lemma IssuedIsOpen(host: Host, w: World, key: TaskKey, runAt: Time, drawn: JobId)
    ensures var (reserved, r) := Reserve(host, w, key, runAt, drawn, true);
            r.Some? ==> && key in w.tasks && r.value.definition == w.tasks[key].definition
                        && IsRow(reserved, key, runAt, r.value.pk) && Open(reserved.executions[r.value.pk])
                        && reserved.executions[r.value.pk].intended == Some(r.value.intended)
  {
  }

  lemma FireSound(host: Host, w: World, key: TaskKey, runAt: Time, drawn: JobId)
    requires Sound(w) && drawn !in w.used
    ensures Sound(Fire(host, w, key, runAt, drawn))
  {
    hide Sound;
    ReserveSound(host, w, key, runAt, drawn, true);
    var (reserved, r) := Reserve(host, w, key, runAt, drawn, true);
    if r.Some? {
      PublishSound(host, reserved, r.value, true);
    }
  }

  lemma FireCursor(host: Host, w: World, k: TaskKey, at: Time, drawn: JobId, key: TaskKey)
    requires key in w.tasks
    ensures SameButCursor(w, Fire(host, w, k, at, drawn), key)
  {
    hide Reserve;
    ReserveCursor(host, w, k, at, drawn, true, key);
  }

  /** The task runs at this time, and again later. */
  ghost predicate DueAt(host: Host, runs: (string, Time) -> bool, w: World, key: TaskKey, runAt: Time) {
    key in w.tasks && runs(w.tasks[key].schedule, runAt) && host.next(w.tasks[key].schedule, runAt).Some?
  }

  /**
   A published run would be published a second time exactly when it is exposed - its reservation is gone and the
   task's cursor does not lie past it - and its definition can still be enqueued.
   */
  lemma FiresAgainIffExposed(
    host: Host, runs: (string, Time) -> bool, w: World, key: TaskKey, runAt: Time, drawn: JobId)
    requires Lawful(host, runs) && Sound(w) && drawn !in w.used && DueAt(host, runs, w, key, runAt)
    requires Once(w, key, runAt) && w.published[(key, runAt)] == 1
    ensures Fire(host, w, key, runAt, drawn).published[(key, runAt)] == 2
       <==> Exposed(w, key, runAt) && host.enqueues(w.tasks[key].definition)
  {
    var (reserved, r) := Reserve(host, w, key, runAt, drawn, true);
    assert reserved.published == w.published;
    match Find(w, key, runAt)
    case Some(pk) => assert w.executions[pk].job.Some?;
    case None =>
      assert drawn !in w.jobs;
  }

  // ---------------------------------------------------------------- the cursor and the clock

  /** Cursors stand at runs of their schedules. */
  ghost predicate CursorsRun(runs: (string, Time) -> bool, w: World) {
    forall key :: key in w.tasks && w.tasks[key].nextRunAt.Some? ==> runs(w.tasks[key].schedule, w.tasks[key].nextRunAt.value)
  }

  lemma ReserveCursorsRun(
    host: Host, runs: (string, Time) -> bool, w: World, key: TaskKey, runAt: Time, drawn: JobId, visible: bool)
    requires Lawful(host, runs) && CursorsRun(runs, w)
    ensures CursorsRun(runs, Reserve(host, w, key, runAt, drawn, visible).0)
  {
    var after := Reserve(host, w, key, runAt, drawn, visible).0;
    if after.tasks != w.tasks {
      var (schedule, next) := (w.tasks[key].schedule, host.next(w.tasks[key].schedule, runAt).value);
      assert IsNext(runs, schedule, runAt, next);
      assert after.tasks == w.tasks[key := Advance(w.tasks[key], next)];
      hide Reserve;
    }
  }

  lemma ApplyCursorsRun(host: Host, runs: (string, Time) -> bool, w: World, step: Step)
    requires Lawful(host, runs) && CursorsRun(runs, w)
    ensures CursorsRun(runs, Apply(host, w, step))
  {
    match step
    case DoReserve(key, runAt, drawn, visible) =>
      hide Reserve, Lawful;
      ReserveCursorsRun(host, runs, w, key, runAt, drawn, visible);
    case DoSave(key, definition, schedule, isStatic) =>
      assert key in w.tasks && w.tasks[key].nextRunAt.Some? ==>
               runs(w.tasks[key].schedule, w.tasks[key].nextRunAt.value);
    case _ => assert forall key :: key in Apply(host, w, step).tasks ==> key in w.tasks && Apply(host, w, step).tasks[key] == w.tasks[key];
  }

  /** Firing the latest run moves the cursor strictly past now: the task just fired is not due again. */
  lemma FiredTaskIsNotDue(
    host: Host, runs: (string, Time) -> bool, w: World, key: TaskKey, now: Time, drawn: JobId)
    requires Lawful(host, runs) && CursorsRun(runs, w) && key in w.tasks
    requires host.latest(w.tasks[key].schedule, now).Some?
    requires host.next(w.tasks[key].schedule, host.latest(w.tasks[key].schedule, now).value).Some?
    ensures var runAt := host.latest(w.tasks[key].schedule, now).value;
            var after := Fire(host, w, key, runAt, drawn);
            key in after.tasks && Past(after.tasks[key], now)
  {
    var schedule := w.tasks[key].schedule;
    var runAt := host.latest(schedule, now).value;
    assert IsLatest(runs, schedule, now, runAt);
    assert host.latest(schedule, runAt + 1) == Some(runAt);
    var next := host.next(schedule, runAt).value;
    assert IsNext(runs, schedule, runAt, next);
    assert next > now;
    var (reserved, r) := Reserve(host, w, key, runAt, drawn, true);
    assert Past(reserved.tasks[key], now);
  }

  // ---------------------------------------------------------------- crashed reservations

  /** The row is there, for the same job, and the job is null or the intended one. */
  ghost predicate Holds(w: World, pk: int, key: TaskKey, runAt: Time, intended: JobId) {
    && IsRow(w, key, runAt, pk) && w.executions[pk].intended == Some(intended)
    && (w.executions[pk].job.Some? ==> w.executions[pk].job == Some(intended))
  }

  /** A reservation left behind by a crash is published, under the id drawn for it then, exactly if it can be enqueued. */
  lemma CrashedReservationIsPublished(
    host: Host, runs: (string, Time) -> bool, w: World, pk: int, key: TaskKey, runAt: Time, intended: JobId,
    drawn: JobId)
    requires Lawful(host, runs) && Sound(w) && DueAt(host, runs, w, key, runAt) && drawn !in w.used
    requires Holds(w, pk, key, runAt, intended) && w.executions[pk].job.None?
    ensures var after := Fire(host, w, key, runAt, drawn);
            && Holds(after, pk, key, runAt, intended)
            && (after.executions[pk].job == Some(intended) <==> host.enqueues(w.tasks[key].definition))
            && (host.enqueues(w.tasks[key].definition) ==>
                  intended in after.jobs && after.jobs[intended] == w.tasks[key].definition)
  {
    var found := Find(w, key, runAt);
    assert found == Some(pk);
    assert RowFits(w, w.executions[pk]);
    assert host.latest(w.tasks[key].schedule, runAt + 1) == Some(runAt);
  }

  lemma ReserveElsewhere(
    host: Host, w: World, k: TaskKey, at: Time, drawn: JobId, pk: int)
    requires Sound(w) && pk in w.executions
    ensures var after := Reserve(host, w, k, at, drawn, true).0;
            pk in after.executions && after.executions[pk] == w.executions[pk]
  {
    assert pk < w.nextPk;
    hide Sound, Find;
  }

  /** Firing another run, or a run already published, leaves the row as it is. */
  lemma FireElsewhere(
    host: Host, w: World, k: TaskKey, at: Time, drawn: JobId, pk: int, key: TaskKey, runAt: Time)
    requires Sound(w) && drawn !in w.used && IsRow(w, key, runAt, pk)
    requires (k, at) != (key, runAt) || w.executions[pk].job.Some?
    ensures var after := Fire(host, w, k, at, drawn);
            pk in after.executions && after.executions[pk] == w.executions[pk]
  {
    ReserveElsewhere(host, w, k, at, drawn, pk);
    IssuedIsOpen(host, w, k, at, drawn);
    hide Sound, Reserve;
  }

  // ---------------------------------------------------------------- polling

  /** A run to fire, or a due task whose schedule has no run: searching for it raises. */
  datatype Attempt = Attempt(key: TaskKey, runAt: Time) | NoDueRun(key: TaskKey)

  /** The open rows of one task among the selected ones, in order. */
  function PendingOf(w: World, pending: seq<int>, key: TaskKey): (r: seq<Attempt>)
    decreases |pending|
  {
    if pending == [] then []
    else (if pending[0] in w.executions && w.executions[pending[0]].key == key
          then [Attempt(key, w.executions[pending[0]].runAt)] else []) + PendingOf(w, pending[1..], key)
  }

  /** A task whose cursor is not past now fires its latest run. */
  function DueOf(host: Host, w: World, now: Time, key: TaskKey): seq<Attempt> {
    if key !in w.tasks || Past(w.tasks[key], now) then []
    else match host.latest(w.tasks[key].schedule, now)
         case None => [NoDueRun(key)]
         case Some(runAt) => [Attempt(key, runAt)]
  }

  /** What a poll attempts: task by task, first the open reservations, then the due run. */
  function Attempts(host: Host, w: World, now: Time, selected: seq<TaskKey>, pending: seq<int>): seq<Attempt>
    decreases |selected|
  {
    if selected == [] then []
    else PendingOf(w, pending, selected[0]) + DueOf(host, w, now, selected[0])
         + Attempts(host, w, now, selected[1..], pending)
  }

  /** What one attempt commits. */
  function Commit(host: Host, w: World, a: Attempt, drawn: JobId): World {
    match a
    case NoDueRun(_) => w
    case Attempt(key, runAt) => Fire(host, w, key, runAt, drawn)
  }

  /** The attempt's schedule lacks a run it needs: told from the tasks alone. */
  predicate Lacks(host: Host, w: World, a: Attempt) {
    match a
    case NoDueRun(_) => true
    case Attempt(key, runAt) => LacksRun(host, w, key, runAt)
  }

  predicate Raises(host: Host, w: World, a: Attempt, drawn: JobId) {
    Lacks(host, w, a) || (a.Attempt? && Refused(host, w, a.key, a.runAt, drawn))
  }

  /** What the attempts commit one after another. */
  function CommitAll(host: Host, w: World, attempts: seq<Attempt>, draws: seq<JobId>): World
    requires |draws| >= |attempts|
    decreases |attempts|
  {
    if attempts == [] then w
    else CommitAll(host, Commit(host, w, attempts[0], draws[0]), attempts[1..], draws[1..])
  }

  /**
   The attempts in order, up to the first that raises: nothing handles the exception, so the poll ends there, with
   what was committed before. The number is that of the attempts that did not raise.
   */
  function Poll(host: Host, w: World, attempts: seq<Attempt>, draws: seq<JobId>): (r: (World, nat))
    requires |draws| >= |attempts|
    ensures r.1 <= |attempts|
    decreases |attempts|
  {
    if attempts == [] then
      (w, 0)
    else
      var after := Commit(host, w, attempts[0], draws[0]);
      if Raises(host, w, attempts[0], draws[0]) then
        (after, 0)
      else
        var (world, completed) := Poll(host, after, attempts[1..], draws[1..]);
        (world, completed + 1)
  }

  predicate Fresh(w: World, draws: seq<JobId>) {
    && (forall i :: 0 <= i < |draws| ==> draws[i] !in w.used)
    && (forall i, j :: 0 <= i < j < |draws| ==> draws[i] != draws[j])
  }

  lemma CommitSound(host: Host, w: World, a: Attempt, draws: seq<JobId>)
    requires Sound(w) && Fresh(w, draws) && draws != []
    ensures draws[0] !in w.used
    ensures Sound(Commit(host, w, a, draws[0])) && Fresh(Commit(host, w, a, draws[0]), draws[1..])
  {
    if a.Attempt? {
      FireSound(host, w, a.key, a.runAt, draws[0]);
      assert Fire(host, w, a.key, a.runAt, draws[0]).used <= w.used + {draws[0]};
    }
  }

  lemma FireKeys(host: Host, w: World, key: TaskKey, runAt: Time, drawn: JobId)
    ensures Fire(host, w, key, runAt, drawn).tasks.Keys == w.tasks.Keys
  {
    hide Find;
  }

  /** Attempts neither change nor remove a schedule or a definition. */
  lemma CommitKeepsTask(host: Host, w: World, a: Attempt, drawn: JobId, key: TaskKey)
    ensures var after := Commit(host, w, a, drawn);
            && (key in after.tasks <==> key in w.tasks)
            && (key in w.tasks ==> after.tasks[key].schedule == w.tasks[key].schedule
                                   && after.tasks[key].definition == w.tasks[key].definition)
  {
    hide Fire;
    if a.Attempt? {
      if key in w.tasks {
        FireCursor(host, w, a.key, a.runAt, drawn, key);
      } else {
        FireKeys(host, w, a.key, a.runAt, drawn);
      }
    }
  }

  // ---------------------------------------------------------------- where a poll ends

  /** The attempt needs a run its schedule lacks, or would publish what cannot be enqueued. */
  ghost predicate Fatal(host: Host, w: World, before: World, a: Attempt, drawn: JobId) {
    || Lacks(host, w, a)
    || (a.Attempt? && Reserve(host, before, a.key, a.runAt, drawn, true).1.Some?
        && a.key in w.tasks && !host.enqueues(w.tasks[a.key].definition))
  }

  lemma RaisesIffFatal(host: Host, w: World, a: Attempt, drawn: JobId)
    requires Sound(w) && drawn !in w.used
    ensures Raises(host, w, a, drawn) <==> Fatal(host, w, w, a, drawn)
  {
    if a.Attempt? {
      RefusedIff(host, w, a.key, a.runAt, drawn);
      IssuedIsOpen(host, w, a.key, a.runAt, drawn);
    }
  }

  lemma FatalLater(host: Host, w: World, a: Attempt, drawn: JobId, before: World, b: Attempt, d: JobId)
    ensures Fatal(host, Commit(host, w, a, drawn), before, b, d) <==> Fatal(host, w, before, b, d)
  {
    CommitKeepsTask(host, w, a, drawn, b.key);
    hide Commit, Reserve;
  }

  /**
   A poll completes its first `i` attempts exactly when none of them needs a run that its schedule, as it is when
   the poll starts, lacks, and none publishes a reservation whose definition cannot be enqueued.
   */
  lemma {:induction false} PollReachesIff(host: Host, w: World, attempts: seq<Attempt>, draws: seq<JobId>, i: nat)
    requires Sound(w) && |draws| >= |attempts| >= i && Fresh(w, draws)
    ensures i <= Poll(host, w, attempts, draws).1 <==>
              forall j :: 0 <= j < i ==> !Fatal(host, w, CommitAll(host, w, attempts[..j], draws[..j]), attempts[j], draws[j])
    decreases |attempts|
  {
    hide Sound, Fresh, Commit, Raises, Fatal;
    if i > 0 {
      var (first, drawn) := (attempts[0], draws[0]);
      var after := Commit(host, w, first, drawn);
      CommitSound(host, w, first, draws);
      RaisesIffFatal(host, w, first, drawn);
      assert CommitAll(host, w, attempts[..0], draws[..0]) == w;
      PollReachesIff(host, after, attempts[1..], draws[1..], i - 1);
      forall j | 1 <= j < i
        ensures Fatal(host, w, CommitAll(host, w, attempts[..j], draws[..j]), attempts[j], draws[j])
           <==> Fatal(host, after, CommitAll(host, after, attempts[1..][..j - 1], draws[1..][..j - 1]),
                      attempts[1..][j - 1], draws[1..][j - 1])
      {
        assert attempts[..j][1..] == attempts[1..][..j - 1] && draws[..j][1..] == draws[1..][..j - 1];
        FatalLater(host, w, first, drawn, CommitAll(host, w, attempts[..j], draws[..j]), attempts[j], draws[j]);
      }
    }
  }

  /** With definitions that can be enqueued, a poll reaches an attempt exactly when no earlier schedule lacks a run. */
  lemma PollReachesIffRunsExist(
    host: Host, w: World, attempts: seq<Attempt>, draws: seq<JobId>, i: nat)
    requires Sound(w) && |draws| >= |attempts| >= i && Fresh(w, draws)
    requires forall key :: key in w.tasks ==> host.enqueues(w.tasks[key].definition)
    ensures i <= Poll(host, w, attempts, draws).1 <==> forall j :: 0 <= j < i ==> !Lacks(host, w, attempts[j])
  {
    PollReachesIff(host, w, attempts, draws, i);
    hide Poll, CommitAll, Sound, Fresh, Lacks;
    forall j | 0 <= j < i
      ensures Fatal(host, w, CommitAll(host, w, attempts[..j], draws[..j]), attempts[j], draws[j])
         <==> Lacks(host, w, attempts[j])
    {
    }
  }

  /** What was committed up to and including the attempt that raised stays committed, and nothing after it happens. */
  lemma {:induction false} PollCommits(host: Host, w: World, attempts: seq<Attempt>, draws: seq<JobId>)
    requires |draws| >= |attempts|
    ensures var (after, completed) := Poll(host, w, attempts, draws);
            after == CommitAll(host, w, attempts[..if completed < |attempts| then completed + 1 else completed], draws)
    decreases |attempts|
  {
    hide Commit, Raises;
    if attempts != [] {
      var next := Commit(host, w, attempts[0], draws[0]);
      PollCommits(host, next, attempts[1..], draws[1..]);
      var n := Poll(host, w, attempts, draws).1;
      var k := if n < |attempts| then n + 1 else n;
      assert attempts[..k][1..] == attempts[1..][..k - 1];
      assert Raises(host, w, attempts[0], draws[0]) ==> attempts[..k][1..] == [];
    }
  }

  lemma {:induction false} PollSound(host: Host, w: World, attempts: seq<Attempt>, draws: seq<JobId>)
    requires Sound(w) && |draws| >= |attempts| && Fresh(w, draws)
    ensures Sound(Poll(host, w, attempts, draws).0)
    decreases |attempts|
  {
    hide Sound, Fresh, Commit, Raises;
    if attempts != [] {
      CommitSound(host, w, attempts[0], draws);
      PollSound(host, Commit(host, w, attempts[0], draws[0]), attempts[1..], draws[1..]);
    }
  }

  // ---------------------------------------------------------------- what a poll publishes

  /** The poll comes to this attempt. */
  ghost predicate Reaches(host: Host, w: World, attempts: seq<Attempt>, draws: seq<JobId>, a: Attempt)
    requires |draws| >= |attempts|
  {
    exists i :: 0 <= i < |attempts| && i <= Poll(host, w, attempts, draws).1 && attempts[i] == a
  }

  lemma ReachesHeadOrTail(host: Host, w: World, attempts: seq<Attempt>, draws: seq<JobId>, a: Attempt)
    requires |draws| >= |attempts| && attempts != []
    ensures Reaches(host, w, attempts, draws, a) <==>
              attempts[0] == a
              || (!Raises(host, w, attempts[0], draws[0])
                  && Reaches(host, Commit(host, w, attempts[0], draws[0]), attempts[1..], draws[1..], a))
  {
    hide Commit, Raises;
    var after := Commit(host, w, attempts[0], draws[0]);
    if !Raises(host, w, attempts[0], draws[0]) && Reaches(host, after, attempts[1..], draws[1..], a) {
      var i :| 0 <= i < |attempts[1..]| && i <= Poll(host, after, attempts[1..], draws[1..]).1 && attempts[1..][i] == a;
      assert attempts[i + 1] == a && i + 1 <= Poll(host, w, attempts, draws).1;
    }
    if Reaches(host, w, attempts, draws, a) && attempts[0] != a {
      var i :| 0 <= i < |attempts| && i <= Poll(host, w, attempts, draws).1 && attempts[i] == a;
      assert attempts[1..][i - 1] == a;
    }
  }

  /** A published row stays published. */
  lemma {:induction false} PollKeepsPublished(
    host: Host, w: World, attempts: seq<Attempt>, draws: seq<JobId>, pk: int)
    requires Sound(w) && |draws| >= |attempts| && Fresh(w, draws)
    requires pk in w.executions && w.executions[pk].job.Some?
    ensures var after := Poll(host, w, attempts, draws).0;
            pk in after.executions && after.executions[pk] == w.executions[pk]
    decreases |attempts|
  {
    hide Sound, Fresh, Fire, Raises;
    if attempts != [] {
      var first := attempts[0];
      CommitSound(host, w, first, draws);
      if first.Attempt? {
        FireElsewhere(host, w, first.key, first.runAt, draws[0], pk, w.executions[pk].key, w.executions[pk].runAt);
      }
      PollKeepsPublished(host, Commit(host, w, first, draws[0]), attempts[1..], draws[1..], pk);
    }
  }

  /**
   An open reservation whose schedule still matches and whose definition can be enqueued is published by a poll,
   under the id drawn for it, exactly when the poll comes to it.
   */
  lemma {:induction false} ReachedReservationIsPublished(
    host: Host, runs: (string, Time) -> bool, w: World, attempts: seq<Attempt>, draws: seq<JobId>,
    pk: int, key: TaskKey, runAt: Time, intended: JobId)
    requires Lawful(host, runs) && Sound(w) && |draws| >= |attempts| && Fresh(w, draws)
    requires Holds(w, pk, key, runAt, intended) && w.executions[pk].job.None?
    requires DueAt(host, runs, w, key, runAt) && host.enqueues(w.tasks[key].definition)
    ensures var after := Poll(host, w, attempts, draws).0;
            && Holds(after, pk, key, runAt, intended)
            && (after.executions[pk].job == Some(intended) <==> Reaches(host, w, attempts, draws, Attempt(key, runAt)))
    decreases |attempts|
  {
    hide Sound, Fresh, Fire, Lawful, Raises;
    if attempts == [] {
      assert !Reaches(host, w, attempts, draws, Attempt(key, runAt));
    } else {
      var first := attempts[0];
      var after := Commit(host, w, first, draws[0]);
      CommitSound(host, w, first, draws);
      ReachesHeadOrTail(host, w, attempts, draws, Attempt(key, runAt));
      hide Reaches;
      if first == Attempt(key, runAt) {
        CrashedReservationIsPublished(host, runs, w, pk, key, runAt, intended, draws[0]);
        PollKeepsPublished(host, after, attempts[1..], draws[1..], pk);
      } else {
        if first.Attempt? {
          FireElsewhere(host, w, first.key, first.runAt, draws[0], pk, key, runAt);
        }
        CommitKeepsTask(host, w, first, draws[0], key);
        ReachedReservationIsPublished(host, runs, after, attempts[1..], draws[1..], pk, key, runAt, intended);
      }
    }
  }

  // ---------------------------------------------------------------- editing a schedule can refire

  /** A new row is inserted, the cursor moves to the next run, and a reservation is issued. */
  lemma ReserveNew(host: Host, w: World, key: TaskKey, runAt: Time, drawn: JobId)
    requires key in w.tasks && w.tasks[key].nextRunAt == None && Find(w, key, runAt).None?
    requires host.latest(w.tasks[key].schedule, runAt + 1) == Some(runAt)
    requires host.next(w.tasks[key].schedule, runAt).Some?
    ensures var r := Reservation(w.nextPk, drawn, w.tasks[key].definition);
            Apply(host, w, DoReserve(key, runAt, drawn, true))
            == w.(tasks := w.tasks[key := w.tasks[key].(nextRunAt := host.next(w.tasks[key].schedule, runAt))],
                  executions := w.executions[w.nextPk := Execution(key, runAt, Some(drawn), None)],
                  nextPk := w.nextPk + 1, used := w.used + {drawn}, issued := w.issued + {r})
  {
  }

  /** The schedule runs at this time, and again later. */
  predicate RunsOn(host: Host, schedule: string, runAt: Time) {
    host.latest(schedule, runAt + 1) == Some(runAt) && host.next(schedule, runAt).Some?
  }

  /** One task, with its rows so far gone, saved with a schedule it did not have, then fired. */
  lemma SaveAndFire(host: Host, w: World, key: TaskKey, d: Definition, schedule: string, runAt: Time, drawn: JobId)
    requires RunsOn(host, schedule, runAt) && host.enqueues(d)
    requires w.executions == map[] && (key in w.tasks ==> w.tasks[key].schedule != schedule) && drawn !in w.jobs
    ensures var w1 := Apply(host, w, DoSave(key, d, schedule, false));
            var w2 := Apply(host, w1, DoReserve(key, runAt, drawn, true));
            var w3 := Apply(host, w2, DoPublish(Reservation(w.nextPk, drawn, d), true));
            var w4 := Apply(host, w3, DoClearExecutions({w.nextPk}));
            && w1.used == w.used && Reservation(w.nextPk, drawn, d) in w2.issued
            && w3.published == w.published + multiset{(key, runAt)}
            && w4.published == w3.published && w4.executions == map[] && w4.jobs.Keys == w.jobs.Keys + {drawn}
            && w4.used == w.used + {drawn} && w4.nextPk == w.nextPk + 1
            && key in w4.tasks && w4.tasks[key].schedule == schedule
  {
    var w1 := Apply(host, w, DoSave(key, d, schedule, false));
    assert Find(w1, key, runAt).None?;
    ReserveNew(host, w1, key, runAt, drawn);
    hide Reserve, Find;
  }

  /** Save, reserve, publish, and retention deletes the reservation. */
  function Round(w: World, key: TaskKey, d: Definition, schedule: string, runAt: Time, drawn: JobId): seq<Step> {
    [DoSave(key, d, schedule, false), DoReserve(key, runAt, drawn, true),
     DoPublish(Reservation(w.nextPk, drawn, d), true), DoClearExecutions({w.nextPk})]
  }

  lemma RoundPublishes(host: Host, w: World, key: TaskKey, d: Definition, schedule: string, runAt: Time, drawn: JobId)
    requires RunsOn(host, schedule, runAt) && host.enqueues(d)
    requires w.executions == map[] && (key in w.tasks ==> w.tasks[key].schedule != schedule)
    requires drawn !in w.jobs && drawn !in w.used
    ensures var steps := Round(w, key, d, schedule, runAt, drawn);
            var after := Trace(host, w, steps);
            && EnabledTrace(host, w, steps)
            && after.published == w.published + multiset{(key, runAt)} && after.executions == map[]
            && after.jobs.Keys == w.jobs.Keys + {drawn} && after.used == w.used + {drawn}
            && key in after.tasks && after.tasks[key].schedule == schedule
  {
    SaveAndFire(host, w, key, d, schedule, runAt, drawn);
    var steps := Round(w, key, d, schedule, runAt, drawn);
    var w1 := Apply(host, w, steps[0]);
    var w2 := Apply(host, w1, steps[1]);
    var w3 := Apply(host, w2, steps[2]);
    hide Apply;
    OneMore(host, w3, steps[3], []);
    OneMore(host, w2, steps[2], [steps[3]]);
    OneMore(host, w1, steps[1], [steps[2], steps[3]]);
    OneMore(host, w, steps[0], [steps[1], steps[2], steps[3]]);
    assert steps == [steps[0]] + [steps[1], steps[2], steps[3]];
  }

  /** For any two schedules that share a run: reserve, publish, retention, the other schedule, and it fires again. */
  lemma EditedScheduleCanRefire(host: Host, key: TaskKey, d: Definition, before: string, after: string, runAt: Time)
    requires before != after && RunsOn(host, before, runAt) && RunsOn(host, after, runAt) && host.enqueues(d)
    ensures exists steps :: EnabledTrace(host, EmptyWorld, steps)
                            && Trace(host, EmptyWorld, steps).published[(key, runAt)] == 2
  {
    RoundPublishes(host, EmptyWorld, key, d, before, runAt, 1);
    var first := Round(EmptyWorld, key, d, before, runAt, 1);
    var w := Trace(host, EmptyWorld, first);
    RoundPublishes(host, w, key, d, after, runAt, 2);
    var second := Round(w, key, d, after, runAt, 2);
    hide Round, Trace, EnabledTrace;
    TraceConcat(host, EmptyWorld, first, second);
    assert Trace(host, EmptyWorld, first + second).published[(key, runAt)] == 2;
  }

  lemma {:induction false} TraceConcat(host: Host, w: World, xs: seq<Step>, ys: seq<Step>)
    ensures Trace(host, w, xs + ys) == Trace(host, Trace(host, w, xs), ys)
    ensures EnabledTrace(host, w, xs + ys) <==> EnabledTrace(host, w, xs) && EnabledTrace(host, Trace(host, w, xs), ys)
    decreases |xs|
  {
    hide Apply, Enabled;
    if xs == [] {
      assert xs + ys == ys;
    } else {
      assert (xs + ys)[1..] == xs[1..] + ys;
      TraceConcat(host, Apply(host, w, xs[0]), xs[1..], ys);
    }
  }

  lemma OneMore(host: Host, w: World, step: Step, rest: seq<Step>)
    ensures Trace(host, w, [step] + rest) == Trace(host, Apply(host, w, step), rest)
    ensures EnabledTrace(host, w, [step] + rest) <==> Enabled(w, step) && EnabledTrace(host, Apply(host, w, step), rest)
  {
    assert ([step] + rest)[1..] == rest;
  }
}
