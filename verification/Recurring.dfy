/**
 Recurring tasks: any number of schedulers reserve a run of a task in one transaction and publish its
 job in another, and may stop between the two. The reservation row is unique for a task and a time,
 carries the id of the job to be, and may be deleted later; the task's cursor only moves on.
 */
module Recurring {
  import opened Results
  import Ordering
  import Semaphores
  import Tables

  type Time = Semaphores.Time

  type JobId = Tables.JobId

  /** Backend alias and key. */
  type TaskKey = (string, string)

  datatype Definition = Definition(taskPath: string, payload: string, queue: string, priority: int, description: string)

  datatype Task = Task(definition: Definition, schedule: string, isStatic: bool, nextRunAt: Option<Time>)

  datatype Execution = Execution(key: TaskKey, runAt: Time, intended: Option<JobId>, job: Option<JobId>)

  datatype Reservation = Reservation(pk: int, intended: JobId, definition: Definition)

  /**
   `issued` are the reservations schedulers hold or have held: any of them may be published at any time,
   again, or never. `published` counts the jobs created for a task and a time, and `used` are the job ids
   drawn so far; no transition reads either.
   */
  datatype World = World(
    tasks: map<TaskKey, Task>,
    executions: map<int, Execution>,
    jobs: map<JobId, Definition>,
    nextPk: int,
    issued: set<Reservation>,
    published: multiset<(TaskKey, Time)>,
    used: set<JobId>
  )

  const EmptyWorld := World(map[], map[], map[], 1, {}, multiset{}, {})

  /**
   What a scheduler's host answers: the latest run at or before a time, the first run after it, and whether a
   job with this definition can be enqueued. A search without an answer raises.
   */
  datatype Host = Host(
    latest: (string, Time) -> Option<Time>, next: (string, Time) -> Option<Time>, enqueues: Definition -> bool)

  ghost predicate IsLatest(runs: (string, Time) -> bool, schedule: string, now: Time, r: Time) {
    runs(schedule, r) && r <= now && forall t :: runs(schedule, t) && t <= now ==> t <= r
  }

  ghost predicate IsNext(runs: (string, Time) -> bool, schedule: string, now: Time, r: Time) {
    runs(schedule, r) && now < r && forall t :: runs(schedule, t) && now < t ==> r <= t
  }

  /** What the cron search guarantees, for runs at whole seconds. */
  ghost predicate Lawful(host: Host, runs: (string, Time) -> bool) {
    && (forall s, t :: host.latest(s, t).Some? ==> IsLatest(runs, s, t, host.latest(s, t).value))
    && (forall s, t :: host.next(s, t).Some? ==> IsNext(runs, s, t, host.next(s, t).value))
    && (forall s, t :: runs(s, t) ==> host.latest(s, t + 1) == Some(t))
  }

  // ---------------------------------------------------------------- the two transactions

  predicate IsRow(w: World, key: TaskKey, runAt: Time, pk: int) {
    pk in w.executions && w.executions[pk].key == key && w.executions[pk].runAt == runAt
  }

  function Rows(w: World, key: TaskKey, runAt: Time): set<int> {
    set pk | pk in w.executions && IsRow(w, key, runAt, pk)
  }

  predicate IsLeast(pk: int, pks: set<int>) {
    pk in pks && forall q :: q in pks ==> pk <= q
  }

  lemma LeastExists(pks: set<int>)
    requires pks != {}
    ensures exists pk :: IsLeast(pk, pks)
  {
    var before := (x: int, y: int) => x < y;
    var pk := Ordering.Leader(before, pks);
    assert IsLeast(pk, pks);
  }

  /** The first row for a task and a time. */
  function Find(w: World, key: TaskKey, runAt: Time): (r: Option<int>)
    ensures r.Some? ==> IsRow(w, key, runAt, r.value)
    ensures r.None? ==> forall pk :: !IsRow(w, key, runAt, pk)
  {
    var pks := Rows(w, key, runAt);
    assert forall pk :: IsRow(w, key, runAt, pk) ==> pk in pks;
    if pks == {} then
      None
    else
      LeastExists(pks);
      var pk :| pk in pks && IsLeast(pk, pks);
      Some(pk)
  }

  /** The row is still to be published. */
  predicate Open(e: Execution) {
    e.job.None? && e.intended.Some?
  }

  predicate Past(task: Task, runAt: Time) {
    task.nextRunAt.Some? && task.nextRunAt.value > runAt
  }

  function Issue(w: World, key: TaskKey, pk: int): (World, Option<Reservation>)
    requires pk in w.executions && key in w.tasks
  {
    var e := w.executions[pk];
    if Open(e) then
      var r := Reservation(pk, e.intended.value, w.tasks[key].definition);
      (w.(issued := w.issued + {r}), Some(r))
    else
      (w, None)
  }

  function Advance(task: Task, next: Time): Task {
    if task.nextRunAt.None? || task.nextRunAt.value < next then task.(nextRunAt := Some(next)) else task
  }

  /**
   `visible` tells that the task's row is not locked elsewhere; `drawn` is the job id drawn for a new row.
   Neither search may be without an answer, even where the answer is not used.
   */
  function TryReserve(host: Host, w: World, key: TaskKey, runAt: Time, drawn: JobId, visible: bool)
    : Result<(World, Option<Reservation>)>
  {
    if key !in w.tasks || !visible then
      Ok((w, None))
    else
      var task := w.tasks[key];
      var latest := host.latest(task.schedule, runAt + 1);
      var _ :- Need(latest.Some?, NoRun);
      if latest.value != runAt then
        Ok((w, None))
      else
        var next := host.next(task.schedule, runAt);
        var _ :- Need(next.Some?, NoRun);
        Ok(ReserveRun(w, key, runAt, next.value, drawn))
  }

  function ReserveRun(w: World, key: TaskKey, runAt: Time, next: Time, drawn: JobId): (World, Option<Reservation>)
    requires key in w.tasks
  {
    var row := Find(w, key, runAt);
    if Past(w.tasks[key], runAt) then
      if row.None? then (w, None) else Issue(w, key, row.value)
    else
      var moved := w.(tasks := w.tasks[key := Advance(w.tasks[key], next)]);
      if row.Some? then
        Issue(moved, key, row.value)
      else
        var inserted := moved.(executions := w.executions[w.nextPk := Execution(key, runAt, Some(drawn), None)],
                               nextPk := w.nextPk + 1, used := w.used + {drawn});
        Issue(inserted, key, w.nextPk)
  }

  /** What a reserving transaction commits: nothing, when it raises. */
  function Reserve(host: Host, w: World, key: TaskKey, runAt: Time, drawn: JobId, visible: bool)
    : (World, Option<Reservation>)
  {
    var r := TryReserve(host, w, key, runAt, drawn, visible);
    if r.Ok? then r.value else (w, None)
  }

  predicate AssignedElsewhere(w: World, pk: int, job: JobId) {
    exists other :: other in w.executions && other != pk && w.executions[other].job == Some(job)
  }

  /** The job is created and attached in one transaction. */
  function TryPublish(host: Host, w: World, r: Reservation, visible: bool): Result<World> {
    if !visible || r.pk !in w.executions || w.executions[r.pk].job.Some? then
      Ok(w)
    else
      var _ :- Need(if r.intended in w.jobs
                    then w.jobs[r.intended] == r.definition && !AssignedElsewhere(w, r.pk, r.intended)
                    else host.enqueues(r.definition), Rejected);
      var _ :- Need(w.executions[r.pk].intended == Some(r.intended), Rejected);
      var e := w.executions[r.pk];
      Ok(w.(jobs := if r.intended in w.jobs then w.jobs else w.jobs[r.intended := r.definition],
            executions := w.executions[r.pk := e.(job := Some(r.intended))],
            published := w.published + multiset{(e.key, e.runAt)}))
  }

  /** What a publishing transaction commits: nothing, when it raises. */
  function Publish(host: Host, w: World, r: Reservation, visible: bool): World {
    var published := TryPublish(host, w, r, visible);
    if published.Ok? then published.value else w
  }

  // ---------------------------------------------------------------- everything that can happen

  datatype Step =
    | DoReserve(key: TaskKey, runAt: Time, drawn: JobId, visible: bool)
    | DoPublish(reservation: Reservation, visible: bool)
    | DoSave(key: TaskKey, definition: Definition, schedule: string, isStatic: bool)
    | DoRemove(key: TaskKey)
    | DoClearExecutions(pks: set<int>)
    | DoDeleteJob(job: JobId)
    | DoEnqueue(drawn: JobId, definition: Definition)

  /** A saved schedule that differs from the stored one restarts the cursor; so does a new task. */
  function Save(w: World, key: TaskKey, definition: Definition, schedule: string, isStatic: bool): World {
    var kept := key in w.tasks && w.tasks[key].schedule == schedule;
    w.(tasks := w.tasks[key := Task(definition, schedule, isStatic, if kept then w.tasks[key].nextRunAt else None)])
  }

  function DeleteRecurringJob(w: World, job: JobId): World {
    w.(jobs := w.jobs - {job},
       executions := map pk | pk in w.executions && w.executions[pk].job != Some(job) :: w.executions[pk])
  }

  /** Job ids are drawn at random and do not repeat; a reservation is published only by one that got it. */
  predicate Enabled(w: World, step: Step) {
    match step
    case DoReserve(_, _, drawn, _) => drawn !in w.used
    case DoPublish(reservation, _) => reservation in w.issued
    case DoEnqueue(drawn, _) => drawn !in w.used
    case _ => true
  }

  function Apply(host: Host, w: World, step: Step): World {
    match step
    case DoReserve(key, runAt, drawn, visible) => Reserve(host, w, key, runAt, drawn, visible).0
    case DoPublish(reservation, visible) => Publish(host, w, reservation, visible)
    case DoSave(key, definition, schedule, isStatic) => Save(w, key, definition, schedule, isStatic)
    case DoRemove(key) => w.(tasks := w.tasks - {key})
    case DoClearExecutions(pks) => w.(executions := w.executions - pks)
    case DoDeleteJob(job) => DeleteRecurringJob(w, job)
    case DoEnqueue(drawn, definition) => w.(jobs := w.jobs[drawn := definition], used := w.used + {drawn})
  }

  function Trace(host: Host, w: World, steps: seq<Step>): World
    decreases |steps|
  {
    if steps == [] then w else Trace(host, Apply(host, w, steps[0]), steps[1..])
  }

  predicate EnabledTrace(host: Host, w: World, steps: seq<Step>)
    decreases |steps|
  {
    steps == [] || (Enabled(w, steps[0]) && EnabledTrace(host, Apply(host, w, steps[0]), steps[1..]))
  }

  // ---------------------------------------------------------------- the invariant

  /** A row's job is absent or the intended one, and exists; an open row's job does not exist yet. */
  predicate RowFits(w: World, e: Execution) {
    && (e.job.Some? ==> e.intended == e.job && e.job.value in w.jobs)
    && (e.intended.Some? ==> e.intended.value in w.used)
    && (Open(e) ==> e.intended.value !in w.jobs)
  }

  ghost predicate Distinct(w: World) {
    forall p, q :: p in w.executions && q in w.executions && p != q ==>
      && (w.executions[p].key != w.executions[q].key || w.executions[p].runAt != w.executions[q].runAt)
      && (w.executions[p].intended.Some? ==> w.executions[p].intended != w.executions[q].intended)
  }

  ghost predicate Sound(w: World) {
    && (forall pk :: pk in w.executions ==> pk < w.nextPk && RowFits(w, w.executions[pk]))
    && (forall job :: job in w.jobs ==> job in w.used)
    && Distinct(w)
    && (forall r :: r in w.issued ==> r.pk < w.nextPk)
    && (forall r :: r in w.issued && r.pk in w.executions ==> w.executions[r.pk].intended == Some(r.intended))
  }

  lemma IssueSound(w: World, key: TaskKey, pk: int)
    requires Sound(w) && pk in w.executions && key in w.tasks
    ensures Sound(Issue(w, key, pk).0)
  {
  }

  lemma InsertSound(w: World, key: TaskKey, runAt: Time, drawn: JobId)
    requires Sound(w) && drawn !in w.used && Find(w, key, runAt).None?
    ensures Sound(w.(executions := w.executions[w.nextPk := Execution(key, runAt, Some(drawn), None)],
                     nextPk := w.nextPk + 1, used := w.used + {drawn}))
  {
    assert forall pk :: pk in w.executions ==> !IsRow(w, key, runAt, pk) && RowFits(w, w.executions[pk]);
  }

  lemma ReserveRunSound(w: World, key: TaskKey, runAt: Time, next: Time, drawn: JobId)
    requires Sound(w) && key in w.tasks && drawn !in w.used
    ensures Sound(ReserveRun(w, key, runAt, next, drawn).0)
  {
    var row := Find(w, key, runAt);
    var moved := w.(tasks := w.tasks[key := Advance(w.tasks[key], next)]);
    assert Sound(moved);
    assert Find(moved, key, runAt) == row;
    hide Sound, Find;
    if row.Some? {
      IssueSound(w, key, row.value);
      IssueSound(moved, key, row.value);
    } else {
      InsertSound(moved, key, runAt, drawn);
      var inserted := moved.(executions := w.executions[w.nextPk := Execution(key, runAt, Some(drawn), None)],
                             nextPk := w.nextPk + 1, used := w.used + {drawn});
      IssueSound(inserted, key, w.nextPk);
    }
  }

  lemma ReserveSound(host: Host, w: World, key: TaskKey, runAt: Time, drawn: JobId, visible: bool)
    requires Sound(w) && drawn !in w.used
    ensures Sound(Reserve(host, w, key, runAt, drawn, visible).0)
  {
    hide Sound, ReserveRun;
    if key in w.tasks && host.next(w.tasks[key].schedule, runAt).Some? {
      ReserveRunSound(w, key, runAt, host.next(w.tasks[key].schedule, runAt).value, drawn);
    }
  }

  lemma PublishSound(host: Host, w: World, r: Reservation, visible: bool)
    requires Sound(w) && r in w.issued
    ensures Sound(Publish(host, w, r, visible))
  {
    var after := Publish(host, w, r, visible);
    if after != w {
      assert RowFits(w, w.executions[r.pk]);
      forall pk | pk in after.executions
        ensures RowFits(after, after.executions[pk])
      {
        assert RowFits(w, w.executions[pk]);
      }
    }
  }

  lemma DeleteJobSound(w: World, job: JobId)
    requires Sound(w)
    ensures Sound(DeleteRecurringJob(w, job))
  {
    var after := DeleteRecurringJob(w, job);
    forall pk | pk in after.executions
      ensures RowFits(after, after.executions[pk])
    {
      assert RowFits(w, w.executions[pk]);
    }
  }

  lemma EnqueueSound(w: World, drawn: JobId, definition: Definition)
    requires Sound(w) && drawn !in w.used
    ensures Sound(w.(jobs := w.jobs[drawn := definition], used := w.used + {drawn}))
  {
    assert forall pk :: pk in w.executions ==> RowFits(w, w.executions[pk]);
  }

  lemma ClearSound(w: World, pks: set<int>)
    requires Sound(w)
    ensures Sound(w.(executions := w.executions - pks))
  {
    assert forall pk :: pk in w.executions ==> RowFits(w, w.executions[pk]);
  }

  lemma ApplySound(host: Host, w: World, step: Step)
    requires Sound(w) && Enabled(w, step)
    ensures Sound(Apply(host, w, step))
  {
    match step
    case DoReserve(key, runAt, drawn, visible) => hide Sound; ReserveSound(host, w, key, runAt, drawn, visible);
    case DoPublish(reservation, visible) => hide Sound; PublishSound(host, w, reservation, visible);
    case DoSave(key, definition, schedule, isStatic) =>
      assert forall pk :: pk in w.executions ==> RowFits(w, w.executions[pk]);
    case DoRemove(key) => assert forall pk :: pk in w.executions ==> RowFits(w, w.executions[pk]);
    case DoClearExecutions(pks) => hide Sound; ClearSound(w, pks);
    case DoDeleteJob(job) => hide Sound; DeleteJobSound(w, job);
    case DoEnqueue(drawn, definition) => hide Sound; EnqueueSound(w, drawn, definition);
  }

  /** In every reachable world a reservation's job is null or the intended one, and the two appear together. */
  lemma {:induction false} TraceSound(host: Host, w: World, steps: seq<Step>)
    requires Sound(w) && EnabledTrace(host, w, steps)
    ensures Sound(Trace(host, w, steps))
    decreases |steps|
  {
    hide Sound, Apply, Enabled;
    if steps != [] {
      ApplySound(host, w, steps[0]);
      TraceSound(host, Apply(host, w, steps[0]), steps[1..]);
    }
  }

  // ---------------------------------------------------------------- at most one job

  /** Published, with neither its row left nor the cursor past it: nothing would stop a second job. */
  ghost predicate Exposed(w: World, key: TaskKey, runAt: Time) {
    && w.published[(key, runAt)] >= 1
    && Find(w, key, runAt).None?
    && key in w.tasks && !Past(w.tasks[key], runAt)
  }

  /** At most one job, and if there is one then no row waits for another. */
  ghost predicate Once(w: World, key: TaskKey, runAt: Time) {
    && w.published[(key, runAt)] <= 1
    && (w.published[(key, runAt)] == 1 ==> forall pk :: IsRow(w, key, runAt, pk) ==> w.executions[pk].job.Some?)
  }

  lemma ReserveOnce(
    host: Host, w: World, k: TaskKey, at: Time, drawn: JobId, visible: bool, key: TaskKey, runAt: Time)
    requires Sound(w) && Once(w, key, runAt) && !Exposed(w, key, runAt)
    ensures Once(Reserve(host, w, k, at, drawn, visible).0, key, runAt)
  {
    var after := Reserve(host, w, k, at, drawn, visible).0;
    assert after.published == w.published;
    forall pk | IsRow(after, key, runAt, pk) && after.published[(key, runAt)] == 1
      ensures after.executions[pk].job.Some?
    {
      if pk in w.executions && pk != w.nextPk {
        assert IsRow(w, key, runAt, pk);
      }
    }
  }

  lemma PublishOnce(host: Host, w: World, r: Reservation, visible: bool, key: TaskKey, runAt: Time)
    requires Sound(w) && Once(w, key, runAt)
    ensures Once(Publish(host, w, r, visible), key, runAt)
  {
    var after := Publish(host, w, r, visible);
    if after != w {
      assert IsRow(w, key, runAt, r.pk) || after.published[(key, runAt)] == w.published[(key, runAt)];
      forall pk | IsRow(after, key, runAt, pk) && after.published[(key, runAt)] == 1
        ensures after.executions[pk].job.Some?
      {
        assert IsRow(w, key, runAt, pk);
      }
    }
  }

  lemma ApplyOnce(host: Host, w: World, step: Step, key: TaskKey, runAt: Time)
    requires Sound(w) && Once(w, key, runAt) && !Exposed(w, key, runAt)
    ensures Once(Apply(host, w, step), key, runAt)
  {
    match step
    case DoReserve(k, at, drawn, visible) =>
      hide Sound, Once, Exposed;
      ReserveOnce(host, w, k, at, drawn, visible, key, runAt);
    case DoPublish(reservation, visible) =>
      hide Sound, Once, Exposed;
      PublishOnce(host, w, reservation, visible, key, runAt);
    case _ =>
      hide Sound, Exposed;
      var after := Apply(host, w, step);
      assert after.published == w.published;
      assert forall pk :: IsRow(after, key, runAt, pk) ==> IsRow(w, key, runAt, pk) && after.executions[pk] == w.executions[pk];
  }

  ghost predicate NeverExposed(host: Host, w: World, steps: seq<Step>, key: TaskKey, runAt: Time)
    decreases |steps|
  {
    && !Exposed(w, key, runAt)
    && (steps == [] || NeverExposed(host, Apply(host, w, steps[0]), steps[1..], key, runAt))
  }

  /** As long as a published run keeps its row or stays behind the cursor, it is published only once. */
  lemma {:induction false} AtMostOnceUnlessExposed(
    host: Host, w: World, steps: seq<Step>, key: TaskKey, runAt: Time)
    requires Sound(w) && EnabledTrace(host, w, steps) && Once(w, key, runAt)
    requires NeverExposed(host, w, steps, key, runAt)
    ensures Once(Trace(host, w, steps), key, runAt)
    decreases |steps|
  {
    hide Sound, Once, Exposed, Apply, Enabled;
    if steps != [] {
      ApplySound(host, w, steps[0]);
      ApplyOnce(host, w, steps[0], key, runAt);
      AtMostOnceUnlessExposed(host, Apply(host, w, steps[0]), steps[1..], key, runAt);
    }
  }

  // ---------------------------------------------------------------- the cursor

  /** The step leaves the task alone or keeps its schedule: it neither removes nor recreates it. */
  predicate KeepsSchedule(w: World, step: Step, key: TaskKey) {
    match step
    case DoSave(k, _, schedule, _) => k == key ==> key in w.tasks && w.tasks[key].schedule == schedule
    case DoRemove(k) => k != key
    case _ => true
  }

  predicate KeepsScheduleThroughout(host: Host, w: World, steps: seq<Step>, key: TaskKey)
    decreases |steps|
  {
    steps == [] || (KeepsSchedule(w, steps[0], key) && KeepsScheduleThroughout(host, Apply(host, w, steps[0]), steps[1..], key))
  }

  predicate CursorAtLeast(after: Option<Time>, before: Option<Time>) {
    before.Some? ==> after.Some? && after.value >= before.value
  }

  /** The task is there as before, but for a cursor that may have moved on. */
  predicate SameButCursor(w: World, after: World, key: TaskKey) {
    && key in w.tasks && key in after.tasks
    && after.tasks[key].(nextRunAt := w.tasks[key].nextRunAt) == w.tasks[key]
    && CursorAtLeast(after.tasks[key].nextRunAt, w.tasks[key].nextRunAt)
  }

  lemma ReserveRunCursor(w: World, k: TaskKey, at: Time, next: Time, drawn: JobId, key: TaskKey)
    requires k in w.tasks && key in w.tasks
    ensures SameButCursor(w, ReserveRun(w, k, at, next, drawn).0, key)
  {
    hide Find;
  }

  lemma ReserveCursor(host: Host, w: World, k: TaskKey, at: Time, drawn: JobId, visible: bool, key: TaskKey)
    requires key in w.tasks
    ensures SameButCursor(w, Reserve(host, w, k, at, drawn, visible).0, key)
  {
    hide ReserveRun;
    if k in w.tasks && host.next(w.tasks[k].schedule, at).Some? {
      ReserveRunCursor(w, k, at, host.next(w.tasks[k].schedule, at).value, drawn, key);
    }
  }

  /** While the schedule is kept the cursor never moves backward. */
  lemma CursorNeverMovesBack(host: Host, w: World, step: Step, key: TaskKey)
    requires key in w.tasks && KeepsSchedule(w, step, key)
    ensures var after := Apply(host, w, step);
            key in after.tasks && after.tasks[key].schedule == w.tasks[key].schedule
            && CursorAtLeast(after.tasks[key].nextRunAt, w.tasks[key].nextRunAt)
  {
    match step
    case DoReserve(k, at, drawn, visible) =>
      hide Reserve;
      ReserveCursor(host, w, k, at, drawn, visible, key);
    case _ =>
  }

  /** Every run of the task with a row or a job is behind the cursor. */
  ghost predicate Guarded(w: World, key: TaskKey) {
    && key in w.tasks
    && (forall pk :: pk in w.executions && w.executions[pk].key == key ==> Past(w.tasks[key], w.executions[pk].runAt))
    && (forall runAt :: w.published[(key, runAt)] >= 1 ==> Past(w.tasks[key], runAt))
  }

  lemma ReserveRunGuarded(w: World, k: TaskKey, at: Time, next: Time, drawn: JobId, key: TaskKey)
    requires Guarded(w, key) && k in w.tasks && next > at
    ensures Guarded(ReserveRun(w, k, at, next, drawn).0, key)
  {
    var after := ReserveRun(w, k, at, next, drawn).0;
    assert after.published == w.published;
    ReserveRunCursor(w, k, at, next, drawn, key);
    assert k == key ==> Past(after.tasks[key], at) || after == w || after.executions == w.executions;
    forall pk | pk in after.executions && after.executions[pk].key == key
      ensures Past(after.tasks[key], after.executions[pk].runAt)
    {
      assert pk in w.executions && pk != w.nextPk ==> after.executions[pk] == w.executions[pk];
    }
  }

  lemma ReserveGuarded(
    host: Host, runs: (string, Time) -> bool, w: World, k: TaskKey, at: Time, drawn: JobId, visible: bool,
    key: TaskKey)
    requires Lawful(host, runs) && Guarded(w, key)
    ensures Guarded(Reserve(host, w, k, at, drawn, visible).0, key)
  {
    hide Guarded, ReserveRun;
    if k in w.tasks && host.next(w.tasks[k].schedule, at).Some? {
      var next := host.next(w.tasks[k].schedule, at).value;
      assert IsNext(runs, w.tasks[k].schedule, at, next);
      ReserveRunGuarded(w, k, at, next, drawn, key);
    }
  }

  lemma PublishGuarded(host: Host, w: World, r: Reservation, visible: bool, key: TaskKey)
    requires Guarded(w, key)
    ensures Guarded(Publish(host, w, r, visible), key)
  {
    var after := Publish(host, w, r, visible);
    if after != w {
      var e := w.executions[r.pk];
      assert e.key == key ==> Past(w.tasks[key], e.runAt);
      forall runAt | after.published[(key, runAt)] >= 1
        ensures Past(after.tasks[key], runAt)
      {
        if (e.key, e.runAt) != (key, runAt) {
          assert w.published[(key, runAt)] >= 1;
        }
      }
    }
  }

  lemma ApplyGuarded(host: Host, runs: (string, Time) -> bool, w: World, step: Step, key: TaskKey)
    requires Lawful(host, runs) && Guarded(w, key) && KeepsSchedule(w, step, key)
    ensures Guarded(Apply(host, w, step), key)
  {
    match step
    case DoReserve(k, at, drawn, visible) =>
      hide Guarded, Lawful;
      ReserveGuarded(host, runs, w, k, at, drawn, visible, key);
    case DoPublish(reservation, visible) =>
      hide Guarded, Lawful;
      PublishGuarded(host, w, reservation, visible, key);
    case _ =>
      CursorNeverMovesBack(host, w, step, key);
      var after := Apply(host, w, step);
      assert after.published == w.published;
      assert forall pk :: pk in after.executions ==> pk in w.executions && after.executions[pk] == w.executions[pk];
  }

  lemma GuardedNotExposed(w: World, key: TaskKey, runAt: Time)
    requires Guarded(w, key)
    ensures !Exposed(w, key, runAt)
  {
  }

  lemma {:induction false} GuardedNeverExposed(
    host: Host, runs: (string, Time) -> bool, w: World, steps: seq<Step>, key: TaskKey, runAt: Time)
    requires Lawful(host, runs) && Guarded(w, key) && KeepsScheduleThroughout(host, w, steps, key)
    ensures NeverExposed(host, w, steps, key, runAt)
    decreases |steps|
  {
    hide Guarded, Lawful, Apply, Exposed, KeepsSchedule;
    GuardedNotExposed(w, key, runAt);
    if steps != [] {
      ApplyGuarded(host, runs, w, steps[0], key);
      GuardedNeverExposed(host, runs, Apply(host, w, steps[0]), steps[1..], key, runAt);
    }
  }

  /**
   For any interleaving of schedulers, with any clocks, crashes between reserving and publishing, retention
   and cascades: from the creation of a task on, while its schedule is kept, each of its runs is published at
   most once.
   */
  lemma AtMostOneJobPerRun(
    host: Host, runs: (string, Time) -> bool, w: World, key: TaskKey, definition: Definition, schedule: string,
    isStatic: bool, steps: seq<Step>, runAt: Time)
    requires Lawful(host, runs) && Sound(w)
    requires key !in w.tasks && (forall pk :: pk in w.executions ==> w.executions[pk].key != key)
    requires forall at :: (key, at) !in w.published
    requires var created := Save(w, key, definition, schedule, isStatic);
             EnabledTrace(host, created, steps) && KeepsScheduleThroughout(host, created, steps, key)
    ensures Trace(host, Save(w, key, definition, schedule, isStatic), steps).published[(key, runAt)] <= 1
  {
    var created := Save(w, key, definition, schedule, isStatic);
    ApplySound(host, w, DoSave(key, definition, schedule, isStatic));
    assert Guarded(created, key) by {
      assert forall at :: created.published[(key, at)] == 0;
    }
    assert Once(created, key, runAt);
    hide Guarded, Sound, Lawful;
    GuardedNeverExposed(host, runs, created, steps, key, runAt);
    AtMostOnceUnlessExposed(host, created, steps, key, runAt);
  }

  // ---------------------------------------------------------------- reservations that are kept

  /** The step deletes no reservation. */
  predicate KeepsRows(step: Step) {
    !step.DoClearExecutions? && !step.DoDeleteJob?
  }

  /** Every published run still has its row. */
  ghost predicate Recorded(w: World, key: TaskKey, runAt: Time) {
    w.published[(key, runAt)] >= 1 ==> Find(w, key, runAt).Some?
  }

  /** Rows stay where they are. */
  lemma RowStays(host: Host, w: World, step: Step, key: TaskKey, runAt: Time, pk: int)
    requires Sound(w) && IsRow(w, key, runAt, pk) && KeepsRows(step)
    ensures IsRow(Apply(host, w, step), key, runAt, pk)
  {
    assert pk < w.nextPk;
    hide Sound, Find;
  }

  lemma ApplyRecorded(host: Host, w: World, step: Step, key: TaskKey, runAt: Time)
    requires Sound(w) && Recorded(w, key, runAt) && KeepsRows(step)
    ensures Recorded(Apply(host, w, step), key, runAt)
  {
    hide Sound, Reserve;
    var after := Apply(host, w, step);
    if step.DoReserve? {
      assert after.published == w.published by {
        ReservePublishesNothing(host, w, step.key, step.runAt, step.drawn, step.visible);
      }
    } else if step.DoPublish? && after != w {
      assert w.published[(key, runAt)] == after.published[(key, runAt)] || IsRow(w, key, runAt, step.reservation.pk);
    }
    hide Apply;
    if exists pk :: IsRow(w, key, runAt, pk) {
      var pk :| IsRow(w, key, runAt, pk);
      RowStays(host, w, step, key, runAt, pk);
    }
  }

  lemma ReservePublishesNothing(host: Host, w: World, key: TaskKey, runAt: Time, drawn: JobId, visible: bool)
    ensures Reserve(host, w, key, runAt, drawn, visible).0.published == w.published
  {
  }

  /** Without deletions the unique reservation alone is enough, whatever happens to tasks and schedules. */
  lemma {:induction false} KeptReservationsNeverExposed(
    host: Host, w: World, steps: seq<Step>, key: TaskKey, runAt: Time)
    requires Sound(w) && EnabledTrace(host, w, steps) && Recorded(w, key, runAt)
    requires forall step :: step in steps ==> KeepsRows(step)
    ensures NeverExposed(host, w, steps, key, runAt)
    decreases |steps|
  {
    hide Sound, Apply, Enabled, KeepsRows;
    if steps != [] {
      assert steps[0] in steps;
      ApplySound(host, w, steps[0]);
      ApplyRecorded(host, w, steps[0], key, runAt);
      KeptReservationsNeverExposed(host, Apply(host, w, steps[0]), steps[1..], key, runAt);
    }
  }
}
