/** The recurring tables updated in place: the two transactions of a firing, and the poll's loops. */
module RecurringStore {
  import opened Results
  import opened Recurring
  import opened RecurringFiring
  import Semaphores

  class Scheduler {
    var tasks: map<TaskKey, Task>
    var executions: map<int, Execution>
    var jobs: map<JobId, Definition>
    var nextPk: int
    var issued: set<Reservation>
    var published: multiset<(TaskKey, Time)>
    var used: set<JobId>

    function Snapshot(): World
      reads this
    {
      World(tasks, executions, jobs, nextPk, issued, published, used)
    }

    constructor ()
      ensures Snapshot() == EmptyWorld
    {
      tasks, executions, jobs, nextPk, issued, published, used := map[], map[], map[], 1, {}, multiset{}, {};
    }

    /** The cursor becomes the later of what it was and the next run; nothing else changes. */
    method AdvanceNextRunAt(key: TaskKey, next: Time)
      requires key in tasks
      modifies this`tasks
      ensures tasks.Keys == old(tasks).Keys && forall k :: k in tasks && k != key ==> tasks[k] == old(tasks)[k]
      ensures tasks[key] == old(tasks)[key].(nextRunAt := tasks[key].nextRunAt)
      ensures tasks[key].nextRunAt == Some(if old(tasks)[key].nextRunAt.Some?
                                           then Semaphores.Max(old(tasks)[key].nextRunAt.value, next) else next)
    {
      if tasks[key].nextRunAt.None? || tasks[key].nextRunAt.value < next {
        tasks := tasks[key := tasks[key].(nextRunAt := Some(next))];
      }
    }

    method IssueReservation(key: TaskKey, pk: int) returns (r: Option<Reservation>)
      requires key in tasks && pk in executions
      modifies this
      ensures (Snapshot(), r) == Issue(old(Snapshot()), key, pk)
    {
      var e := executions[pk];
      if e.job.Some? || e.intended.None? {
        return None;
      }
      r := Some(Reservation(pk, e.intended.value, tasks[key].definition));
      issued := issued + {r.value};
    }

    method ReserveRecurringTask(host: Host, key: TaskKey, runAt: Time, drawn: JobId, visible: bool)
      returns (r: Result<Option<Reservation>>)
      modifies this
      ensures match TryReserve(host, old(Snapshot()), key, runAt, drawn, visible)
              case Ok((w, reservation)) => r == Ok(reservation) && Snapshot() == w
              case Err(e) => r == Err(e) && Snapshot() == old(Snapshot())
      ensures Sound(old(Snapshot())) && drawn !in old(used) ==> Sound(Snapshot())
    {
      hide Sound;
      if Sound(Snapshot()) && drawn !in used {
        ReserveSound(host, Snapshot(), key, runAt, drawn, visible);
      }
      if key !in tasks || !visible {
        return Ok(None);
      }
      var task := tasks[key];
      var latest := host.latest(task.schedule, runAt + 1);
      if latest.None? {
        return Err(NoRun);
      }
      if latest.value != runAt {
        return Ok(None);
      }
      var next := host.next(task.schedule, runAt);
      if next.None? {
        return Err(NoRun);
      }
      var reservation := ReserveRunOf(key, runAt, next.value, drawn);
      r := Ok(reservation);
    }

    method ReserveRunOf(key: TaskKey, runAt: Time, next: Time, drawn: JobId) returns (r: Option<Reservation>)
      requires key in tasks
      modifies this
      ensures (Snapshot(), r) == ReserveRun(old(Snapshot()), key, runAt, next, drawn)
    {
      var task := tasks[key];
      var row := Find(Snapshot(), key, runAt);
      hide Find;
      if task.nextRunAt.Some? && task.nextRunAt.value > runAt {
        if row.None? {
          return None;
        }
        r := IssueReservation(key, row.value);
        return;
      }
      ghost var before := tasks;
      var pk := nextPk;
      if row.None? {
        executions := executions[pk := Execution(key, runAt, Some(drawn), None)];
        nextPk, used := nextPk + 1, used + {drawn};
      } else {
        pk := row.value;
      }
      AdvanceNextRunAt(key, next);
      assert tasks == before[key := Advance(task, next)];
      r := IssueReservation(key, pk);
    }

    method PublishReservedRecurringTask(host: Host, r: Reservation, visible: bool) returns (done: Result<()>)
      modifies this
      ensures match TryPublish(host, old(Snapshot()), r, visible)
              case Ok(w) => done == Ok(()) && Snapshot() == w
              case Err(e) => done == Err(e) && Snapshot() == old(Snapshot())
      ensures Sound(old(Snapshot())) && r in old(issued) ==> Sound(Snapshot())
    {
      hide Sound;
      if Sound(Snapshot()) && r in issued {
        PublishSound(host, Snapshot(), r, visible);
      }
      if !visible || r.pk !in executions || executions[r.pk].job.Some? {
        return Ok(());
      }
      var e := executions[r.pk];
      if r.intended in jobs {
        if jobs[r.intended] != r.definition || AssignedElsewhere(Snapshot(), r.pk, r.intended) {
          return Err(Rejected);
        }
      } else if !host.enqueues(r.definition) {
        return Err(Rejected);
      }
      if e.intended != Some(r.intended) {
        return Err(Rejected);
      }
      if r.intended !in jobs {
        jobs := jobs[r.intended := r.definition];
      }
      executions := executions[r.pk := e.(job := Some(r.intended))];
      published := published + multiset{(e.key, e.runAt)};
      done := Ok(());
    }

    /** The reservation stays committed even when its publication raises. */
    method FireRecurringTask(host: Host, key: TaskKey, runAt: Time, drawn: JobId) returns (done: Result<()>)
      modifies this
      ensures Snapshot() == Fire(host, old(Snapshot()), key, runAt, drawn)
      ensures done.Err? <==> Raises(host, old(Snapshot()), Attempt(key, runAt), drawn)
      ensures Sound(old(Snapshot())) && drawn !in old(used) ==> Sound(Snapshot())
    {
      hide Sound;
      if Sound(Snapshot()) && drawn !in used {
        FireSound(host, Snapshot(), key, runAt, drawn);
      }
      ReserveRaisesIff(host, Snapshot(), key, runAt, drawn);
      hide TryReserve, TryPublish, LacksRun;
      var r := ReserveRecurringTask(host, key, runAt, drawn, true);
      if r.Err? {
        return Err(r.error);
      }
      done := Ok(());
      if r.value.Some? {
        done := PublishReservedRecurringTask(host, r.value.value, true);
      }
    }

    /** The attempts for one task, each counted against the room left in the batch, until one raises. */
    method FireAttempts(host: Host, items: seq<Attempt>, room: Option<nat>, draws: seq<JobId>)
      returns (fired: nat, done: Result<()>)
      requires |draws| >= |items|
      modifies this
      ensures (Snapshot(), fired) == Poll(host, old(Snapshot()), Within(items, room), draws)
      ensures done.Ok? <==> fired == |Within(items, room)|
    {
      hide Commit, Raises, Poll, Fire, Within;
      var taken := Within(items, room);
      ghost var start := Snapshot();
      fired, done := 0, Ok(());
      assert taken[0..] == taken && draws[0..] == draws;
      while fired < |taken|
        invariant fired <= |taken| && done.Ok?
        invariant var (w, n) := Poll(host, Snapshot(), taken[fired..], draws[fired..]);
                  Poll(host, start, taken, draws) == (w, n + fired)
      {
        var (item, drawn) := (taken[fired], draws[fired]);
        ghost var before := Snapshot();
        PollFrom(host, before, taken, draws, fired);
        if item.NoDueRun? {
          NoDueRunRaises(host, before, item.key, drawn);
          return fired, Err(NoRun);
        }
        done := FireRecurringTask(host, item.key, item.runAt, drawn);
        CommitIsFire(host, before, item.key, item.runAt, drawn);
        if done.Err? {
          return;
        }
        fired := fired + 1;
      }
      PollNothing(host, Snapshot(), draws[fired..]);
    }

    /**
     `selected` and `pending` are the rows of the poll's two queries. Every attempt counts against the batch; the
     poll stops when the batch is used up, and with the first exception.
     */
    method FireDueRecurringTasks(
      host: Host, now: Time, selected: seq<TaskKey>, pending: seq<int>, batch: Option<nat>, draws: seq<JobId>)
      returns (done: Result<()>)
      requires |draws| >= |Attempts(host, Snapshot(), now, selected, pending)|
      modifies this
      ensures var taken := Within(Attempts(host, old(Snapshot()), now, selected, pending), batch);
              && Snapshot() == Poll(host, old(Snapshot()), taken, draws).0
              && (done.Ok? <==> Poll(host, old(Snapshot()), taken, draws).1 == |taken|)
      ensures Sound(old(Snapshot())) && Fresh(old(Snapshot()), draws) ==> Sound(Snapshot())
    {
      hide Poll, PendingOf, DueOf, Within, Sound, Fresh;
      var start := Snapshot();
      ghost var all := Attempts(host, start, now, selected, pending);
      if Sound(start) && Fresh(start, draws) {
        PollSound(host, start, Within(all, batch), draws);
      }
      var n := 0;
      PollNothing(host, start, draws);
      ghost var past: seq<Attempt> := [];
      done := Ok(());
      for i := 0 to |selected|
        invariant n == |past| && (batch.Some? ==> n <= batch.value) && done.Ok?
        invariant all == past + Attempts(host, start, now, selected[i..], pending)
        invariant Poll(host, start, past, draws) == (Snapshot(), n)
      {
        var items := PendingOf(start, pending, selected[i]) + DueOf(host, start, now, selected[i]);
        ghost var rest := Attempts(host, start, now, selected[i + 1..], pending);
        assert all == past + items + rest by {
          assert selected[i..][1..] == selected[i + 1..];
          assert past + (items + rest) == past + items + rest;
        }
        hide Attempts;
        var room := if batch.Some? then Some(batch.value - n) else None;
        ghost var taken := Within(items, room);
        PollConcat(host, start, past, taken, draws);
        WithinStep(past, items, rest, batch);
        var fired;
        fired, done := FireAttempts(host, items, room, draws[n..]);
        if done.Err? {
          PollStops(host, start, past + taken, Within(all, batch), draws);
          return;
        }
        n := n + fired;
        if batch.Some? && n == batch.value {
          return;
        }
        past := past + items;
      }
      assert all == past by {
        assert selected[|selected|..] == [];
      }
      WithinAll(past, batch);
    }
  }

  /** The attempts a batch has room for. */
  function Within(all: seq<Attempt>, batch: Option<nat>): (r: seq<Attempt>)
    ensures |r| <= |all| && (batch.Some? ==> |r| <= batch.value)
  {
    if batch.Some? && batch.value < |all| then all[..batch.value] else all
  }

  /** A batch that stops inside one task's attempts stops where the whole list would be cut. */
  lemma WithinStep(past: seq<Attempt>, items: seq<Attempt>, rest: seq<Attempt>, batch: Option<nat>)
    requires batch.Some? ==> |past| <= batch.value
    ensures var taken := Within(items, if batch.Some? then Some(batch.value - |past|) else None);
            var whole := Within(past + items + rest, batch);
            && past + taken <= whole
            && (if batch.Some? && |past| + |taken| == batch.value then whole == past + taken else taken == items)
  {
  }

  lemma WithinAll(all: seq<Attempt>, batch: Option<nat>)
    requires batch.Some? ==> |all| <= batch.value
    ensures Within(all, batch) == all
  {
  }

  lemma NoDueRunRaises(host: Host, w: World, key: TaskKey, drawn: JobId)
    ensures Raises(host, w, NoDueRun(key), drawn) && Commit(host, w, NoDueRun(key), drawn) == w
  {
  }

  lemma CommitIsFire(host: Host, w: World, key: TaskKey, runAt: Time, drawn: JobId)
    ensures Commit(host, w, Attempt(key, runAt), drawn) == Fire(host, w, key, runAt, drawn)
  {
  }

  lemma PollNothing(host: Host, w: World, draws: seq<JobId>)
    ensures Poll(host, w, [], draws) == (w, 0)
  {
  }

  /** One step of a poll, in terms of what is left. */
  lemma PollFrom(host: Host, w: World, attempts: seq<Attempt>, draws: seq<JobId>, i: nat)
    requires i < |attempts| <= |draws|
    ensures var after := Commit(host, w, attempts[i], draws[i]);
            Poll(host, w, attempts[i..], draws[i..])
            == if Raises(host, w, attempts[i], draws[i]) then (after, 0)
               else var (last, n) := Poll(host, after, attempts[i + 1..], draws[i + 1..]); (last, n + 1)
  {
    hide Commit, Raises;
    assert attempts[i..][1..] == attempts[i + 1..] && draws[i..][1..] == draws[i + 1..];
  }

  lemma {:induction false} PollConcat(host: Host, w: World, xs: seq<Attempt>, ys: seq<Attempt>, draws: seq<JobId>)
    requires |draws| >= |xs| + |ys|
    ensures var (after, n) := Poll(host, w, xs, draws);
            Poll(host, w, xs + ys, draws)
            == if n < |xs| then (after, n)
               else var (last, m) := Poll(host, after, ys, draws[|xs|..]); (last, n + m)
    decreases |xs|
  {
    hide Commit, Raises;
    if xs == [] {
      assert xs + ys == ys && draws[0..] == draws;
    } else {
      assert (xs + ys)[1..] == xs[1..] + ys;
      PollConcat(host, Commit(host, w, xs[0], draws[0]), xs[1..], ys, draws[1..]);
      assert draws[1..][|xs[1..]|..] == draws[|xs|..];
    }
  }

  /** Attempts after one that raises make no difference. */
  lemma PollStops(host: Host, w: World, xs: seq<Attempt>, all: seq<Attempt>, draws: seq<JobId>)
    requires |draws| >= |all| && xs <= all && Poll(host, w, xs, draws).1 < |xs|
    ensures Poll(host, w, all, draws) == Poll(host, w, xs, draws)
  {
    hide Poll;
    assert all == xs + all[|xs|..];
    PollConcat(host, w, xs, all[|xs|..], draws);
  }

  /** An open row among the selected rows, of a selected task, is attempted. */
  lemma {:induction false} PendingIsAttempted(
    host: Host, w: World, now: Time, selected: seq<TaskKey>, pending: seq<int>, pk: int)
    requires pk in pending && pk in w.executions && w.executions[pk].key in selected
    ensures Attempt(w.executions[pk].key, w.executions[pk].runAt) in Attempts(host, w, now, selected, pending)
    decreases |selected|
  {
    var key := w.executions[pk].key;
    if selected[0] == key {
      PendingOfHolds(w, pending, pk);
    } else {
      PendingIsAttempted(host, w, now, selected[1..], pending, pk);
    }
  }

  lemma {:induction false} PendingOfHolds(w: World, pending: seq<int>, pk: int)
    requires pk in pending && pk in w.executions
    ensures Attempt(w.executions[pk].key, w.executions[pk].runAt) in PendingOf(w, pending, w.executions[pk].key)
    decreases |pending|
  {
    if pending[0] != pk {
      PendingOfHolds(w, pending[1..], pk);
    }
  }
}
