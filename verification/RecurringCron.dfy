/**
 The cron search as what a scheduler asks for: it keeps the laws that firing recurring tasks relies on, and
 schedules it cannot answer end a poll.
 */
module RecurringCron {
  import opened Results
  import opened Calendar
  import opened Cron
  import opened CronSearch
  import Recurring
  import RecurringFiring
  import RecurringDue

  // ---------------------------------------------------------------- the laws

  /** Schedule texts are parsed, and every question is put to the search. */
  ghost function SearchHost(
    parse: string -> seq<Schedule>, enqueues: Recurring.Definition -> bool): Recurring.Host
  {
    Recurring.Host((s, t) => Nearest(parse(s), t + 1, false), (s, t) => Nearest(parse(s), t, true), enqueues)
  }

  ghost function SearchRuns(parse: string -> seq<Schedule>): (string, int) -> bool {
    (s, t) => RunsAt(parse(s), t)
  }

  lemma NearMultiples(a: int, b: int)
    requires a % 1000000 == 0 && b % 1000000 == 0 && a <= b <= a + 1
    ensures a == b
  {
  }

  lemma RunTime(schedules: seq<Schedule>, t: int)
    requires RunsAt(schedules, t)
    ensures t % 1000000 == 0
  {
    var m :| RunsAny(schedules, m) && IsMoment(m) && Stamp(m) == t;
    hide Ordinal;
  }

  /** Runs fall on whole seconds, so one microsecond later the latest run is still the same. */
  lemma LatestOfRun(schedules: seq<Schedule>, t: int)
    requires RunsAt(schedules, t)
    ensures Nearest(schedules, t + 2, false) == Some(t)
  {
    hide RunsAt;
    assert InWindow(false, t + 2, t);
    var r := Nearest(schedules, t + 2, false).value;
    RunTime(schedules, t);
    RunTime(schedules, r);
    assert Beyond(false, t + 2, t) && !Beyond(false, t, r);
    NearMultiples(t, r);
  }

  /** Whatever the schedules, the answers of the search keep the laws. */
  lemma SearchHostIsLawful(parse: string -> seq<Schedule>, enqueues: Recurring.Definition -> bool)
    ensures Recurring.Lawful(SearchHost(parse, enqueues), SearchRuns(parse))
  {
    hide RunsAt, Nearest;
    forall s, t | RunsAt(parse(s), t)
      ensures Nearest(parse(s), t + 2, false) == Some(t)
    {
      LatestOfRun(parse(s), t);
    }
  }

  // ---------------------------------------------------------------- schedules without an answer

  /** The fields of some expression allow some day of some month. */
  ghost predicate SomeDayAllowed(schedules: seq<Schedule>) {
    exists i, leap, month, day :: 0 <= i < |schedules| && Allows(schedules[i], leap, month, day)
  }

  /** Well formed, and without `%`. */
  ghost predicate Plain(schedules: seq<Schedule>) {
    AllWellFormed(schedules) && forall i :: 0 <= i < |schedules| ==> WithoutModulo(schedules[i])
  }

  /** The search answers exactly when the fields allow some day, at any time and in either direction. */
  lemma AnswersIffDayAllowed(schedules: seq<Schedule>, t: int, forward: bool)
    requires Plain(schedules)
    ensures Nearest(schedules, t, forward).Some? <==> SomeDayAllowed(schedules)
  {
    AnswersIffMatchingDay(schedules, t, forward);
    hide Nearest, HasMatchingDay, Allows, WellFormed, WithoutModulo;
    forall i | 0 <= i < |schedules|
      ensures HasMatchingDay(schedules[i]) <==> exists leap, month, day :: Allows(schedules[i], leap, month, day)
    {
      MatchingDayIffAllowed(schedules[i]);
    }
  }

  /** The attempt's task has a schedule whose fields allow no day. */
  ghost predicate NoDayAllowed(parse: string -> seq<Schedule>, w: Recurring.World, a: RecurringFiring.Attempt) {
    a.key in w.tasks && !SomeDayAllowed(parse(w.tasks[a.key].schedule))
  }

  /** An attempt without a run stands for a task whose latest run was searched for in vain. */
  lemma {:induction false} NoDueRunOf(
    host: Recurring.Host, w: Recurring.World, now: int, selected: seq<Recurring.TaskKey>, pending: seq<int>,
    a: RecurringFiring.Attempt)
    requires a in RecurringFiring.Attempts(host, w, now, selected, pending) && a.NoDueRun?
    ensures a.key in w.tasks && host.latest(w.tasks[a.key].schedule, now).None?
    decreases |selected|
  {
    hide RecurringFiring.PendingOf;
    PendingHasRuns(w, pending, selected[0]);
    if a !in RecurringFiring.DueOf(host, w, now, selected[0]) {
      NoDueRunOf(host, w, now, selected[1..], pending, a);
    }
  }

  lemma {:induction false} PendingHasRuns(w: Recurring.World, pending: seq<int>, key: Recurring.TaskKey)
    ensures forall a :: a in RecurringFiring.PendingOf(w, pending, key) ==> a.Attempt?
    decreases |pending|
  {
    if pending != [] {
      PendingHasRuns(w, pending[1..], key);
    }
  }

  lemma LacksIffNoDayAllowed(
    parse: string -> seq<Schedule>, enqueues: Recurring.Definition -> bool, w: Recurring.World, now: int,
    selected: seq<Recurring.TaskKey>, pending: seq<int>, a: RecurringFiring.Attempt)
    requires a.key in w.tasks ==> Plain(parse(w.tasks[a.key].schedule))
    requires a in RecurringFiring.Attempts(SearchHost(parse, enqueues), w, now, selected, pending)
    ensures RecurringFiring.Lacks(SearchHost(parse, enqueues), w, a) <==> NoDayAllowed(parse, w, a)
  {
    var host := SearchHost(parse, enqueues);
    hide RunsAt, Nearest, SomeDayAllowed, Plain;
    if a.NoDueRun? {
      NoDueRunOf(host, w, now, selected, pending, a);
      AnswersIffDayAllowed(parse(w.tasks[a.key].schedule), now + 1, false);
    } else if a.key in w.tasks {
      AnswersIffDayAllowed(parse(w.tasks[a.key].schedule), a.runAt + 2, false);
      AnswersIffDayAllowed(parse(w.tasks[a.key].schedule), a.runAt, true);
    }
  }

  /** Tasks without `%` whose fields allow some day have every run a poll asks for, so a poll fires all that are due. */
  lemma PlainTasksCanFire(
    parse: string -> seq<Schedule>, enqueues: Recurring.Definition -> bool, w: Recurring.World, now: int)
    requires forall key :: key in w.tasks ==>
               && Plain(parse(w.tasks[key].schedule)) && SomeDayAllowed(parse(w.tasks[key].schedule))
               && enqueues(w.tasks[key].definition)
    ensures RecurringDue.AllCanFire(SearchHost(parse, enqueues), SearchRuns(parse), w, now)
  {
    hide Nearest, RunsAt, Plain, SomeDayAllowed;
    forall key, t | key in w.tasks
      ensures Nearest(parse(w.tasks[key].schedule), t, true).Some? && Nearest(parse(w.tasks[key].schedule), t, false).Some?
    {
      AnswersIffDayAllowed(parse(w.tasks[key].schedule), t, true);
      AnswersIffDayAllowed(parse(w.tasks[key].schedule), t, false);
    }
  }

  /**
   When no stored task uses `%` and every definition can be enqueued, a poll comes to its i-th attempt exactly when
   the fields of every earlier attempt's schedule allow some day of some month.
   */
  lemma PollReachesIffDaysAllowed(
    parse: string -> seq<Schedule>, enqueues: Recurring.Definition -> bool, w: Recurring.World, now: int,
    selected: seq<Recurring.TaskKey>, pending: seq<int>, draws: seq<Recurring.JobId>, i: nat)
    requires forall key :: key in w.tasks ==> Plain(parse(w.tasks[key].schedule))
    requires Recurring.Sound(w) && RecurringFiring.Fresh(w, draws)
    requires i <= |RecurringFiring.Attempts(SearchHost(parse, enqueues), w, now, selected, pending)| <= |draws|
    requires forall key :: key in w.tasks ==> enqueues(w.tasks[key].definition)
    ensures var attempts := RecurringFiring.Attempts(SearchHost(parse, enqueues), w, now, selected, pending);
            i <= RecurringFiring.Poll(SearchHost(parse, enqueues), w, attempts, draws).1
            <==> forall j :: 0 <= j < i ==> !NoDayAllowed(parse, w, attempts[j])
  {
    var host := SearchHost(parse, enqueues);
    var attempts := RecurringFiring.Attempts(host, w, now, selected, pending);
    RecurringFiring.PollReachesIffRunsExist(host, w, attempts, draws, i);
    hide RecurringFiring.Poll, RecurringFiring.Attempts, RecurringFiring.Lacks, NoDayAllowed, Plain;
    hide Recurring.Sound, RecurringFiring.Fresh;
    forall j | 0 <= j < i
      ensures RecurringFiring.Lacks(host, w, attempts[j]) <==> NoDayAllowed(parse, w, attempts[j])
    {
      LacksIffNoDayAllowed(parse, enqueues, w, now, selected, pending, attempts[j]);
    }
  }

  // ---------------------------------------------------------------- a schedule that ends every poll

  lemma NeverMatchingHasNoAnswer(t: int, forward: bool)
    ensures Nearest([NeverMatching()], t, forward) == None
  {
    ConjunctionCanNeverMatch();
    AnswersIffMatchingDay([NeverMatching()], t, forward);
  }

  /**
   A task accepted with the schedule `0 0 1& 1 1#2` stays due, and a poll that comes to it first does nothing at
   all: whatever else is due or reserved.
   */
  lemma NeverMatchingEndsThePoll(
    parse: string -> seq<Schedule>, enqueues: Recurring.Definition -> bool, w: Recurring.World, now: int,
    selected: seq<Recurring.TaskKey>, pending: seq<int>, draws: seq<Recurring.JobId>)
    requires selected != [] && selected[0] in w.tasks && w.tasks[selected[0]].nextRunAt == None
    requires parse(w.tasks[selected[0]].schedule) == [NeverMatching()]
    requires forall pk :: pk in pending && pk in w.executions ==> w.executions[pk].key != selected[0]
    requires |draws| >= |RecurringFiring.Attempts(SearchHost(parse, enqueues), w, now, selected, pending)|
    ensures var host := SearchHost(parse, enqueues);
            RecurringFiring.Poll(host, w, RecurringFiring.Attempts(host, w, now, selected, pending), draws) == (w, 0)
  {
    NeverMatchingHasNoAnswer(now + 1, false);
    NothingPending(w, pending, selected[0]);
    hide Nearest;
    var host := SearchHost(parse, enqueues);
    var attempts := RecurringFiring.Attempts(host, w, now, selected, pending);
    assert attempts == [RecurringFiring.NoDueRun(selected[0])]
                       + RecurringFiring.Attempts(host, w, now, selected[1..], pending);
    assert attempts[0] == RecurringFiring.NoDueRun(selected[0]);
  }

  lemma {:induction false} NothingPending(w: Recurring.World, pending: seq<int>, key: Recurring.TaskKey)
    requires forall pk :: pk in pending && pk in w.executions ==> w.executions[pk].key != key
    ensures RecurringFiring.PendingOf(w, pending, key) == []
    decreases |pending|
  {
    if pending != [] {
      var pk := pending[0];
      assert pk in pending && (pk in w.executions ==> w.executions[pk].key != key);
      NothingPending(w, pending[1..], key);
    }
  }

  // ---------------------------------------------------------------- schedules in use

  function NewYear(): Moment {
    Moment(Date(2025, 1, 1), 0, 0, 0, 0)
  }

  lemma NewYearIsRun(s: Schedule)
    requires s == EveryMidnight() || s == FirstOfMonth()
    ensures Plain([s]) && RunsAt([s], Stamp(NewYear())) && Nearest([s], Stamp(NewYear()), true).Some?
  {
    assert 1 in EveryDay && 1 in EveryMonth;
    assert 1 in s.dayOfMonth.values && IsDay(1, MonthLength(2025, 1), 1);
    assert MatchesDate(s, NewYear().date);
    assert HasMatchingDay(s) by {
      assert IsDate(NewYear().date);
    }
    assert Runs([s][0], NewYear());
    hide Nearest, Ordinal;
    assert RunsAny([s], NewYear());
    hide RunsAny;
    assert HasMatchingDay([s][0]);
    AnswersIffMatchingDay([s], Stamp(NewYear()), true);
  }

  lemma OnNewYear(
    parse: string -> seq<Schedule>, enqueues: Recurring.Definition -> bool, text: string, s: Schedule)
    requires parse(text) == [s] && (s == EveryMidnight() || s == FirstOfMonth())
    ensures RecurringFiring.RunsOn(SearchHost(parse, enqueues), text, Stamp(NewYear()))
  {
    NewYearIsRun(s);
    LatestOfRun([s], Stamp(NewYear()));
    hide Nearest, Stamp, RunsAt, EveryMidnight, FirstOfMonth;
  }

  /** A midnight shared by a daily and a monthly schedule is published twice when one is edited into the other. */
  lemma DailyThenMonthlyRefires(
    parse: string -> seq<Schedule>, enqueues: Recurring.Definition -> bool, key: Recurring.TaskKey,
    d: Recurring.Definition)
    requires parse("0 0 * * *") == [EveryMidnight()] && parse("0 0 1 * *") == [FirstOfMonth()] && enqueues(d)
    ensures var host := SearchHost(parse, enqueues);
            exists steps :: Recurring.EnabledTrace(host, Recurring.EmptyWorld, steps)
                            && Recurring.Trace(host, Recurring.EmptyWorld, steps).published[(key, Stamp(NewYear()))] == 2
  {
    var host := SearchHost(parse, enqueues);
    assert host.enqueues(d);
    hide *;
    var (daily, monthly) := ("0 0 * * *", "0 0 1 * *");
    assert daily[4] != monthly[4];
    OnNewYear(parse, enqueues, daily, EveryMidnight());
    OnNewYear(parse, enqueues, monthly, FirstOfMonth());
    RecurringFiring.EditedScheduleCanRefire(host, key, d, daily, monthly, Stamp(NewYear()));
  }

  // ---------------------------------------------------------------- a reservation left waiting

  /** A scheduler reserved the midnight of a daily task and crashed; another task's schedule never matches. */
  function CrashedWorld(never: Recurring.TaskKey, daily: Recurring.TaskKey, d: Recurring.Definition): Recurring.World {
    var reservation := Recurring.Reservation(1, 7, d);
    Recurring.World(
      map[never := Recurring.Task(d, "0 0 1& 1 1#2", false, None), daily := Recurring.Task(d, "0 0 * * *", false, None)],
      map[1 := Recurring.Execution(daily, Stamp(NewYear()), Some(7), None)], map[], 2, {reservation}, multiset{}, {7})
  }

  lemma CrashedWorldHolds(never: Recurring.TaskKey, daily: Recurring.TaskKey, d: Recurring.Definition)
    requires never != daily
    ensures Recurring.Sound(CrashedWorld(never, daily, d))
    ensures RecurringFiring.Holds(CrashedWorld(never, daily, d), 1, daily, Stamp(NewYear()), 7)
    ensures CrashedWorld(never, daily, d).executions[1].job.None?
  {
    hide Stamp;
  }

  lemma DailyAttempts(host: Recurring.Host, w: Recurring.World, now: int, selected: seq<Recurring.TaskKey>)
    requires selected != [] && 1 in w.executions && w.executions[1].key == selected[0]
    ensures var attempts := RecurringFiring.Attempts(host, w, now, selected, [1]);
            |attempts| > 0 && attempts[0] == RecurringFiring.Attempt(selected[0], w.executions[1].runAt)
  {
    assert RecurringFiring.PendingOf(w, [1], selected[0]) == [RecurringFiring.Attempt(selected[0], w.executions[1].runAt)] by {
      assert RecurringFiring.PendingOf(w, [1][1..], selected[0]) == [];
    }
  }

  lemma DailyIsDue(
    parse: string -> seq<Schedule>, enqueues: Recurring.Definition -> bool, never: Recurring.TaskKey,
    daily: Recurring.TaskKey, d: Recurring.Definition)
    requires parse("0 0 * * *") == [EveryMidnight()] && enqueues(d) && never != daily
    ensures var (host, w) := (SearchHost(parse, enqueues), CrashedWorld(never, daily, d));
            && RecurringFiring.DueAt(host, SearchRuns(parse), w, daily, Stamp(NewYear()))
            && host.enqueues(w.tasks[daily].definition)
  {
    NewYearIsRun(EveryMidnight());
    hide Nearest, RunsAt, Stamp, EveryMidnight;
  }

  /** A poll that comes to the daily task publishes the crashed reservation. */
  lemma DailyFirst(
    parse: string -> seq<Schedule>, enqueues: Recurring.Definition -> bool, never: Recurring.TaskKey,
    daily: Recurring.TaskKey, d: Recurring.Definition, now: int, draws: seq<Recurring.JobId>)
    requires parse("0 0 * * *") == [EveryMidnight()] && enqueues(d) && never != daily
    requires RecurringFiring.Fresh(CrashedWorld(never, daily, d), draws)
    requires |draws| >= |RecurringFiring.Attempts(
                           SearchHost(parse, enqueues), CrashedWorld(never, daily, d), now, [daily, never], [1])|
    ensures var (host, w) := (SearchHost(parse, enqueues), CrashedWorld(never, daily, d));
            var after := RecurringFiring.Poll(
                           host, w, RecurringFiring.Attempts(host, w, now, [daily, never], [1]), draws).0;
            RecurringFiring.Holds(after, 1, daily, Stamp(NewYear()), 7) && after.executions[1].job == Some(7)
  {
    var (host, w) := (SearchHost(parse, enqueues), CrashedWorld(never, daily, d));
    var (runs, runAt) := (SearchRuns(parse), Stamp(NewYear()));
    var attempts := RecurringFiring.Attempts(host, w, now, [daily, never], [1]);
    var first := RecurringFiring.Attempt(daily, runAt);
    DailyAttempts(host, w, now, [daily, never]);
    CrashedWorldHolds(never, daily, d);
    SearchHostIsLawful(parse, enqueues);
    DailyIsDue(parse, enqueues, never, daily, d);
    assert RecurringFiring.Reaches(host, w, attempts, draws, first) by {
      hide RecurringFiring.Attempts, RecurringFiring.Poll, SearchHost, CrashedWorld, Stamp;
    }
    var (pk, intended) := (1, 7);
    hide *;
    RecurringFiring.ReachedReservationIsPublished(host, runs, w, attempts, draws, pk, daily, runAt, intended);
  }

  /** One that comes to the never-matching task first leaves it as it is. */
  lemma NeverMatchingHoldsUpReservation(
    parse: string -> seq<Schedule>, enqueues: Recurring.Definition -> bool, never: Recurring.TaskKey,
    daily: Recurring.TaskKey, d: Recurring.Definition, now: int, draws: seq<Recurring.JobId>)
    requires parse("0 0 1& 1 1#2") == [NeverMatching()] && never != daily
    requires |draws| >= |RecurringFiring.Attempts(
                           SearchHost(parse, enqueues), CrashedWorld(never, daily, d), now, [never, daily], [1])|
    ensures var (host, w) := (SearchHost(parse, enqueues), CrashedWorld(never, daily, d));
            var attempts := RecurringFiring.Attempts(host, w, now, [never, daily], [1]);
            && RecurringFiring.Attempt(daily, Stamp(NewYear())) in attempts
            && RecurringFiring.Poll(host, w, attempts, draws) == (w, 0)
  {
    var (host, w) := (SearchHost(parse, enqueues), CrashedWorld(never, daily, d));
    hide Stamp, SearchHost;
    NeverMatchingEndsThePoll(parse, enqueues, w, now, [never, daily], [1], draws);
    DailyAttempts(host, w, now, [daily]);
    assert [never, daily][1..] == [daily];
    hide RecurringFiring.Poll;
  }
}
