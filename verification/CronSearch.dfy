/**
 The search for the next, previous or latest run: day by day within a bounded window, then through
 the hours, minutes and seconds of a matching day. Times are wall-clock moments at a fixed distance
 from the time line, so both are ordered alike.
 */
module CronSearch {
  import opened Results
  import opened Calendar
  import opened Cron
  import Ordering

  datatype Moment = Moment(date: Date, hour: int, minute: int, second: int, micro: int)

  predicate IsMoment(t: Moment) {
    IsDate(t.date) && 0 <= t.hour < 24 && 0 <= t.minute < 60 && 0 <= t.second < 60 && 0 <= t.micro < 1000000
  }

  /** Microseconds on the time line of the wall clock. */
  function Stamp(t: Moment): int
    requires IsMonth(t.date.month)
  {
    (((Ordinal(t.date) * 24 + t.hour) * 60 + t.minute) * 60 + t.second) * 1000000 + t.micro
  }

  /** The schedule runs at this moment. */
  ghost predicate Runs(s: Schedule, t: Moment) {
    && IsMoment(t) && t.micro == 0
    && t.second in s.seconds.values && t.minute in s.minutes.values && t.hour in s.hours.values
    && MatchesDate(s, t.date)
  }

  /** `y` comes after `x` when searching forward, before it when searching backward. */
  predicate Beyond(forward: bool, x: int, y: int) {
    if forward then x < y else y < x
  }

  predicate Ahead(forward: bool, x: Moment, y: Moment)
    requires IsMonth(x.date.month) && IsMonth(y.date.month)
  {
    Beyond(forward, Stamp(x), Stamp(y))
  }

  /** The first of `ts` ahead of `base`, with none of them between. */
  ghost predicate IsNearest(forward: bool, base: Moment, t: Moment, ts: Moment -> bool)
    requires IsMonth(base.date.month)
  {
    && IsMoment(t) && ts(t) && Ahead(forward, base, t)
    && forall u :: IsMoment(u) && ts(u) && Ahead(forward, base, u) ==> !Ahead(forward, u, t)
  }

  // ---------------------------------------------------------------- sorted values

  ghost predicate IsFirstOf(forward: bool, v: int, values: set<int>) {
    v in values && forall w :: w in values && w != v ==> Beyond(forward, v, w)
  }

  lemma FirstExists(forward: bool, values: set<int>)
    requires values != {}
    ensures exists v :: IsFirstOf(forward, v, values)
  {
    var before := (x: int, y: int) => Beyond(forward, x, y);
    var v := Ordering.Leader(before, values);
    assert IsFirstOf(forward, v, values);
  }

  ghost predicate InOrder(forward: bool, vs: seq<int>) {
    forall i, j :: 0 <= i < j < |vs| ==> Beyond(forward, vs[i], vs[j])
  }

  function Ordered(forward: bool, values: set<int>): (vs: seq<int>)
    ensures InOrder(forward, vs)
    ensures forall v :: v in vs <==> v in values
    decreases |values|
  {
    if values == {} then
      []
    else
      FirstExists(forward, values);
      var v :| v in values && forall w :: w in values && w != v ==> Beyond(forward, v, w);
      var rest := Ordered(forward, values - {v});
      ConsOrdered(forward, v, rest, values);
      [v] + rest
  }

  lemma ConsOrdered(forward: bool, v: int, rest: seq<int>, values: set<int>)
    requires IsFirstOf(forward, v, values) && InOrder(forward, rest)
    requires forall w :: w in rest <==> w in values - {v}
    ensures InOrder(forward, [v] + rest)
    ensures forall w :: w in [v] + rest <==> w in values
  {
    var vs := [v] + rest;
    forall i, j | 0 <= i < j < |vs|
      ensures Beyond(forward, vs[i], vs[j])
    {
      var w := vs[j];
      assert w == rest[j - 1] && w in rest;
    }
  }

  // ---------------------------------------------------------------- one day

  function InMinute(s: Schedule, date: Date, hour: int, minute: int): Moment -> bool {
    (t: Moment) => t.date == date && t.hour == hour && t.minute == minute && t.micro == 0 && t.second in s.seconds.values
  }

  function InHour(s: Schedule, date: Date, hour: int): Moment -> bool {
    (t: Moment) => t.date == date && t.hour == hour && t.micro == 0
                   && t.minute in s.minutes.values && t.second in s.seconds.values
  }

  function InDay(s: Schedule, date: Date): Moment -> bool {
    (t: Moment) => t.date == date && t.micro == 0 && t.hour in s.hours.values
                   && t.minute in s.minutes.values && t.second in s.seconds.values
  }

  /** What a search of `ts` returns: the nearest, or nothing when none is ahead. */
  ghost predicate Finds(forward: bool, base: Moment, r: Option<Moment>, ts: Moment -> bool)
    requires IsMonth(base.date.month)
  {
    match r
    case Some(t) => IsNearest(forward, base, t, ts)
    case None => forall u :: IsMoment(u) && ts(u) ==> !Ahead(forward, base, u)
  }

  method SearchMinute(s: Schedule, date: Date, hour: int, minute: int, base: Moment, offset: int, forward: bool)
    returns (r: Option<Moment>)
    requires WellFormed(s) && IsDate(date) && IsMoment(base) && 0 <= hour < 24 && 0 <= minute < 60
    ensures Finds(forward, base, r, InMinute(s, date, hour, minute))
  {
    var seconds := Ordered(forward, s.seconds.values);
    for i := 0 to |seconds|
      invariant forall k :: 0 <= k < i ==> !Ahead(forward, base, Moment(date, hour, minute, seconds[k], 0))
    {
      var second := seconds[i];
      assert second in s.seconds.values;
      var candidate := Moment(date, hour, minute, second, 0);
      if Beyond(forward, Stamp(base) - offset, Stamp(candidate) - offset) {
        NearestInMinute(s, date, hour, minute, base, forward, seconds, i);
        return Some(candidate);
      }
    }
    forall u | IsMoment(u) && InMinute(s, date, hour, minute)(u)
      ensures !Ahead(forward, base, u)
    {
      var k :| 0 <= k < |seconds| && seconds[k] == u.second;
      assert u == Moment(date, hour, minute, seconds[k], 0);
    }
    r := None;
  }

  lemma NearestInMinute(
    s: Schedule, date: Date, hour: int, minute: int, base: Moment, forward: bool, seconds: seq<int>, i: nat)
    requires WellFormed(s) && IsDate(date) && IsMoment(base) && 0 <= hour < 24 && 0 <= minute < 60
    requires seconds == Ordered(forward, s.seconds.values) && i < |seconds|
    requires forall k :: 0 <= k < i ==> !Ahead(forward, base, Moment(date, hour, minute, seconds[k], 0))
    requires Ahead(forward, base, Moment(date, hour, minute, seconds[i], 0))
    ensures IsNearest(forward, base, Moment(date, hour, minute, seconds[i], 0), InMinute(s, date, hour, minute))
  {
    var t := Moment(date, hour, minute, seconds[i], 0);
    assert seconds[i] in seconds;
    forall u | IsMoment(u) && InMinute(s, date, hour, minute)(u) && Ahead(forward, base, u)
      ensures !Ahead(forward, u, t)
    {
      var k :| 0 <= k < |seconds| && seconds[k] == u.second;
      assert u == Moment(date, hour, minute, seconds[k], 0);
    }
  }

  method SearchHour(s: Schedule, date: Date, hour: int, base: Moment, offset: int, skips: bool, forward: bool)
    returns (r: Option<Moment>)
    requires WellFormed(s) && IsDate(date) && IsMoment(base) && 0 <= hour < 24
    ensures Finds(forward, base, r, InHour(s, date, hour))
  {
    var minutes := Ordered(forward, s.minutes.values);
    for i := 0 to |minutes|
      invariant forall k, u :: 0 <= k < i && IsMoment(u) && InMinute(s, date, hour, minutes[k])(u) ==> !Ahead(forward, base, u)
    {
      var minute := minutes[i];
      assert minute in s.minutes.values;
      if date == base.date && skips && hour == base.hour && Beyond(forward, minute, base.minute) {
        SkippedMinute(s, date, hour, minute, base, forward);
        continue;
      }
      r := SearchMinute(s, date, hour, minute, base, offset, forward);
      if r.Some? {
        NearestInHour(s, date, hour, base, forward, minutes, i, r.value);
        return;
      }
    }
    forall u | IsMoment(u) && InHour(s, date, hour)(u)
      ensures !Ahead(forward, base, u)
    {
      var k :| 0 <= k < |minutes| && minutes[k] == u.minute;
      assert InMinute(s, date, hour, minutes[k])(u);
    }
    r := None;
  }

  lemma SkippedMinute(s: Schedule, date: Date, hour: int, minute: int, base: Moment, forward: bool)
    requires IsDate(date) && IsMoment(base) && date == base.date && hour == base.hour
    requires Beyond(forward, minute, base.minute)
    ensures forall u :: IsMoment(u) && InMinute(s, date, hour, minute)(u) ==> !Ahead(forward, base, u)
  {
  }

  lemma NearestInHour(
    s: Schedule, date: Date, hour: int, base: Moment, forward: bool, minutes: seq<int>, i: nat, t: Moment)
    requires WellFormed(s) && IsDate(date) && IsMoment(base)
    requires minutes == Ordered(forward, s.minutes.values) && i < |minutes|
    requires forall k, u :: 0 <= k < i && IsMoment(u) && InMinute(s, date, hour, minutes[k])(u) ==> !Ahead(forward, base, u)
    requires IsNearest(forward, base, t, InMinute(s, date, hour, minutes[i]))
    ensures IsNearest(forward, base, t, InHour(s, date, hour))
  {
    assert minutes[i] in minutes;
    forall u | IsMoment(u) && InHour(s, date, hour)(u) && Ahead(forward, base, u)
      ensures !Ahead(forward, u, t)
    {
      var k :| 0 <= k < |minutes| && minutes[k] == u.minute;
      assert InMinute(s, date, hour, minutes[k])(u);
    }
  }

  method SearchDay(s: Schedule, date: Date, base: Moment, offset: int, skips: bool, forward: bool)
    returns (r: Option<Moment>)
    requires WellFormed(s) && IsDate(date) && IsMoment(base)
    ensures Finds(forward, base, r, InDay(s, date))
  {
    var hours := Ordered(forward, s.hours.values);
    for i := 0 to |hours|
      invariant forall k, u :: 0 <= k < i && IsMoment(u) && InHour(s, date, hours[k])(u) ==> !Ahead(forward, base, u)
    {
      var hour := hours[i];
      assert hour in s.hours.values;
      if date == base.date && skips && Beyond(forward, hour, base.hour) {
        SkippedHour(s, date, hour, base, forward);
        continue;
      }
      r := SearchHour(s, date, hour, base, offset, skips, forward);
      if r.Some? {
        NearestInDay(s, date, base, forward, hours, i, r.value);
        return;
      }
    }
    forall u | IsMoment(u) && InDay(s, date)(u)
      ensures !Ahead(forward, base, u)
    {
      var k :| 0 <= k < |hours| && hours[k] == u.hour;
      assert InHour(s, date, hours[k])(u);
    }
    r := None;
  }

  lemma SkippedHour(s: Schedule, date: Date, hour: int, base: Moment, forward: bool)
    requires IsDate(date) && IsMoment(base) && date == base.date && Beyond(forward, hour, base.hour)
    ensures forall u :: IsMoment(u) && InHour(s, date, hour)(u) ==> !Ahead(forward, base, u)
  {
  }

  lemma NearestInDay(s: Schedule, date: Date, base: Moment, forward: bool, hours: seq<int>, i: nat, t: Moment)
    requires WellFormed(s) && IsDate(date) && IsMoment(base)
    requires hours == Ordered(forward, s.hours.values) && i < |hours|
    requires forall k, u :: 0 <= k < i && IsMoment(u) && InHour(s, date, hours[k])(u) ==> !Ahead(forward, base, u)
    requires IsNearest(forward, base, t, InHour(s, date, hours[i]))
    ensures IsNearest(forward, base, t, InDay(s, date))
  {
    assert hours[i] in hours;
    forall u | IsMoment(u) && InDay(s, date)(u) && Ahead(forward, base, u)
      ensures !Ahead(forward, u, t)
    {
      var k :| 0 <= k < |hours| && hours[k] == u.hour;
      assert InHour(s, date, hours[k])(u);
    }
  }

  // ---------------------------------------------------------------- the window

  const MaxSearchDays := 400 * 366

  function Step(forward: bool, d: Date): Date {
    if forward then NextDay(d) else PreviousDay(d)
  }

  /** How many days further on in the direction of the search. */
  function Distance(forward: bool, from: Date, to: Date): int
    requires IsMonth(from.month) && IsMonth(to.month)
  {
    if forward then Ordinal(to) - Ordinal(from) else Ordinal(from) - Ordinal(to)
  }

  lemma StepDistance(forward: bool, from: Date, d: Date)
    requires IsDate(from) && IsDate(d)
    ensures IsDate(Step(forward, d)) && Distance(forward, from, Step(forward, d)) == Distance(forward, from, d) + 1
  {
    NextDayOrdinal(d);
    PreviousDayOrdinal(d);
  }

  lemma AheadIsNoEarlierDay(forward: bool, x: Moment, y: Moment)
    requires IsMoment(x) && IsMoment(y)
    ensures Ahead(forward, x, y) ==> Distance(forward, x.date, y.date) >= 0
    ensures Distance(forward, x.date, y.date) > 0 ==> Ahead(forward, x, y)
  {
    hide Ordinal;
  }

  lemma RunInDay(s: Schedule, t: Moment)
    requires WellFormed(s)
    ensures Runs(s, t) <==> IsMoment(t) && MatchesDate(s, t.date) && InDay(s, t.date)(t)
  {
  }

  /** No run ahead of `base` lies fewer than `days` days on. */
  ghost predicate NothingWithin(s: Schedule, base: Moment, forward: bool, days: int)
    requires IsMonth(base.date.month)
  {
    forall u :: Runs(s, u) && Ahead(forward, base, u) ==> Distance(forward, base.date, u.date) >= days
  }

  lemma DayWithout(s: Schedule, base: Moment, forward: bool, date: Date, days: int)
    requires WellFormed(s) && IsMoment(base) && IsDate(date) && Distance(forward, base.date, date) == days
    requires NothingWithin(s, base, forward, days)
    requires !MatchesDate(s, date) || Finds(forward, base, None, InDay(s, date))
    ensures NothingWithin(s, base, forward, days + 1)
  {
    forall u | Runs(s, u) && Ahead(forward, base, u)
      ensures Distance(forward, base.date, u.date) >= days + 1
    {
      hide Ordinal, Stamp;
      RunInDay(s, u);
      if Distance(forward, base.date, u.date) == days {
        OrdinalInjective(u.date, date);
      }
    }
  }

  lemma DayWith(s: Schedule, base: Moment, forward: bool, date: Date, days: int, t: Moment)
    requires WellFormed(s) && IsMoment(base) && IsDate(date) && Distance(forward, base.date, date) == days
    requires NothingWithin(s, base, forward, days) && MatchesDate(s, date)
    requires IsNearest(forward, base, t, InDay(s, date))
    ensures Runs(s, t) && Ahead(forward, base, t) && Distance(forward, base.date, t.date) == days
    ensures forall u :: Runs(s, u) && Ahead(forward, base, u) ==> !Ahead(forward, u, t)
  {
    RunInDay(s, t);
    forall u | Runs(s, u) && Ahead(forward, base, u)
      ensures !Ahead(forward, u, t)
    {
      hide Ordinal, Stamp, InDay;
      RunInDay(s, u);
      if Distance(forward, base.date, u.date) == days {
        OrdinalInjective(u.date, date);
      } else {
        AheadIsNoEarlierDay(forward, t, u);
        Opposite(forward, t, u);
      }
    }
  }

  lemma Opposite(forward: bool, x: Moment, y: Moment)
    requires IsMoment(x) && IsMoment(y) && Ahead(forward, x, y)
    ensures !Ahead(forward, y, x)
  {
  }

  /** The window holds a run ahead of `base`, if the schedule has a matching day at all. */
  lemma WindowSuffices(s: Schedule, base: Moment, forward: bool)
    requires WellFormed(s) && WithoutModulo(s) && IsMoment(base)
    ensures HasMatchingDay(s) ==> !NothingWithin(s, base, forward, MaxSearchDays)
  {
    if HasMatchingDay(s) {
      var d :| IsDate(d) && MatchesDate(s, d);
      var k := if forward then (Ordinal(base.date) - Ordinal(d)) / 146097 + 1
               else -((Ordinal(d) - Ordinal(base.date)) / 146097) - 1;
      MatchesEvery400Years(s, d, k);
      var e := d.(year := d.year + 400 * k);
      assert 0 < Distance(forward, base.date, e) <= 146097;
      var t := SomeTime(s, e);
      AheadIsNoEarlierDay(forward, base, t);
    }
  }

  lemma SomeTime(s: Schedule, d: Date) returns (t: Moment)
    requires WellFormed(s) && IsDate(d) && MatchesDate(s, d)
    ensures Runs(s, t) && t.date == d
  {
    FirstExists(true, s.hours.values);
    FirstExists(true, s.minutes.values);
    FirstExists(true, s.seconds.values);
    var h :| IsFirstOf(true, h, s.hours.values);
    var m :| IsFirstOf(true, m, s.minutes.values);
    var sec :| IsFirstOf(true, sec, s.seconds.values);
    t := Moment(d, h, m, sec, 0);
  }

  /** The search's answer: the nearest run, or none in the whole window. */
  ghost predicate Answers(s: Schedule, base: Moment, forward: bool, r: Option<Moment>)
    requires IsMonth(base.date.month)
  {
    match r
    case Some(t) =>
      && Runs(s, t) && Ahead(forward, base, t) && Distance(forward, base.date, t.date) < MaxSearchDays
      && forall u :: Runs(s, u) && Ahead(forward, base, u) ==> !Ahead(forward, u, t)
    case None => NothingWithin(s, base, forward, MaxSearchDays)
  }

  /**
   `offset` is the distance of the wall clock from the time line, and `skips` tells that the local zone
   lets the search pass over hours and minutes by wall time.
   */
  method FindRunForSchedule(s: Schedule, base: Moment, offset: int, skips: bool, forward: bool)
    returns (r: Option<Moment>)
    requires WellFormed(s) && IsMoment(base)
    ensures Answers(s, base, forward, r)
    ensures WithoutModulo(s) ==> (r.Some? <==> HasMatchingDay(s))
  {
    var date := base.date;
    forall u | Runs(s, u) && Ahead(forward, base, u)
      ensures Distance(forward, base.date, u.date) >= 0
    {
      AheadIsNoEarlierDay(forward, base, u);
    }
    if WithoutModulo(s) {
      WindowSuffices(s, base, forward);
    }
    hide Finds, NothingWithin, Ahead, MatchesDate, InDay;
    for i := 0 to MaxSearchDays
      invariant IsDate(date) && Distance(forward, base.date, date) == i
      invariant NothingWithin(s, base, forward, i)
    {
      r := None;
      if MatchesDate(s, date) {
        r := SearchDay(s, date, base, offset, skips, forward);
        if r.Some? {
          NearestOf(forward, base, r.value, InDay(s, date));
          DayWith(s, base, forward, date, i, r.value);
          DayOfRun(s, r.value);
          return;
        }
      }
      DayWithout(s, base, forward, date, i);
      StepDistance(forward, base.date, date);
      date := Step(forward, date);
    }
    r := None;
  }

  lemma NearestOf(forward: bool, base: Moment, t: Moment, ts: Moment -> bool)
    requires IsMonth(base.date.month) && Finds(forward, base, Some(t), ts)
    ensures IsNearest(forward, base, t, ts)
  {
  }

  lemma DayOfRun(s: Schedule, t: Moment)
    requires Runs(s, t)
    ensures HasMatchingDay(s)
  {
  }

  // ---------------------------------------------------------------- several expressions

  ghost predicate RunsAny(schedules: seq<Schedule>, t: Moment) {
    exists i :: 0 <= i < |schedules| && Runs(schedules[i], t)
  }

  ghost predicate AllWellFormed(schedules: seq<Schedule>) {
    forall i :: 0 <= i < |schedules| ==> WellFormed(schedules[i])
  }

  /** The answer for the union: the nearest run of any expression, or none of any in the whole window. */
  ghost predicate AnswersAny(schedules: seq<Schedule>, base: Moment, forward: bool, r: Option<Moment>)
    requires IsMonth(base.date.month)
  {
    match r
    case Some(t) =>
      && RunsAny(schedules, t) && Ahead(forward, base, t)
      && forall u :: RunsAny(schedules, u) && Ahead(forward, base, u) ==> !Ahead(forward, u, t)
    case None => forall i :: 0 <= i < |schedules| ==> NothingWithin(schedules[i], base, forward, MaxSearchDays)
  }

  /** Searching all of `schedules` has left the nearest candidate in `r`, inside the window. */
  ghost predicate Best(schedules: seq<Schedule>, base: Moment, forward: bool, r: Option<Moment>)
    requires IsMonth(base.date.month)
  {
    && AnswersAny(schedules, base, forward, r)
    && (r.Some? ==> Distance(forward, base.date, r.value.date) < MaxSearchDays)
  }

  /** A candidate inside the window is nearer than any run outside it. */
  lemma InsideIsNearer(forward: bool, base: Moment, t: Moment, u: Moment)
    requires IsMoment(base) && IsMoment(t) && IsMoment(u)
    requires Distance(forward, base.date, t.date) < MaxSearchDays <= Distance(forward, base.date, u.date)
    ensures !Ahead(forward, u, t)
  {
    AheadIsNoEarlierDay(forward, t, u);
    Opposite(forward, t, u);
  }

  function Nearer(forward: bool, before: Option<Moment>, found: Option<Moment>): Option<Moment>
    requires before.Some? ==> IsMonth(before.value.date.month)
    requires found.Some? ==> IsMonth(found.value.date.month)
  {
    if before.None? then found
    else if found.None? then before
    else if Ahead(forward, found.value, before.value) then found
    else before
  }

  /** The better of the best so far and one more answer is the best of all. */
  lemma BestOfBoth(
    done: seq<Schedule>, s: Schedule, base: Moment, forward: bool, before: Option<Moment>, found: Option<Moment>)
    requires IsMoment(base) && Best(done, base, forward, before) && Answers(s, base, forward, found)
    ensures Best(done + [s], base, forward, Nearer(forward, before, found))
  {
    var all := done + [s];
    forall u
      ensures RunsAny(all, u) <==> RunsAny(done, u) || Runs(s, u)
      ensures RunsAny(done, u) || Runs(s, u) ==> IsMoment(u)
    {
      UnionOfRuns(done, s, u);
    }
    hide Stamp, Ordinal, RunsAny, Runs;
    match Nearer(forward, before, found)
    case None =>
    case Some(t) =>
      forall u | RunsAny(all, u) && Ahead(forward, base, u)
        ensures !Ahead(forward, u, t)
      {
        NoneNearer(done, s, base, forward, before, found, t, u);
      }
  }

  lemma NoneNearer(
    done: seq<Schedule>, s: Schedule, base: Moment, forward: bool, before: Option<Moment>, found: Option<Moment>,
    t: Moment, u: Moment)
    requires IsMoment(base) && IsMoment(t) && IsMoment(u)
    requires Best(done, base, forward, before) && Answers(s, base, forward, found)
    requires Nearer(forward, before, found) == Some(t) && Distance(forward, base.date, t.date) < MaxSearchDays
    requires (RunsAny(done, u) || Runs(s, u)) && Ahead(forward, base, u)
    ensures !Ahead(forward, u, t)
  {
    hide Stamp, Ordinal, RunsAny, Runs;
    if before.None? && RunsAny(done, u) {
      FarRun(done, base, forward, u);
      InsideIsNearer(forward, base, t, u);
    } else if found.None? && Runs(s, u) {
      InsideIsNearer(forward, base, t, u);
    }
  }

  lemma FarRun(schedules: seq<Schedule>, base: Moment, forward: bool, u: Moment)
    requires IsMoment(base) && AnswersAny(schedules, base, forward, None)
    requires RunsAny(schedules, u) && Ahead(forward, base, u)
    ensures Distance(forward, base.date, u.date) >= MaxSearchDays
  {
  }

  lemma UnionOfRuns(done: seq<Schedule>, s: Schedule, u: Moment)
    ensures RunsAny(done + [s], u) <==> RunsAny(done, u) || Runs(s, u)
  {
    var all := done + [s];
    assert all[|done|] == s;
    assert forall i :: 0 <= i < |done| ==> all[i] == done[i];
  }

  lemma MomentOfRun(schedules: seq<Schedule>, t: Moment)
    ensures RunsAny(schedules, t) ==> IsMoment(t)
  {
  }

  /** Every expression searched, those without a run in the window left out, the nearest candidate taken. */
  method FindRun(schedules: seq<Schedule>, base: Moment, offset: int, skips: bool, forward: bool)
    returns (r: Option<Moment>)
    requires AllWellFormed(schedules) && IsMoment(base)
    ensures Best(schedules, base, forward, r)
    ensures (forall i :: 0 <= i < |schedules| ==> WithoutModulo(schedules[i])) ==>
              (r.Some? <==> exists i :: 0 <= i < |schedules| && HasMatchingDay(schedules[i]))
  {
    r := None;
    for i := 0 to |schedules|
      invariant Best(schedules[..i], base, forward, r)
      invariant r.Some? ==> IsMoment(r.value)
      invariant (forall k :: 0 <= k < |schedules| ==> WithoutModulo(schedules[k])) ==>
                  (r.Some? <==> exists k :: 0 <= k < i && HasMatchingDay(schedules[k]))
    {
      hide Best, Runs;
      var found := FindRunForSchedule(schedules[i], base, offset, skips, forward);
      FoundMoment(schedules[i], base, forward, found);
      assert schedules[..i + 1] == schedules[..i] + [schedules[i]];
      BestOfBoth(schedules[..i], schedules[i], base, forward, r, found);
      r := Nearer(forward, r, found);
    }
    assert schedules[..|schedules|] == schedules;
  }

  lemma FoundMoment(s: Schedule, base: Moment, forward: bool, found: Option<Moment>)
    requires IsMoment(base) && Answers(s, base, forward, found)
    ensures found.Some? ==> IsMoment(found.value)
  {
  }

  // ---------------------------------------------------------------- the search as a function of time

  const DayLength := 86400000000

  function DayNumber(t: int): int {
    t / DayLength
  }

  lemma DayOfStamp(m: Moment)
    requires IsMoment(m)
    ensures DayNumber(Stamp(m)) == Ordinal(m.date)
  {
    var rest := ((m.hour * 60 + m.minute) * 60 + m.second) * 1000000 + m.micro;
    assert Stamp(m) == Ordinal(m.date) * DayLength + rest;
    hide Ordinal, Stamp;
  }

  /** Every time is the stamp of a moment. */
  lemma MomentOf(t: int) returns (m: Moment)
    ensures IsMoment(m) && Stamp(m) == t
  {
    var (seconds, micro) := (t / 1000000, t % 1000000);
    var (minutes, second) := (seconds / 60, seconds % 60);
    var (hours, minute) := (minutes / 60, minutes % 60);
    var (days, hour) := (hours / 24, hours % 24);
    var d := DateOf(days);
    m := Moment(d, hour, minute, second, micro);
  }

  /** Some expression runs at this time. */
  ghost predicate RunsAt(schedules: seq<Schedule>, t: int) {
    exists m :: RunsAny(schedules, m) && IsMoment(m) && Stamp(m) == t
  }

  /** Ahead of `t`, and fewer days on than the search looks. */
  predicate InWindow(forward: bool, t: int, u: int) {
    && Beyond(forward, t, u)
    && (if forward then DayNumber(u) - DayNumber(t) else DayNumber(t) - DayNumber(u)) < MaxSearchDays
  }

  /** A run in the window with no run between it and `t`. */
  ghost predicate IsNearestRun(schedules: seq<Schedule>, t: int, forward: bool, r: int) {
    && RunsAt(schedules, r) && InWindow(forward, t, r)
    && forall u :: RunsAt(schedules, u) && Beyond(forward, t, u) ==> !Beyond(forward, u, r)
  }

  lemma {:induction false} NearestRunExists(schedules: seq<Schedule>, t: int, forward: bool, r: int)
    requires RunsAt(schedules, r) && InWindow(forward, t, r)
    ensures exists u :: IsNearestRun(schedules, t, forward, u)
    decreases if forward then r - t else t - r
  {
    hide RunsAt;
    if exists u :: RunsAt(schedules, u) && Beyond(forward, t, u) && Beyond(forward, u, r) {
      var u :| RunsAt(schedules, u) && Beyond(forward, t, u) && Beyond(forward, u, r);
      NearestRunExists(schedules, t, forward, u);
    } else {
      assert IsNearestRun(schedules, t, forward, r);
    }
  }

  /** The answer of the search: the nearest run in the window, if the window holds one. */
  ghost function Nearest(schedules: seq<Schedule>, t: int, forward: bool): (r: Option<int>)
    ensures r.Some? ==> IsNearestRun(schedules, t, forward, r.value)
    ensures r.None? ==> forall u :: RunsAt(schedules, u) ==> !InWindow(forward, t, u)
  {
    if exists u :: RunsAt(schedules, u) && InWindow(forward, t, u) then
      var u :| RunsAt(schedules, u) && InWindow(forward, t, u);
      NearestRunExists(schedules, t, forward, u);
      var r :| IsNearestRun(schedules, t, forward, r);
      Some(r)
    else
      None
  }

  function StampOf(r: Option<Moment>): Option<int>
    requires r.Some? ==> IsMonth(r.value.date.month)
  {
    if r.Some? then Some(Stamp(r.value)) else None
  }

  lemma WindowIsDistance(forward: bool, base: Moment, m: Moment)
    requires IsMoment(base) && IsMoment(m)
    ensures InWindow(forward, Stamp(base), Stamp(m)) <==>
              Ahead(forward, base, m) && Distance(forward, base.date, m.date) < MaxSearchDays
  {
    DayOfStamp(base);
    DayOfStamp(m);
    hide Ordinal, Stamp;
  }

  lemma FoundIsNearest(schedules: seq<Schedule>, base: Moment, forward: bool, m: Moment)
    requires IsMoment(base) && Best(schedules, base, forward, Some(m))
    ensures IsMoment(m) && IsNearestRun(schedules, Stamp(base), forward, Stamp(m))
  {
    MomentOfRun(schedules, m);
    WindowIsDistance(forward, base, m);
    hide Ordinal, Stamp, RunsAny, InWindow;
    assert RunsAt(schedules, Stamp(m));
  }

  lemma NothingInWindow(schedules: seq<Schedule>, base: Moment, forward: bool, u: int)
    requires IsMoment(base) && Best(schedules, base, forward, None) && RunsAt(schedules, u)
    ensures !InWindow(forward, Stamp(base), u)
  {
    var m :| RunsAny(schedules, m) && IsMoment(m) && Stamp(m) == u;
    WindowIsDistance(forward, base, m);
    hide Ordinal, Stamp, RunsAny, InWindow;
    if Ahead(forward, base, m) {
      FarRun(schedules, base, forward, m);
    }
  }

  /** What the loops find is that answer. */
  lemma BestIsNearest(schedules: seq<Schedule>, base: Moment, forward: bool, r: Option<Moment>)
    requires IsMoment(base) && Best(schedules, base, forward, r)
    ensures r.Some? ==> IsMoment(r.value)
    ensures StampOf(r) == Nearest(schedules, Stamp(base), forward)
  {
    hide Ordinal, Stamp, RunsAt, Best, Nearest;
    match r
    case Some(m) => FoundIsNearest(schedules, base, forward, m);
    case None =>
      forall u | RunsAt(schedules, u)
        ensures !InWindow(forward, Stamp(base), u)
      {
        NothingInWindow(schedules, base, forward, u);
      }
  }

  /** Without `%` the search answers, at any time and in either direction, exactly when some expression has a matching day. */
  lemma AnswersIffMatchingDay(schedules: seq<Schedule>, t: int, forward: bool)
    requires AllWellFormed(schedules) && forall i :: 0 <= i < |schedules| ==> WithoutModulo(schedules[i])
    ensures Nearest(schedules, t, forward).Some? <==> exists i :: 0 <= i < |schedules| && HasMatchingDay(schedules[i])
  {
    if Nearest(schedules, t, forward).Some? {
      var m :| RunsAny(schedules, m) && IsMoment(m) && Stamp(m) == Nearest(schedules, t, forward).value;
      var i :| 0 <= i < |schedules| && Runs(schedules[i], m);
      DayOfRun(schedules[i], m);
    }
    if exists i :: 0 <= i < |schedules| && HasMatchingDay(schedules[i]) {
      var i :| 0 <= i < |schedules| && HasMatchingDay(schedules[i]);
      var base := MomentOf(t);
      WindowSuffices(schedules[i], base, forward);
      var m :| Runs(schedules[i], m) && Ahead(forward, base, m) && Distance(forward, base.date, m.date) < MaxSearchDays;
      DayOfStamp(base);
      DayOfStamp(m);
      assert RunsAny(schedules, m);
      hide Ordinal, Runs;
      assert RunsAt(schedules, Stamp(m)) && InWindow(forward, t, Stamp(m));
    }
  }

  // ---------------------------------------------------------------- next, previous, latest

  method NextRun(schedules: seq<Schedule>, base: Moment, offset: int, skips: bool) returns (r: Option<Moment>)
    requires AllWellFormed(schedules) && IsMoment(base)
    ensures r.Some? ==> IsMoment(r.value)
    ensures StampOf(r) == Nearest(schedules, Stamp(base), true)
    ensures r.Some? ==> RunsAny(schedules, r.value) && Stamp(base) < Stamp(r.value)
    ensures r.Some? ==> forall u :: RunsAny(schedules, u) && Stamp(base) < Stamp(u) ==> Stamp(r.value) <= Stamp(u)
    ensures r.None? ==> forall u :: RunsAny(schedules, u) && Stamp(base) < Stamp(u) ==>
                          Ordinal(u.date) - Ordinal(base.date) >= MaxSearchDays
  {
    r := FindRun(schedules, base, offset, skips, true);
    BestIsNearest(schedules, base, true, r);
    forall u
      ensures RunsAny(schedules, u) ==> IsMoment(u)
    {
      MomentOfRun(schedules, u);
    }
  }

  method PreviousRun(schedules: seq<Schedule>, base: Moment, offset: int, skips: bool) returns (r: Option<Moment>)
    requires AllWellFormed(schedules) && IsMoment(base)
    ensures r.Some? ==> IsMoment(r.value)
    ensures StampOf(r) == Nearest(schedules, Stamp(base), false)
    ensures r.Some? ==> RunsAny(schedules, r.value) && Stamp(r.value) < Stamp(base)
    ensures r.Some? ==> forall u :: RunsAny(schedules, u) && Stamp(u) < Stamp(base) ==> Stamp(u) <= Stamp(r.value)
    ensures r.None? ==> forall u :: RunsAny(schedules, u) && Stamp(u) < Stamp(base) ==>
                          Ordinal(base.date) - Ordinal(u.date) >= MaxSearchDays
  {
    r := FindRun(schedules, base, offset, skips, false);
    BestIsNearest(schedules, base, false, r);
    forall u
      ensures RunsAny(schedules, u) ==> IsMoment(u)
    {
      MomentOfRun(schedules, u);
    }
  }

  /** One microsecond later. */
  function Tick(t: Moment): Moment {
    if t.micro < 999999 then t.(micro := t.micro + 1)
    else if t.second < 59 then t.(micro := 0, second := t.second + 1)
    else if t.minute < 59 then t.(micro := 0, second := 0, minute := t.minute + 1)
    else if t.hour < 23 then t.(micro := 0, second := 0, minute := 0, hour := t.hour + 1)
    else Moment(NextDay(t.date), 0, 0, 0, 0)
  }

  lemma TickStamp(t: Moment)
    requires IsMoment(t)
    ensures IsMoment(Tick(t)) && Stamp(Tick(t)) == Stamp(t) + 1
  {
    NextDayOrdinal(t.date);
    hide Ordinal;
  }

  /** The greatest run at or before `base`. */
  method LatestRun(schedules: seq<Schedule>, base: Moment, offset: int, skips: bool) returns (r: Option<Moment>)
    requires AllWellFormed(schedules) && IsMoment(base)
    ensures r.Some? ==> IsMoment(r.value)
    ensures StampOf(r) == Nearest(schedules, Stamp(base) + 1, false)
    ensures r.Some? ==> RunsAny(schedules, r.value) && Stamp(r.value) <= Stamp(base)
    ensures r.Some? ==> forall u :: RunsAny(schedules, u) && Stamp(u) <= Stamp(base) ==> Stamp(u) <= Stamp(r.value)
    ensures r.None? ==> forall u :: RunsAny(schedules, u) && Stamp(u) <= Stamp(base) ==>
                          Ordinal(base.date) - Ordinal(u.date) >= MaxSearchDays - 1
  {
    TickStamp(base);
    r := PreviousRun(schedules, Tick(base), offset, skips);
    forall u
      ensures RunsAny(schedules, u) ==> IsMoment(u)
    {
      MomentOfRun(schedules, u);
    }
    assert Ordinal(Tick(base).date) <= Ordinal(base.date) + 1 by {
      NextDayOrdinal(base.date);
    }
  }

  /** No run lies between the latest one and now, so the run after the latest one is after now. */
  lemma NextAfterLatestIsAfterNow(schedules: seq<Schedule>, now: Moment, latest: Moment, next: Moment)
    requires IsMoment(now)
    requires RunsAny(schedules, latest) && Stamp(latest) <= Stamp(now)
    requires forall u :: RunsAny(schedules, u) && Stamp(u) <= Stamp(now) ==> Stamp(u) <= Stamp(latest)
    requires RunsAny(schedules, next) && Stamp(latest) < Stamp(next)
    ensures Stamp(now) < Stamp(next)
  {
  }
}
