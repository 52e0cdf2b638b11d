/**
 Parsed cron schedules: which dates match, which schedules the parser accepts, and exactly which of
 them can ever match. A day matches when day of month or day of week does, if both are restricted,
 as the INPUT FILES section of the crontab utility in IEEE Std 1003.1 has it; `&`, `#`, `%` and
 negative days are extensions.
 */
module Cron {
  import opened Results
  import opened Calendar

  datatype Field = Field(values: set<int>, wildcard: bool) {
    predicate Matches(value: int) {
      wildcard || value in values
    }
  }

  /** A weekday, or its `nth` occurrence in a month, or its occurrence in every `modulo.0`-th week. */
  datatype WeekdaySpec = WeekdaySpec(day: int, nth: Option<int>, modulo: Option<(int, int)>)

  datatype WeekdayField = WeekdayField(specs: seq<WeekdaySpec>, wildcard: bool)

  datatype Schedule = Schedule(
    seconds: Field,
    minutes: Field,
    hours: Field,
    dayOfMonth: Field,
    months: Field,
    dayOfWeek: WeekdayField,
    dayAnd: bool
  )

  // ---------------------------------------------------------------- matching a date

  /** `day` counts from the first of the month, or from its end when negative. */
  predicate IsDay(day: int, length: int, value: int) {
    (value > 0 && day == value) || (value < 0 && day == length + 1 + value)
  }

  predicate MatchesDayOfMonth(s: Schedule, d: Date) {
    s.dayOfMonth.wildcard || DayHits(s, d.day, MonthLength(d.year, d.month))
  }

  predicate DayHits(s: Schedule, day: int, length: int) {
    exists value :: value in s.dayOfMonth.values && IsDay(day, length, value)
  }

  predicate HashMatches(day: int, length: int, nth: int) {
    nth == (day - 1) / 7 + 1 || nth == -((length - day) / 7 + 1)
  }

  const ReferenceMondayOrdinal := 737059

  predicate ModuloMatches(ordinal: int, divisor: int, offset: int)
    requires divisor > 0
  {
    (ordinal - ReferenceMondayOrdinal) / 7 % divisor == offset % divisor
  }

  predicate SpecMatches(spec: WeekdaySpec, d: Date)
    requires IsMonth(d.month)
  {
    && spec.day == Weekday(d)
    && (|| (spec.nth.Some? && HashMatches(d.day, MonthLength(d.year, d.month), spec.nth.value))
        || (spec.modulo.Some? && spec.modulo.value.0 > 0
            && ModuloMatches(Ordinal(d), spec.modulo.value.0, spec.modulo.value.1))
        || (spec.nth.None? && spec.modulo.None?))
  }

  predicate MatchesDayOfWeek(s: Schedule, d: Date)
    requires IsMonth(d.month)
  {
    s.dayOfWeek.wildcard || exists i :: 0 <= i < |s.dayOfWeek.specs| && SpecMatches(s.dayOfWeek.specs[i], d)
  }

  predicate MatchesDay(s: Schedule, d: Date)
    requires IsMonth(d.month)
  {
    if s.dayOfMonth.wildcard && s.dayOfWeek.wildcard then true
    else if s.dayOfMonth.wildcard then MatchesDayOfWeek(s, d)
    else if s.dayOfWeek.wildcard then MatchesDayOfMonth(s, d)
    else if s.dayAnd then MatchesDayOfMonth(s, d) && MatchesDayOfWeek(s, d)
    else MatchesDayOfMonth(s, d) || MatchesDayOfWeek(s, d)
  }

  predicate MatchesDate(s: Schedule, d: Date)
    requires IsMonth(d.month)
  {
    s.months.Matches(d.month) && MatchesDay(s, d)
  }

  /** `#n` is the n-th day of its weekday in the month, `#-n` the n-th from the end. */
  lemma HashMeans(day: int, length: int, nth: int)
    requires 1 <= day <= length
    ensures HashMatches(day, length, nth) <==>
              || (nth > 0 && 7 * (nth - 1) < day <= 7 * nth)
              || (nth < 0 && 7 * (-nth - 1) < length + 1 - day <= 7 * -nth)
  {
  }

  lemma SmallMultiple(divisor: int, m: int)
    requires -divisor < divisor * m < divisor
    ensures m == 0
  {
  }

  lemma SameRemainder(w: int, divisor: int, offset: int)
    requires divisor > 0
    ensures w % divisor == offset % divisor <==> exists k :: w == divisor * k + offset
  {
    var (p, q) := (w / divisor, offset / divisor);
    assert w == divisor * p + w % divisor && offset == divisor * q + offset % divisor;
    if w % divisor == offset % divisor {
      assert w == divisor * (p - q) + offset;
    }
    if k :| w == divisor * k + offset {
      assert divisor * (p - q - k) == offset % divisor - w % divisor;
      SmallMultiple(divisor, p - q - k);
    }
  }

  /** `%n+m` matches in the weeks, from Monday to Sunday, that lie m and some multiple of n weeks after 31 December 2018. */
  lemma ModuloWeeks(d: Date, divisor: int, offset: int)
    requires IsDate(d) && divisor > 0
    ensures ModuloMatches(Ordinal(d), divisor, offset) <==>
              exists k :: 0 <= Ordinal(d) - Ordinal(Date(2018, 12, 31)) - 7 * (divisor * k + offset) < 7
  {
    ReferenceMonday();
    hide Ordinal;
    var days := Ordinal(d) - 737059;
    SameRemainder(days / 7, divisor, offset);
    if k :| 0 <= days - 7 * (divisor * k + offset) < 7 {
      assert days / 7 == divisor * k + offset;
    }
    if k :| days / 7 == divisor * k + offset {
      assert 0 <= days - 7 * (divisor * k + offset) < 7;
    }
  }

  /**
   A specification is met on its weekday: on every one, on those of the n-th seven days from the start or the end of
   the month, or on those of every n-th week.
   */
  lemma SpecMeans(spec: WeekdaySpec, d: Date)
    requires WellFormedSpec(spec) && IsDate(d)
    ensures SpecMatches(spec, d) <==>
              && Weekday(d) == spec.day
              && (spec.nth.Some? ==>
                    var (n, left) := (spec.nth.value, MonthLength(d.year, d.month) + 1 - d.day);
                    if n > 0 then 7 * (n - 1) < d.day <= 7 * n else 7 * (-n - 1) < left <= 7 * -n)
              && (spec.modulo.Some? ==>
                    exists k :: 0 <= Ordinal(d) - Ordinal(Date(2018, 12, 31))
                                     - 7 * (spec.modulo.value.0 * k + spec.modulo.value.1) < 7)
  {
    if spec.nth.Some? {
      HashMeans(d.day, MonthLength(d.year, d.month), spec.nth.value);
    }
    if spec.modulo.Some? {
      ModuloWeeks(d, spec.modulo.value.0, spec.modulo.value.1);
    }
    hide Ordinal, HashMatches, ModuloMatches, MonthLength, Weekday;
  }

  /** The month is asked for, and so is the day: by its number or its weekday if both restrict it, unless joined by `&`. */
  lemma DateMeans(s: Schedule, d: Date)
    requires IsDate(d)
    ensures var byNumber := exists v :: v in s.dayOfMonth.values
                                        && (if v > 0 then d.day == v else v < 0 && MonthLength(d.year, d.month) - d.day == -v - 1);
            var byWeekday := exists spec :: spec in s.dayOfWeek.specs && SpecMatches(spec, d);
            MatchesDate(s, d) <==>
              && (s.months.wildcard || d.month in s.months.values)
              && (s.dayOfMonth.wildcard || byNumber || (!s.dayOfWeek.wildcard && !s.dayAnd && byWeekday))
              && (s.dayOfWeek.wildcard || byWeekday || (!s.dayOfMonth.wildcard && !s.dayAnd && byNumber))
  {
    hide MonthLength, SpecMatches;
    var length := MonthLength(d.year, d.month);
    assert DayHits(s, d.day, length) <==>
             exists v :: v in s.dayOfMonth.values && (if v > 0 then d.day == v else v < 0 && length - d.day == -v - 1) by {
      forall v
        ensures IsDay(d.day, length, v) <==> if v > 0 then d.day == v else v < 0 && length - d.day == -v - 1
      {
      }
      hide IsDay;
    }
    if exists spec :: spec in s.dayOfWeek.specs && SpecMatches(spec, d) {
      var spec :| spec in s.dayOfWeek.specs && SpecMatches(spec, d);
      var i :| 0 <= i < |s.dayOfWeek.specs| && s.dayOfWeek.specs[i] == spec;
    }
  }

  // ---------------------------------------------------------------- what the parser lets through

  /** A parsed field has values, all in range; the wildcard has them all. */
  ghost predicate InRange(f: Field, low: int, high: int) {
    && f.values != {}
    && (forall v :: v in f.values ==> low <= v <= high)
    && (f.wildcard ==> forall v :: low <= v <= high ==> v in f.values)
  }

  predicate WellFormedSpec(spec: WeekdaySpec) {
    && 0 <= spec.day <= 6
    && (spec.nth.Some? ==> spec.modulo.None? && spec.nth.value != 0 && -5 <= spec.nth.value <= 5)
    && (spec.modulo.Some? ==> spec.modulo.value.0 > 0)
  }

  ghost predicate WellFormed(s: Schedule) {
    && InRange(s.seconds, 0, 59) && InRange(s.minutes, 0, 59) && InRange(s.hours, 0, 23)
    && InRange(s.months, 1, 12)
    && s.dayOfMonth.values != {}
    && (forall v :: v in s.dayOfMonth.values ==> v != 0 && -31 <= v <= 31)
    && (s.dayOfWeek.wildcard || s.dayOfWeek.specs != [])
    && (forall i :: 0 <= i < |s.dayOfWeek.specs| ==> WellFormedSpec(s.dayOfWeek.specs[i]))
  }

  predicate CanMatchIn2024(value: int, month: int) {
    var length := MonthLength(2024, month);
    if value > 0 then value <= length else 1 <= length + 1 + value <= length
  }

  /** The parser's own check that some day of month exists. */
  predicate PossibleDayOfMonth(s: Schedule) {
    || s.dayOfMonth.wildcard
    || (!s.dayAnd && !s.dayOfWeek.wildcard)
    || exists month, value :: month in s.months.values && value in s.dayOfMonth.values && CanMatchIn2024(value, month)
  }

  ghost predicate Accepted(s: Schedule) {
    WellFormed(s) && PossibleDayOfMonth(s)
  }

  /** That check asks for a day of 2024 in one of the months with one of the numbers, unless weekdays may stand in. */
  lemma PossibleMeans(s: Schedule)
    requires forall month :: month in s.months.values ==> IsMonth(month)
    ensures PossibleDayOfMonth(s) <==>
              || s.dayOfMonth.wildcard
              || (!s.dayAnd && !s.dayOfWeek.wildcard)
              || exists d: Date :: IsDate(d) && d.year == 2024 && d.month in s.months.values
                                   && DayHits(s, d.day, MonthLength(2024, d.month))
  {
    if month, value :| month in s.months.values && value in s.dayOfMonth.values && CanMatchIn2024(value, month) {
      var day := if value > 0 then value else MonthLength(2024, month) + 1 + value;
      assert IsDay(day, MonthLength(2024, month), value);
      assert IsDate(Date(2024, month, day)) && DayHits(s, day, MonthLength(2024, month));
    }
    if d: Date :| && IsDate(d) && d.year == 2024 && d.month in s.months.values
                  && DayHits(s, d.day, MonthLength(2024, d.month)) {
      var value :| value in s.dayOfMonth.values && IsDay(d.day, MonthLength(2024, d.month), value);
      assert CanMatchIn2024(value, d.month);
    }
  }

  predicate WithoutModulo(s: Schedule) {
    forall i :: 0 <= i < |s.dayOfWeek.specs| ==> s.dayOfWeek.specs[i].modulo.None?
  }

  // ---------------------------------------------------------------- which schedules can match at all

  ghost predicate HasMatchingDay(s: Schedule) {
    exists d: Date :: IsDate(d) && MatchesDate(s, d)
  }

  /** Some restriction on the day of week allows this day of a month of this length. */
  predicate SpecAllows(spec: WeekdaySpec, day: int, length: int) {
    spec.nth.None? || HashMatches(day, length, spec.nth.value)
  }

  predicate WeekAllows(s: Schedule, day: int, length: int) {
    exists i :: 0 <= i < |s.dayOfWeek.specs| && SpecAllows(s.dayOfWeek.specs[i], day, length)
  }

  predicate DayAllowed(s: Schedule, day: int, length: int) {
    if s.dayOfMonth.wildcard && s.dayOfWeek.wildcard then true
    else if s.dayOfMonth.wildcard then WeekAllows(s, day, length)
    else if s.dayOfWeek.wildcard then DayHits(s, day, length)
    else if s.dayAnd then DayHits(s, day, length) && WeekAllows(s, day, length)
    else DayHits(s, day, length) || WeekAllows(s, day, length)
  }

  /** The fields allow this day of this month, in a leap year or a common one, on some weekday. */
  predicate Allows(s: Schedule, leap: bool, month: int, day: int) {
    && month in s.months.values && 1 <= day <= LengthIn(leap, month)
    && DayAllowed(s, day, LengthIn(leap, month))
  }

  lemma AllowedDayMatches(s: Schedule, leap: bool, month: int, day: int) returns (d: Date)
    requires WellFormed(s) && WithoutModulo(s) && Allows(s, leap, month, day)
    ensures IsDate(d) && MatchesDate(s, d)
  {
    var length := LengthIn(leap, month);
    if WeekAllows(s, day, length) {
      var i :| 0 <= i < |s.dayOfWeek.specs| && SpecAllows(s.dayOfWeek.specs[i], day, length);
      var spec := s.dayOfWeek.specs[i];
      assert WellFormedSpec(spec);
      d := EveryWeekday(leap, month, day, spec.day);
      assert SpecMatches(spec, d);
    } else {
      d := EveryWeekday(leap, month, day, 0);
    }
    assert MonthLength(d.year, d.month) == length;
  }

  lemma MatchingDayIsAllowed(s: Schedule, d: Date)
    requires WellFormed(s) && WithoutModulo(s) && IsDate(d) && MatchesDate(s, d)
    ensures Allows(s, IsLeap(d.year), d.month, d.day)
  {
    var length := MonthLength(d.year, d.month);
    if exists i :: 0 <= i < |s.dayOfWeek.specs| && SpecMatches(s.dayOfWeek.specs[i], d) {
      var i :| 0 <= i < |s.dayOfWeek.specs| && SpecMatches(s.dayOfWeek.specs[i], d);
      assert SpecAllows(s.dayOfWeek.specs[i], d.day, length);
    }
  }

  /** Without `%`, a schedule has a matching day exactly when its fields allow some day of some month. */
  lemma MatchingDayIffAllowed(s: Schedule)
    requires WellFormed(s) && WithoutModulo(s)
    ensures HasMatchingDay(s) <==> exists leap, month, day :: Allows(s, leap, month, day)
  {
    if HasMatchingDay(s) {
      var d :| IsDate(d) && MatchesDate(s, d);
      MatchingDayIsAllowed(s, d);
    }
    if exists leap, month, day :: Allows(s, leap, month, day) {
      var leap, month, day :| Allows(s, leap, month, day);
      var d := AllowedDayMatches(s, leap, month, day);
    }
  }

  /** In a leap year every numbered occurrence of a weekday is on some day of every month. */
  lemma NthDay(spec: WeekdaySpec, month: int) returns (day: int)
    requires WellFormedSpec(spec)
    ensures 1 <= day <= LengthIn(true, month) && SpecAllows(spec, day, LengthIn(true, month))
  {
    day := 1;
    if spec.nth.Some? {
      var nth := spec.nth.value;
      day := if nth > 0 then 7 * (nth - 1) + 1 else LengthIn(true, month) - 7 * (-nth - 1);
    }
  }

  /** Every schedule the parser accepts, without `&` between two restricted day fields and without `%`, has a matching day. */
  lemma AcceptedSchedulesMatch(s: Schedule)
    requires Accepted(s) && WithoutModulo(s)
    requires s.dayAnd ==> s.dayOfMonth.wildcard || s.dayOfWeek.wildcard
    ensures HasMatchingDay(s)
  {
    SomeMonth(s);
    var month :| month in s.months.values && IsMonth(month);
    if !s.dayOfWeek.wildcard {
      var spec := s.dayOfWeek.specs[0];
      assert WellFormedSpec(spec);
      var day := NthDay(spec, month);
      assert WeekAllows(s, day, LengthIn(true, month));
      var d := AllowedDayMatches(s, true, month, day);
    } else if s.dayOfMonth.wildcard {
      var d := AllowedDayMatches(s, true, month, 1);
    } else {
      var m, value :| m in s.months.values && value in s.dayOfMonth.values && CanMatchIn2024(value, m);
      var length := LengthIn(true, m);
      var day := if value > 0 then value else length + 1 + value;
      assert IsDay(day, length, value);
      var d := AllowedDayMatches(s, true, m, day);
    }
  }

  lemma SomeMonth(s: Schedule)
    requires WellFormed(s)
    ensures exists month :: month in s.months.values && IsMonth(month)
  {
    assert (forall month :: month !in s.months.values) ==> s.months.values == {};
  }

  /** The first of the month is never a second Monday, and the parser does not notice. */
  function NeverMatching(): Schedule {
    Schedule(Field({0}, false), Field({0}, false), Field({0}, false), Field({1}, false), Field({1}, false),
             WeekdayField([WeekdaySpec(1, Some(2), None)], false), true)
  }

  lemma ConjunctionCanNeverMatch()
    ensures Accepted(NeverMatching()) && WithoutModulo(NeverMatching()) && !HasMatchingDay(NeverMatching())
  {
    var s := NeverMatching();
    assert CanMatchIn2024(1, 1);
    assert 1 in s.months.values && 1 in s.dayOfMonth.values;
    forall leap, month, day
      ensures !Allows(s, leap, month, day)
    {
    }
    MatchingDayIffAllowed(s);
  }

  const EveryDay := set day: int | 1 <= day <= 31

  const EveryMonth := set month: int | 1 <= month <= 12

  /** `0 0 * * *` */
  function EveryMidnight(): Schedule {
    Schedule(Field({0}, false), Field({0}, false), Field({0}, false), Field(EveryDay, true), Field(EveryMonth, true),
             WeekdayField([], true), false)
  }

  /** `0 0 1 * *` */
  function FirstOfMonth(): Schedule {
    EveryMidnight().(dayOfMonth := Field({1}, false))
  }

  // ---------------------------------------------------------------- the calendar's period

  lemma MatchesEvery400Years(s: Schedule, d: Date, k: int)
    requires IsDate(d) && WithoutModulo(s) && MatchesDate(s, d)
    ensures var e := d.(year := d.year + 400 * k);
            IsDate(e) && MatchesDate(s, e) && Ordinal(e) == Ordinal(d) + 146097 * k
  {
    FourHundredYears(d, k);
    var e := d.(year := d.year + 400 * k);
    hide Ordinal, MonthLength, HashMatches;
    forall i | 0 <= i < |s.dayOfWeek.specs|
      ensures SpecMatches(s.dayOfWeek.specs[i], d) <==> SpecMatches(s.dayOfWeek.specs[i], e)
    {
    }
  }
}
