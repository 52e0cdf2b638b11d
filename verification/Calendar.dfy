/** The proleptic Gregorian calendar, with the day numbers that dates are compared by. */
module Calendar {

  datatype Date = Date(year: int, month: int, day: int)

  predicate IsLeap(year: int) {
    year % 4 == 0 && (year % 100 != 0 || year % 400 == 0)
  }

  predicate IsMonth(month: int) {
    1 <= month <= 12
  }

  function LengthIn(leap: bool, month: int): (length: int)
    ensures 28 <= length <= 31
    ensures leap ==> length >= 29
  {
    if month == 2 then (if leap then 29 else 28)
    else if month == 4 || month == 6 || month == 9 || month == 11 then 30
    else 31
  }

  function MonthLength(year: int, month: int): (length: int) {
    LengthIn(IsLeap(year), month)
  }

  predicate IsDate(d: Date) {
    IsMonth(d.month) && 1 <= d.day <= MonthLength(d.year, d.month)
  }

  /** Days of the year before the first of the month. */
  function DaysBefore(leap: bool, month: int): int
    requires IsMonth(month)
  {
    if month == 1 then 0 else DaysBefore(leap, month - 1) + LengthIn(leap, month - 1)
  }

  /** Days before the first of January. */
  function YearStart(year: int): int {
    365 * (year - 1) + (year - 1) / 4 - (year - 1) / 100 + (year - 1) / 400
  }

  /** The day number, 1 for the first of January of year 1. */
  function Ordinal(d: Date): int
    requires IsMonth(d.month)
  {
    YearStart(d.year) + DaysBefore(IsLeap(d.year), d.month) + d.day
  }

  /** Sunday is 0; the first of January of year 1 was a Monday. */
  function Weekday(d: Date): int
    requires IsMonth(d.month)
  {
    Ordinal(d) % 7
  }

  // ---------------------------------------------------------------- one day further

  function NextDay(d: Date): Date {
    if d.day < MonthLength(d.year, d.month) then Date(d.year, d.month, d.day + 1)
    else if d.month < 12 then Date(d.year, d.month + 1, 1)
    else Date(d.year + 1, 1, 1)
  }

  function PreviousDay(d: Date): Date {
    if d.day > 1 then Date(d.year, d.month, d.day - 1)
    else if d.month > 1 then Date(d.year, d.month - 1, MonthLength(d.year, d.month - 1))
    else Date(d.year - 1, 12, 31)
  }

  lemma QuarterStep(year: int)
    ensures year / 4 == (year - 1) / 4 + if year % 4 == 0 then 1 else 0
  {
  }

  lemma CenturyStep(year: int)
    ensures year / 100 == (year - 1) / 100 + if year % 100 == 0 then 1 else 0
    ensures year % 100 == 0 ==> year % 4 == 0
  {
  }

  lemma CycleStep(year: int)
    ensures year / 400 == (year - 1) / 400 + if year % 400 == 0 then 1 else 0
    ensures year % 400 == 0 ==> year % 100 == 0
  {
  }

  lemma YearLength(year: int)
    ensures YearStart(year + 1) == YearStart(year) + if IsLeap(year) then 366 else 365
  {
    QuarterStep(year);
    CenturyStep(year);
    CycleStep(year);
    var (q, c, e) := (year / 4, year / 100, year / 400);
    assert YearStart(year + 1) == 365 * year + q - c + e;
  }

  lemma DaysInYear(leap: bool)
    ensures DaysBefore(leap, 12) + 31 == if leap then 366 else 365
  {
    assert DaysBefore(leap, 3) == DaysBefore(leap, 2) + LengthIn(leap, 2);
    assert DaysBefore(leap, 5) == DaysBefore(leap, 4) + LengthIn(leap, 4);
    assert DaysBefore(leap, 7) == DaysBefore(leap, 6) + LengthIn(leap, 6);
    assert DaysBefore(leap, 9) == DaysBefore(leap, 8) + LengthIn(leap, 8);
    assert DaysBefore(leap, 11) == DaysBefore(leap, 10) + LengthIn(leap, 10);
  }

  lemma NextDayOrdinal(d: Date)
    requires IsDate(d)
    ensures IsDate(NextDay(d)) && Ordinal(NextDay(d)) == Ordinal(d) + 1
  {
    if d.day == MonthLength(d.year, d.month) && d.month == 12 {
      YearLength(d.year);
      DaysInYear(IsLeap(d.year));
    }
  }

  lemma PreviousDayOrdinal(d: Date)
    requires IsDate(d)
    ensures IsDate(PreviousDay(d)) && Ordinal(PreviousDay(d)) == Ordinal(d) - 1
  {
    if d.day == 1 && d.month == 1 {
      YearLength(d.year - 1);
      DaysInYear(IsLeap(d.year - 1));
    }
  }

  // ---------------------------------------------------------------- day numbers tell dates apart

  lemma {:induction false} DaysBeforeMonotone(leap: bool, m: int, n: int)
    requires IsMonth(m) && IsMonth(n) && m < n
    ensures DaysBefore(leap, m) + LengthIn(leap, m) <= DaysBefore(leap, n)
    decreases n
  {
    if m < n - 1 {
      DaysBeforeMonotone(leap, m, n - 1);
    }
  }

  lemma {:induction false} YearStartMonotone(x: int, y: int)
    requires x < y
    ensures YearStart(x + 1) <= YearStart(y)
    decreases y - x
  {
    if x + 1 < y {
      YearStartMonotone(x, y - 1);
      YearLength(y - 1);
    }
  }

  lemma InsideYear(d: Date)
    requires IsDate(d)
    ensures YearStart(d.year) < Ordinal(d) <= YearStart(d.year + 1)
  {
    YearLength(d.year);
    var leap := IsLeap(d.year);
    DaysInYear(leap);
    if d.month > 1 {
      DaysBeforeMonotone(leap, 1, d.month);
    }
    if d.month < 12 {
      DaysBeforeMonotone(leap, d.month, 12);
    }
  }

  predicate Earlier(a: Date, b: Date) {
    a.year < b.year || (a.year == b.year && (a.month < b.month || (a.month == b.month && a.day < b.day)))
  }

  /** The calendar order is the order of the day numbers. */
  lemma OrdinalMonotone(a: Date, b: Date)
    requires IsDate(a) && IsDate(b) && Earlier(a, b)
    ensures Ordinal(a) < Ordinal(b)
  {
    if a.year < b.year {
      InsideYear(a);
      InsideYear(b);
      YearStartMonotone(a.year, b.year);
    } else if a.month < b.month {
      DaysBeforeMonotone(IsLeap(a.year), a.month, b.month);
    }
  }

  lemma OrdinalInjective(a: Date, b: Date)
    requires IsDate(a) && IsDate(b) && Ordinal(a) == Ordinal(b)
    ensures a == b
  {
    if Earlier(a, b) {
      OrdinalMonotone(a, b);
    } else if Earlier(b, a) {
      OrdinalMonotone(b, a);
    }
  }

  // ---------------------------------------------------------------- periods

  lemma ShiftQuarters(y: int, k: int)
    ensures (y + 400 * k) / 4 == y / 4 + 100 * k && (y + 400 * k) % 4 == y % 4
  {
  }

  lemma ShiftCenturies(y: int, k: int)
    ensures (y + 400 * k) / 100 == y / 100 + 4 * k && (y + 400 * k) % 100 == y % 100
  {
  }

  lemma ShiftCycles(y: int, k: int)
    ensures (y + 400 * k) / 400 == y / 400 + k && (y + 400 * k) % 400 == y % 400
  {
  }

  lemma ShiftWeeks(n: int, k: int)
    ensures (n + 146097 * k) % 7 == n % 7
  {
    assert n + 146097 * k == n + 7 * (20871 * k);
  }

  lemma ShiftYearStart(year: int, k: int)
    ensures YearStart(year + 400 * k) == YearStart(year) + 146097 * k
  {
    ShiftQuarters(year - 1, k);
    ShiftCenturies(year - 1, k);
    ShiftCycles(year - 1, k);
  }

  lemma ShiftLeap(year: int, k: int)
    ensures IsLeap(year + 400 * k) == IsLeap(year)
  {
    ShiftQuarters(year, k);
    ShiftCenturies(year, k);
    ShiftCycles(year, k);
  }

  /** The calendar repeats every 400 years, which are 146097 days and whole weeks. */
  lemma FourHundredYears(d: Date, k: int)
    requires IsDate(d)
    ensures var e := d.(year := d.year + 400 * k);
            IsDate(e) && Ordinal(e) == Ordinal(d) + 146097 * k && Weekday(e) == Weekday(d)
            && MonthLength(e.year, e.month) == MonthLength(d.year, d.month)
  {
    ShiftYearStart(d.year, k);
    ShiftLeap(d.year, k);
    ShiftWeeks(Ordinal(d), k);
    hide YearStart, IsLeap;
  }

  /** From 2000 to 2028 every fourth year is a leap year, and four years are 1461 days. */
  lemma FourYears(start: int, i: nat)
    requires 2000 <= start <= 2001 && i < 7
    ensures YearStart(start + 4 * i) == YearStart(start) + 1461 * i
    ensures IsLeap(start + 4 * i) <==> start == 2000
  {
  }

  lemma WeekdayOf(weekday: int, weeks: int)
    requires 0 <= weekday < 7
    ensures (weekday + 7 * weeks) % 7 == weekday
  {
  }

  /** Every date without its year falls on every weekday, in a leap year and in a common one. */
  lemma EveryWeekday(leap: bool, month: int, day: int, weekday: int) returns (d: Date)
    requires IsMonth(month) && 1 <= day <= LengthIn(leap, month) && 0 <= weekday < 7
    ensures IsDate(d) && d.month == month && d.day == day && IsLeap(d.year) == leap && Weekday(d) == weekday
  {
    var start := if leap then 2000 else 2001;
    var first := YearStart(start) + DaysBefore(leap, month) + day;
    // Four years move a date by 5 weekdays, and 3 is the inverse of 5 modulo 7.
    var i := (weekday - first) * 3 % 7;
    FourYears(start, i);
    d := Date(start + 4 * i, month, day);
    assert Ordinal(d) == first + 1461 * i;
    var q := (weekday - first) * 3 / 7;
    assert i == (weekday - first) * 3 - 7 * q;
    WeekdayOf(weekday, 626 * (weekday - first) - 1461 * q);
  }

  lemma ReferenceMonday()
    ensures Ordinal(Date(2018, 12, 31)) == 737059 && Weekday(Date(2018, 12, 31)) == 1
  {
    DaysInYear(false);
  }

  // ---------------------------------------------------------------- the twelve months

  const CommonYear: seq<int> := [31, 28, 31, 30, 31, 30, 31, 31, 30, 31, 30, 31]

  const LeapYear: seq<int> := [31, 29, 31, 30, 31, 30, 31, 31, 30, 31, 30, 31]

  /** January to December, in every year. */
  lemma MonthLengthsAre(year: int, month: int)
    requires IsMonth(month)
    ensures MonthLength(year, month)
         == (if year % 400 == 0 || (year % 4 == 0 && year % 100 != 0) then LeapYear else CommonYear)[month - 1]
  {
  }

  /** After the last of a month comes the first of the next, and the other way round. */
  lemma MonthEnds(year: int, month: int)
    requires IsMonth(month)
    ensures var last := (if year % 400 == 0 || (year % 4 == 0 && year % 100 != 0) then LeapYear else CommonYear)[month - 1];
            var first := if month == 12 then Date(year + 1, 1, 1) else Date(year, month + 1, 1);
            && IsDate(Date(year, month, last)) && !IsDate(Date(year, month, last + 1))
            && NextDay(Date(year, month, last)) == first && PreviousDay(first) == Date(year, month, last)
  {
    MonthLengthsAre(year, month);
  }

  /** The day numbers of the first of each month and of the next first of January, in a common and in a leap year. */
  const Starts2023: seq<int> :=
    [738521, 738552, 738580, 738611, 738641, 738672, 738702, 738733, 738764, 738794, 738825, 738855, 738886]

  const Starts2024: seq<int> :=
    [738886, 738917, 738946, 738977, 739007, 739038, 739068, 739099, 739130, 739160, 739191, 739221, 739252]

  lemma MonthStartsAre(month: int)
    requires IsMonth(month)
    ensures Ordinal(Date(2023, month, 1)) == Starts2023[month - 1]
    ensures Ordinal(Date(2023, month, CommonYear[month - 1])) == Starts2023[month] - 1
    ensures Ordinal(Date(2024, month, 1)) == Starts2024[month - 1]
    ensures Ordinal(Date(2024, month, LeapYear[month - 1])) == Starts2024[month] - 1
  {
    NewYears();
    DaysBeforeAre(false, month);
    DaysBeforeAre(true, month);
    MonthLengthsAre(2023, month);
    MonthLengthsAre(2024, month);
    hide YearStart, DaysBefore, LengthIn;
  }

  lemma NewYears()
    ensures YearStart(2023) == 738520 && YearStart(2024) == 738885 && !IsLeap(2023) && IsLeap(2024)
  {
  }

  lemma {:induction false} DaysBeforeAre(leap: bool, month: int)
    requires IsMonth(month)
    ensures DaysBefore(leap, month)
         == (if leap then Starts2024[month - 1] - Starts2024[0] else Starts2023[month - 1] - Starts2023[0])
    decreases month
  {
    if month > 1 {
      DaysBeforeAre(leap, month - 1);
    }
  }

  /** Every number is the day number of a date. */
  lemma {:induction false} DateOf(n: int) returns (d: Date)
    ensures IsDate(d) && Ordinal(d) == n
    decreases if n >= 1 then n - 1 else 1 - n
  {
    if n == 1 {
      d := Date(1, 1, 1);
    } else if n > 1 {
      d := DateOf(n - 1);
      NextDayOrdinal(d);
      d := NextDay(d);
    } else {
      d := DateOf(n + 1);
      PreviousDayOrdinal(d);
      d := PreviousDay(d);
    }
  }
}
