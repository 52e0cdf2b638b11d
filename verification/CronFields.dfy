/** From the items of a cron expression's fields to the parsed schedule. */
module CronFields {
  import opened Results
  import opened Cron

  datatype Bounds = All | Single(value: int) | Between(first: int, last: int)

  type Step = n: int | n >= 1 witness 1

  /** One item of a field's list; `stepped` tells that a step was written. */
  datatype Item = Item(bounds: Bounds, step: Step, stepped: bool)

  /** What distinguishes the fields: their range, hour 24 and weekday 7, and two reading rules. */
  datatype Kind = Kind(low: int, high: int, normalize: int -> int, singleStepToMax: bool, fullRangeIsWildcard: bool)

  const MinuteKind := Kind(0, 59, (v: int) => v, true, true)

  const HourKind := Kind(0, 24, (v: int) => if v == 24 then 0 else v, true, true)

  const MonthKind := Kind(1, 12, (v: int) => v, true, true)

  const WeekdayKind := Kind(0, 7, (v: int) => if v == 7 then 0 else v, false, false)

  const FromStartKind := Kind(1, 31, (v: int) => v, true, true)

  /** Days counted from the end of the month. */
  const FromEndKind := Kind(-31, -1, (v: int) => v, true, false)

  predicate InKind(kind: Kind, v: int) {
    kind.low <= v <= kind.high
  }

  /** The range an item spans, or nothing when a bound is out of range. */
  function Span(kind: Kind, item: Item): Option<(int, int)> {
    match item.bounds
    case All => Some((kind.low, kind.high))
    case Single(value) =>
      if !InKind(kind, value) then None
      else if item.stepped && kind.singleStepToMax then Some((value, kind.high)) else Some((value, value))
    case Between(first, last) =>
      if InKind(kind, first) && InKind(kind, last) then Some((first, last)) else None
  }

  /** How far `v` lies after `start` on the way to `end`, which may wrap around at the top of the range. */
  function Place(kind: Kind, start: int, end: int, v: int): Option<int> {
    if start <= end then
      if start <= v <= end then Some(v - start) else None
    else if start <= v <= kind.high then
      Some(v - start)
    else if kind.low <= v <= end then
      Some(kind.high - start + 1 + v - kind.low)
    else
      None
  }

  /** An item selects every `step`-th value of its span. */
  predicate Selects(kind: Kind, item: Item, v: int) {
    var span := Span(kind, item);
    && span.Some? && InKind(kind, v)
    && var place := Place(kind, span.value.0, span.value.1, v);
       place.Some? && place.value % item.step == 0
  }

  ghost predicate Expands(kind: Kind, item: Item, v: int) {
    exists raw :: Selects(kind, item, raw) && kind.normalize(raw) == v
  }

  /** The loops over `range` that build an item's values. */
  method CyclicValues(kind: Kind, start: int, end: int, step: int) returns (values: set<int>)
    requires step > 0 && InKind(kind, start) && InKind(kind, end)
    ensures forall v :: v in values <==>
              exists raw :: InKind(kind, raw) && Place(kind, start, end, raw).Some?
                            && Place(kind, start, end, raw).value % step == 0 && kind.normalize(raw) == v
  {
    values := {};
    var index := 0;
    var raw := start;
    var top := if start <= end then end else kind.high;
    while raw <= top
      invariant start <= raw <= top + 1 && index == raw - start
      invariant forall v :: v in values <==>
                  exists r :: start <= r < raw && (r - start) % step == 0 && kind.normalize(r) == v
    {
      if index % step == 0 {
        values := values + {kind.normalize(raw)};
      }
      raw, index := raw + 1, index + 1;
    }
    ghost var upper := values;
    if start > end {
      raw := kind.low;
      while raw <= end
        invariant kind.low <= raw <= end + 1 && index == kind.high - start + 1 + raw - kind.low
        invariant forall v :: v in values <==>
                    v in upper
                    || exists r :: kind.low <= r < raw && (kind.high - start + 1 + r - kind.low) % step == 0
                                   && kind.normalize(r) == v
      {
        if index % step == 0 {
          values := values + {kind.normalize(raw)};
        }
        raw, index := raw + 1, index + 1;
      }
    }
  }

  function AllValues(kind: Kind): set<int> {
    set raw | kind.low <= raw <= kind.high :: kind.normalize(raw)
  }

  /** The item stands for the whole range, so that the field does not restrict anything. */
  predicate Whole(kind: Kind, item: Item) {
    && item.step == 1 && Span(kind, item) == Some((kind.low, kind.high))
    && (item.bounds.All? || kind.fullRangeIsWildcard)
  }

  method ExpandItem(kind: Kind, item: Item) returns (r: Option<(set<int>, bool)>)
    requires kind.low <= kind.high
    ensures r.None? <==> Span(kind, item).None?
    ensures r.Some? ==> forall v :: v in r.value.0 <==> Expands(kind, item, v)
    ensures r.Some? ==> (r.value.1 <==> Whole(kind, item)) && r.value.0 != {}
  {
    var span := Span(kind, item);
    if span.None? {
      return None;
    }
    var (start, end) := span.value;
    var full := item.bounds.All? || (kind.fullRangeIsWildcard && start == kind.low && end == kind.high);
    var values := CyclicValues(kind, start, end, item.step);
    forall v
      ensures v in values <==> Expands(kind, item, v)
    {
      forall raw
        ensures Selects(kind, item, raw) <==>
                  InKind(kind, raw) && Place(kind, start, end, raw).Some?
                  && Place(kind, start, end, raw).value % item.step == 0
      {
      }
    }
    if Whole(kind, item) {
      WholeSelectsAll(kind, item);
      hide AllValues, Expands;
      assert forall v :: v in values <==> v in AllValues(kind);
    }
    SomeValue(kind, item);
    r := Some((values, item.step == 1 && full && values == AllValues(kind)));
  }

  lemma WholeSelectsAll(kind: Kind, item: Item)
    requires Whole(kind, item)
    ensures forall v :: v in AllValues(kind) <==> Expands(kind, item, v)
  {
    forall v | v in AllValues(kind)
      ensures Expands(kind, item, v)
    {
      var raw :| kind.low <= raw <= kind.high && kind.normalize(raw) == v;
      assert Selects(kind, item, raw);
    }
  }

  /** Every item in range selects the first value of its span. */
  lemma SomeValue(kind: Kind, item: Item)
    requires kind.low <= kind.high && Span(kind, item).Some?
    ensures exists v :: Expands(kind, item, v)
  {
    var start := Span(kind, item).value.0;
    assert Selects(kind, item, start);
    assert Expands(kind, item, kind.normalize(start));
  }

  /** Which numbers each field takes: hour 24 is hour 0, weekday 7 is Sunday, and no field takes more. */
  lemma FieldNumbers(value: int)
    ensures var item := Item(Single(value), 1, false);
            && (Span(MinuteKind, item).Some? <==> 0 <= value <= 59)
            && (Span(HourKind, item).Some? <==> 0 <= value <= 24)
            && (Span(MonthKind, item).Some? <==> 1 <= value <= 12)
            && (Span(WeekdayKind, item).Some? <==> 0 <= value <= 7)
    ensures MinuteKind.normalize(value) == value && MonthKind.normalize(value) == value
    ensures HourKind.normalize(value) == (if value == 24 then 0 else value)
    ensures WeekdayKind.normalize(value) == (if value == 7 then 0 else value)
  {
  }

  /** A step after a single value runs to the end of the range, for weekdays it does not. */
  lemma SteppedSingle(value: int, step: Step, v: int)
    ensures var item := Item(Single(value), step, true);
            && (0 <= value <= 59 ==> (Expands(MinuteKind, item, v) <==> value <= v <= 59 && (v - value) % step == 0))
            && (1 <= value <= 12 ==> (Expands(MonthKind, item, v) <==> value <= v <= 12 && (v - value) % step == 0))
            && (0 <= value <= 6 ==> (Expands(WeekdayKind, item, v) <==> v == value))
  {
    if 0 <= value <= 59 {
      SteppedTo(MinuteKind, value, step, v);
    }
    if 1 <= value <= 12 {
      SteppedTo(MonthKind, value, step, v);
    }
    if 0 <= value <= 6 && v == value {
      assert Selects(WeekdayKind, Item(Single(value), step, true), v);
    }
  }

  lemma SteppedTo(kind: Kind, value: int, step: Step, v: int)
    requires kind.singleStepToMax && forall n :: kind.normalize(n) == n
    requires InKind(kind, value)
    ensures Expands(kind, Item(Single(value), step, true), v) <==> value <= v <= kind.high && (v - value) % step == 0
  {
    var item := Item(Single(value), step, true);
    forall raw
      ensures Selects(kind, item, raw) <==> value <= raw <= kind.high && (raw - value) % step == 0
    {
    }
    assert kind.normalize(v) == v;
    hide Selects;
    assert Selects(kind, item, v) ==> Expands(kind, item, v);
  }

  /** For hours that end is 24, which is midnight. */
  lemma SteppedHour(value: int, step: Step, v: int)
    requires 0 <= value <= 23
    ensures Expands(HourKind, Item(Single(value), step, true), v)
       <==> (value <= v <= 23 && (v - value) % step == 0) || (v == 0 && (24 - value) % step == 0)
  {
    var item := Item(Single(value), step, true);
    forall raw
      ensures Selects(HourKind, item, raw) <==> value <= raw <= 24 && (raw - value) % step == 0
    {
    }
    assert HourKind.normalize(v) == (if v == 24 then 0 else v) && HourKind.normalize(24) == 0;
    hide Selects;
    assert Selects(HourKind, item, v) && v != 24 ==> Expands(HourKind, item, v);
    assert Selects(HourKind, item, 24) ==> Expands(HourKind, item, 0);
  }

  /** A range that spells out all of a field restricts nothing, but one of weekdays does. */
  lemma SpelledOutRange()
    ensures Whole(MinuteKind, Item(Between(0, 59), 1, false)) && Whole(HourKind, Item(Between(0, 24), 1, false))
    ensures Whole(MonthKind, Item(Between(1, 12), 1, false)) && !Whole(WeekdayKind, Item(Between(0, 7), 1, false))
    ensures forall kind :: kind in {MinuteKind, HourKind, MonthKind, WeekdayKind} ==> Whole(kind, Item(All, 1, true))
  {
  }

  // ---------------------------------------------------------------- seconds, minutes, hours and months

  ghost predicate Holds(kind: Kind, items: seq<Item>, v: int) {
    exists i :: 0 <= i < |items| && Expands(kind, items[i], v)
  }

  predicate SomeWhole(kind: Kind, items: seq<Item>) {
    exists i :: 0 <= i < |items| && Whole(kind, items[i])
  }

  predicate Readable(kind: Kind, items: seq<Item>) {
    items != [] && forall i :: 0 <= i < |items| ==> Span(kind, items[i]).Some?
  }

  /** The field has the values its items select, and is a wildcard if one of them is the whole range. */
  ghost predicate IsFieldOf(kind: Kind, items: seq<Item>, f: Field) {
    && f.values != {} && (f.wildcard <==> SomeWhole(kind, items))
    && forall v :: v in f.values <==> Holds(kind, items, v)
  }

  /** The items determine the field. */
  lemma FieldIsUnique(kind: Kind, items: seq<Item>, a: Field, b: Field)
    requires IsFieldOf(kind, items, a) && IsFieldOf(kind, items, b)
    ensures a == b
  {
    hide Holds, SomeWhole;
    assert forall v :: v in a.values <==> v in b.values;
  }

  method CollectItems(kind: Kind, items: seq<Item>) returns (r: Option<(set<int>, bool)>)
    requires kind.low <= kind.high
    ensures r.Some? <==> forall i :: 0 <= i < |items| ==> Span(kind, items[i]).Some?
    ensures r.Some? ==> forall v :: v in r.value.0 <==> Holds(kind, items, v)
    ensures r.Some? ==> (r.value.1 <==> SomeWhole(kind, items))
    ensures r.Some? && items != [] ==> r.value.0 != {}
  {
    hide Expands, Whole, Span;
    var values: set<int> := {};
    var wildcard := false;
    for i := 0 to |items|
      invariant forall k :: 0 <= k < i ==> Span(kind, items[k]).Some?
      invariant i > 0 ==> values != {}
      invariant forall v :: v in values <==> exists k :: 0 <= k < i && Expands(kind, items[k], v)
      invariant wildcard <==> exists k :: 0 <= k < i && Whole(kind, items[k])
    {
      var item := ExpandItem(kind, items[i]);
      if item.None? {
        return None;
      }
      values := values + item.value.0;
      wildcard := wildcard || item.value.1;
    }
    r := Some((values, wildcard));
  }

  method ParseField(kind: Kind, items: seq<Item>) returns (r: Option<Field>)
    requires kind.low <= kind.high
    ensures r.Some? <==> Readable(kind, items)
    ensures r.Some? ==> IsFieldOf(kind, items, r.value)
  {
    var collected := CollectItems(kind, items);
    if items == [] || collected.None? {
      return None;
    }
    var (values, wildcard) := collected.value;
    if wildcard {
      WildcardHoldsAll(kind, items);
      hide Holds, AllValues, SomeWhole;
      assert forall v :: v in AllValues(kind) <==> v in values;
      values := AllValues(kind);
    }
    r := Some(Field(values, wildcard));
  }

  lemma WildcardHoldsAll(kind: Kind, items: seq<Item>)
    requires SomeWhole(kind, items)
    ensures forall v :: v in AllValues(kind) <==> Holds(kind, items, v)
  {
    var k :| 0 <= k < |items| && Whole(kind, items[k]);
    WholeSelectsAll(kind, items[k]);
    HeldInKind(kind, items);
    hide AllValues, Expands;
  }

  lemma HeldInKind(kind: Kind, items: seq<Item>)
    ensures forall v :: Holds(kind, items, v) ==> v in AllValues(kind)
  {
    forall v | Holds(kind, items, v)
      ensures v in AllValues(kind)
    {
      var k :| 0 <= k < |items| && Expands(kind, items[k], v);
      var raw :| Selects(kind, items[k], raw) && kind.normalize(raw) == v;
    }
  }

  lemma KindValues()
    ensures forall v :: v in AllValues(MinuteKind) <==> 0 <= v <= 59
    ensures forall v :: v in AllValues(HourKind) <==> 0 <= v <= 23
    ensures forall v :: v in AllValues(MonthKind) <==> 1 <= v <= 12
    ensures forall v :: v in AllValues(WeekdayKind) <==> 0 <= v <= 6
    ensures forall v :: v in AllValues(FromStartKind) <==> 1 <= v <= 31
  {
    forall v
      ensures 0 <= v <= 59 ==> v in AllValues(MinuteKind)
      ensures 0 <= v <= 23 ==> v in AllValues(HourKind)
      ensures 1 <= v <= 12 ==> v in AllValues(MonthKind)
      ensures 0 <= v <= 6 ==> v in AllValues(WeekdayKind)
      ensures 1 <= v <= 31 ==> v in AllValues(FromStartKind)
    {
      assert v != 24 ==> HourKind.normalize(v) == v;
      assert v != 7 ==> WeekdayKind.normalize(v) == v;
      assert MinuteKind.normalize(v) == v && MonthKind.normalize(v) == v && FromStartKind.normalize(v) == v;
    }
  }

  /** Parsed minutes, hours and months are in range, as matching and searching assume. */
  lemma ParsedFieldsInRange(kind: Kind, items: seq<Item>, f: Field)
    requires IsFieldOf(kind, items, f)
    ensures kind == MinuteKind ==> InRange(f, 0, 59)
    ensures kind == HourKind ==> InRange(f, 0, 23)
    ensures kind == MonthKind ==> InRange(f, 1, 12)
  {
    KindValues();
    HeldInKind(kind, items);
    if f.wildcard {
      WildcardHoldsAll(kind, items);
    }
  }

  // ---------------------------------------------------------------- days of the month

  /**
   Days count from the start of the month or from its end, as the first bound says; a range from the start that
   runs to a day from the end covers the rest of the month, the reverse is refused.
   */
  function DayItem(item: Item): (r: Option<(Kind, Item)>)
    ensures r.Some? ==> Span(r.value.0, r.value.1).Some?
    ensures r.Some? ==> r.value.0 == FromStartKind || r.value.0 == FromEndKind
  {
    match item.bounds
    case All => Some((FromStartKind, item))
    case Single(value) =>
      if InKind(FromStartKind, value) then Some((FromStartKind, item))
      else if InKind(FromEndKind, value) then Some((FromEndKind, item))
      else None
    case Between(first, last) =>
      if !InKind(FromStartKind, last) && !InKind(FromEndKind, last) then None
      else if InKind(FromStartKind, first) then
        Some((FromStartKind, item.(bounds := Between(first, if last < 0 then 31 else last))))
      else if InKind(FromEndKind, first) && last < 0 then Some((FromEndKind, item))
      else None
  }

  ghost predicate SelectsDay(item: Item, v: int) {
    DayItem(item).Some? && Expands(DayItem(item).value.0, DayItem(item).value.1, v)
  }

  predicate WholeMonth(item: Item) {
    DayItem(item).Some? && Whole(DayItem(item).value.0, DayItem(item).value.1)
  }

  predicate ReadableDays(items: seq<Item>) {
    items != [] && forall i :: 0 <= i < |items| ==> DayItem(items[i]).Some?
  }

  ghost predicate HoldsDay(items: seq<Item>, v: int) {
    exists i :: 0 <= i < |items| && SelectsDay(items[i], v)
  }

  /** A wildcard drops the days from the end that other items select. */
  ghost predicate AreDaysOf(items: seq<Item>, f: Field) {
    && f.values != {} && (forall v :: v in f.values ==> v != 0 && -31 <= v <= 31)
    && (f.wildcard <==> exists i :: 0 <= i < |items| && WholeMonth(items[i]))
    && (f.wildcard ==> forall v :: v in f.values <==> 1 <= v <= 31)
    && (!f.wildcard ==> forall v :: v in f.values <==> HoldsDay(items, v))
  }

  lemma DaysAreUnique(items: seq<Item>, a: Field, b: Field)
    requires AreDaysOf(items, a) && AreDaysOf(items, b)
    ensures a == b
  {
    hide HoldsDay, WholeMonth;
    assert forall v :: v in a.values <==> v in b.values;
  }

  lemma DaysInRange(item: Item, v: int)
    requires SelectsDay(item, v)
    ensures v != 0 && -31 <= v <= 31
  {
  }

  /** Steps after a day run to the last day, from the start or from the end; ranges as their bounds say. */
  lemma DayItemMeans(first: int, last: int, step: Step, v: int)
    requires (1 <= first <= 31 || -31 <= first <= -1) && (1 <= last <= 31 || -31 <= last <= -1)
    ensures SelectsDay(Item(Single(first), step, true), v)
       <==> first <= v <= (if first > 0 then 31 else -1) && (v - first) % step == 0
    ensures DayItem(Item(Between(first, last), step, true)).None? <==> first < 0 && last > 0
    ensures first < 0 && last < 0 && first <= last ==>
              (SelectsDay(Item(Between(first, last), step, true), v) <==> first <= v <= last && (v - first) % step == 0)
    ensures first > 0 && (last < 0 || first <= last) ==>
              (SelectsDay(Item(Between(first, last), step, true), v)
               <==> first <= v <= (if last < 0 then 31 else last) && (v - first) % step == 0)
  {
    var kind := if first > 0 then FromStartKind else FromEndKind;
    SteppedTo(kind, first, step, v);
    if (first < 0 && last < 0 && first <= last) || (first > 0 && (last < 0 || first <= last)) {
      RangeTo(kind, first, if first > 0 && last < 0 then 31 else last, step, v);
    }
    hide Expands, SelectsDay;
    assert forall item :: DayItem(item).Some? ==>
             (SelectsDay(item, v) <==> Expands(DayItem(item).value.0, DayItem(item).value.1, v)) by {
      SelectsDayIs(v);
    }
  }

  lemma SelectsDayIs(v: int)
    ensures forall item :: DayItem(item).Some? ==>
              (SelectsDay(item, v) <==> Expands(DayItem(item).value.0, DayItem(item).value.1, v))
  {
  }

  lemma RangeTo(kind: Kind, first: int, last: int, step: Step, v: int)
    requires InKind(kind, first) && InKind(kind, last) && first <= last && forall n :: kind.normalize(n) == n
    ensures Expands(kind, Item(Between(first, last), step, true), v) <==> first <= v <= last && (v - first) % step == 0
  {
    var item := Item(Between(first, last), step, true);
    forall raw
      ensures Selects(kind, item, raw) <==> first <= raw <= last && (raw - first) % step == 0
    {
    }
    assert kind.normalize(v) == v;
    hide Selects;
    assert Selects(kind, item, v) ==> Expands(kind, item, v);
  }

  method ExpandMonthDay(item: Item) returns (r: Option<(set<int>, bool)>)
    ensures r.None? <==> DayItem(item).None?
    ensures r.Some? ==> r.value.0 != {} && forall v :: v in r.value.0 <==> SelectsDay(item, v)
    ensures r.Some? ==> (r.value.1 <==> WholeMonth(item))
  {
    var day := DayItem(item);
    if day.None? {
      return None;
    }
    r := ExpandItem(day.value.0, day.value.1);
  }

  method CollectMonthDays(items: seq<Item>) returns (r: Option<(set<int>, bool)>)
    ensures r.Some? <==> forall i :: 0 <= i < |items| ==> DayItem(items[i]).Some?
    ensures r.Some? ==> forall v :: v in r.value.0 <==> HoldsDay(items, v)
    ensures r.Some? ==> (r.value.1 <==> exists i :: 0 <= i < |items| && WholeMonth(items[i]))
    ensures r.Some? && items != [] ==> r.value.0 != {}
  {
    hide DayItem, SelectsDay, WholeMonth;
    var values: set<int> := {};
    var wildcard := false;
    for i := 0 to |items|
      invariant forall k :: 0 <= k < i ==> DayItem(items[k]).Some?
      invariant i > 0 ==> values != {}
      invariant forall v :: v in values <==> exists k :: 0 <= k < i && SelectsDay(items[k], v)
      invariant wildcard <==> exists k :: 0 <= k < i && WholeMonth(items[k])
    {
      var item := ExpandMonthDay(items[i]);
      if item.None? {
        return None;
      }
      values := values + item.value.0;
      wildcard := wildcard || item.value.1;
    }
    r := Some((values, wildcard));
  }

  lemma HeldDaysInRange(items: seq<Item>, v: int)
    requires HoldsDay(items, v)
    ensures v != 0 && -31 <= v <= 31
  {
    var k :| 0 <= k < |items| && SelectsDay(items[k], v);
    DaysInRange(items[k], v);
  }

  method ParseMonthDays(items: seq<Item>) returns (r: Option<Field>)
    ensures r.Some? <==> ReadableDays(items)
    ensures r.Some? ==> AreDaysOf(items, r.value)
  {
    hide DayItem, SelectsDay, WholeMonth, HoldsDay, AllValues;
    var collected := CollectMonthDays(items);
    if items == [] || collected.None? {
      return None;
    }
    var (values, wildcard) := collected.value;
    forall v | v in values
      ensures v != 0 && -31 <= v <= 31
    {
      HeldDaysInRange(items, v);
    }
    if wildcard {
      KindValues();
      values := AllValues(FromStartKind);
      assert 1 in values;
    }
    r := Some(Field(values, wildcard));
  }

  // ---------------------------------------------------------------- days of the week

  /** A plain item, or a weekday with `#` and an occurrence or `%` and a divisor. */
  datatype WeekdayItem =
    | Plain(item: Item)
    | Hash(day: int, nth: int)
    | Modulo(day: int, divisor: int, offset: int)

  predicate ReadableWeekday(item: WeekdayItem) {
    match item
    case Plain(plain) => Span(WeekdayKind, plain).Some?
    case Hash(day, nth) => InKind(WeekdayKind, day) && nth != 0 && -5 <= nth <= 5
    case Modulo(day, divisor, _) => InKind(WeekdayKind, day) && divisor > 0
  }

  ghost predicate Specifies(item: WeekdayItem, spec: WeekdaySpec) {
    match item
    case Plain(plain) => spec == WeekdaySpec(spec.day, None, None) && Expands(WeekdayKind, plain, spec.day)
    case Hash(day, nth) => spec == WeekdaySpec(WeekdayKind.normalize(day), Some(nth), None)
    case Modulo(day, divisor, offset) => spec == WeekdaySpec(WeekdayKind.normalize(day), None, Some((divisor, offset)))
  }

  /** Occurrences run from the first to the fifth, from either end; weeks repeat after one or more. */
  lemma WeekdayItemsRead(day: int, n: int, offset: int)
    ensures ReadableWeekday(Hash(day, n)) <==> 0 <= day <= 7 && (1 <= n <= 5 || -5 <= n <= -1)
    ensures ReadableWeekday(Modulo(day, n, offset)) <==> 0 <= day <= 7 && n >= 1
    ensures forall spec :: Specifies(Hash(day, n), spec) <==>
              spec == WeekdaySpec(if day == 7 then 0 else day, Some(n), None)
    ensures forall spec :: Specifies(Modulo(day, n, offset), spec) <==>
              spec == WeekdaySpec(if day == 7 then 0 else day, None, Some((n, offset)))
  {
  }

  predicate WholeWeek(item: WeekdayItem) {
    item.Plain? && Whole(WeekdayKind, item.item)
  }

  predicate ReadableWeek(items: seq<WeekdayItem>) {
    items != [] && forall i :: 0 <= i < |items| ==> ReadableWeekday(items[i])
  }

  ghost predicate AreWeekdaysOf(items: seq<WeekdayItem>, f: WeekdayField) {
    && (f.wildcard <==> exists i :: 0 <= i < |items| && WholeWeek(items[i]))
    && (f.wildcard ==> f.specs == [])
    && (!f.wildcard ==> f.specs != []
                        && forall spec :: spec in f.specs <==> exists i :: 0 <= i < |items| && Specifies(items[i], spec))
  }

  lemma WeekdaysAreUnique(items: seq<WeekdayItem>, a: WeekdayField, b: WeekdayField)
    requires AreWeekdaysOf(items, a) && AreWeekdaysOf(items, b)
    ensures a.wildcard == b.wildcard && forall spec :: spec in a.specs <==> spec in b.specs
  {
    hide Specifies, WholeWeek;
  }

  lemma SpecifiedIsWellFormed(item: WeekdayItem, spec: WeekdaySpec)
    requires ReadableWeekday(item) && Specifies(item, spec)
    ensures WellFormedSpec(spec)
  {
    KindValues();
    if item.Plain? {
      var raw :| Selects(WeekdayKind, item.item, raw) && WeekdayKind.normalize(raw) == spec.day;
    }
  }

  /** The specifications one item adds. */
  method ExpandWeekday(item: WeekdayItem) returns (specs: seq<WeekdaySpec>)
    requires ReadableWeekday(item)
    ensures specs != [] && forall spec :: spec in specs <==> Specifies(item, spec)
  {
    match item
    case Hash(day, nth) => specs := [WeekdaySpec(WeekdayKind.normalize(day), Some(nth), None)];
    case Modulo(day, divisor, offset) => specs := [WeekdaySpec(WeekdayKind.normalize(day), None, Some((divisor, offset)))];
    case Plain(plain) =>
      var expanded := ExpandItem(WeekdayKind, plain);
      var values := expanded.value.0;
      SomeValue(WeekdayKind, plain);
      HeldInKind(WeekdayKind, [plain]);
      KindValues();
      specs := [];
      for day := 0 to 7
        invariant forall spec :: spec in specs <==>
                    spec == WeekdaySpec(spec.day, None, None) && 0 <= spec.day < day && spec.day in values
      {
        if day in values {
          specs := specs + [WeekdaySpec(day, None, None)];
        }
      }
      ghost var v :| Expands(WeekdayKind, plain, v);
      assert forall day :: day in values ==> 0 <= day < 7 by {
        assert forall day :: day in values ==> Expands(WeekdayKind, [plain][0], day);
      }
      assert WeekdaySpec(v, None, None) in specs;
  }

  method ParseWeekdays(items: seq<WeekdayItem>) returns (r: Option<WeekdayField>)
    ensures r.Some? <==> ReadableWeek(items)
    ensures r.Some? ==> AreWeekdaysOf(items, r.value)
  {
    if items == [] {
      return None;
    }
    var specs: seq<WeekdaySpec> := [];
    var wildcard := false;
    for i := 0 to |items|
      invariant forall k :: 0 <= k < i ==> ReadableWeekday(items[k])
      invariant i > 0 && !wildcard ==> specs != []
      invariant wildcard <==> exists k :: 0 <= k < i && WholeWeek(items[k])
      invariant !wildcard ==> forall spec :: spec in specs <==> exists k :: 0 <= k < i && Specifies(items[k], spec)
    {
      if !ReadableWeekday(items[i]) {
        return None;
      }
      if WholeWeek(items[i]) {
        wildcard := true;
      } else {
        var more := ExpandWeekday(items[i]);
        specs := specs + more;
      }
    }
    r := Some(if wildcard then WeekdayField([], true) else WeekdayField(specs, false));
  }

  // ---------------------------------------------------------------- a schedule

  /** The items of the fields; without seconds the schedule runs at second 0. */
  datatype Fields = Fields(
    seconds: Option<seq<Item>>,
    minutes: seq<Item>,
    hours: seq<Item>,
    dayOfMonth: seq<Item>,
    months: seq<Item>,
    dayOfWeek: seq<WeekdayItem>,
    dayAnd: bool
  )

  predicate ReadableFields(f: Fields) {
    && (f.seconds.Some? ==> Readable(MinuteKind, f.seconds.value))
    && Readable(MinuteKind, f.minutes) && Readable(HourKind, f.hours) && Readable(MonthKind, f.months)
    && ReadableDays(f.dayOfMonth) && ReadableWeek(f.dayOfWeek)
  }

  /** Days of month are restricted alone or jointly, and none of them is in any of the months. */
  ghost predicate Impossible(f: Fields) {
    && (forall i :: 0 <= i < |f.dayOfMonth| ==> !WholeMonth(f.dayOfMonth[i]))
    && (f.dayAnd || exists i :: 0 <= i < |f.dayOfWeek| && WholeWeek(f.dayOfWeek[i]))
    && forall month, v :: Holds(MonthKind, f.months, month) && HoldsDay(f.dayOfMonth, v) ==> !CanMatchIn2024(v, month)
  }

  /** The schedule's fields are those its items stand for. */
  ghost predicate IsScheduleOf(f: Fields, s: Schedule) {
    && (if f.seconds.Some? then IsFieldOf(MinuteKind, f.seconds.value, s.seconds) else s.seconds == Field({0}, false))
    && IsFieldOf(MinuteKind, f.minutes, s.minutes) && IsFieldOf(HourKind, f.hours, s.hours)
    && IsFieldOf(MonthKind, f.months, s.months)
    && AreDaysOf(f.dayOfMonth, s.dayOfMonth) && AreWeekdaysOf(f.dayOfWeek, s.dayOfWeek)
    && s.dayAnd == f.dayAnd
  }

  lemma ScheduleIsWellFormed(f: Fields, s: Schedule)
    requires ReadableFields(f) && IsScheduleOf(f, s)
    ensures WellFormed(s)
  {
    if f.seconds.Some? {
      ParsedFieldsInRange(MinuteKind, f.seconds.value, s.seconds);
    }
    ParsedFieldsInRange(MinuteKind, f.minutes, s.minutes);
    ParsedFieldsInRange(HourKind, f.hours, s.hours);
    ParsedFieldsInRange(MonthKind, f.months, s.months);
    hide IsFieldOf;
    forall i | 0 <= i < |s.dayOfWeek.specs|
      ensures WellFormedSpec(s.dayOfWeek.specs[i])
    {
      var spec := s.dayOfWeek.specs[i];
      assert spec in s.dayOfWeek.specs;
      var k :| 0 <= k < |f.dayOfWeek| && Specifies(f.dayOfWeek[k], spec);
      SpecifiedIsWellFormed(f.dayOfWeek[k], spec);
    }
  }

  lemma PossibleIffNotImpossible(f: Fields, s: Schedule)
    requires IsScheduleOf(f, s)
    ensures PossibleDayOfMonth(s) <==> !Impossible(f)
  {
    hide Holds, HoldsDay, WholeMonth, WholeWeek, CanMatchIn2024;
  }

  /**
   The parser refuses exactly what has an unreadable item and what its check calls impossible; everything it
   accepts is well formed, with the fields the items stand for.
   */
  method ParseSchedule(f: Fields) returns (r: Option<Schedule>)
    ensures r.Some? <==> ReadableFields(f) && !Impossible(f)
    ensures r.Some? ==> IsScheduleOf(f, r.value) && Accepted(r.value)
  {
    hide Impossible, IsFieldOf, AreDaysOf, AreWeekdaysOf, Readable, ReadableDays, ReadableWeek;
    var seconds := Some(Field({0}, false));
    if f.seconds.Some? {
      seconds := ParseField(MinuteKind, f.seconds.value);
    }
    var minutes := ParseField(MinuteKind, f.minutes);
    var hours := ParseField(HourKind, f.hours);
    var dayOfMonth := ParseMonthDays(f.dayOfMonth);
    var months := ParseField(MonthKind, f.months);
    var dayOfWeek := ParseWeekdays(f.dayOfWeek);
    if seconds.None? || minutes.None? || hours.None? || dayOfMonth.None? || months.None? || dayOfWeek.None? {
      return None;
    }
    var s := Schedule(seconds.value, minutes.value, hours.value, dayOfMonth.value, months.value, dayOfWeek.value, f.dayAnd);
    ScheduleIsWellFormed(f, s);
    PossibleIffNotImpossible(f, s);
    r := if PossibleDayOfMonth(s) then Some(s) else None;
  }

  /** The items of `0 0 1& 1 1#2`. */
  function NeverMatchingFields(): Fields {
    Fields(None, [Item(Single(0), 1, false)], [Item(Single(0), 1, false)], [Item(Single(1), 1, false)],
           [Item(Single(1), 1, false)], [Hash(1, 2)], true)
  }

  lemma SingleItem(kind: Kind, value: int)
    requires InKind(kind, value) && kind.normalize(value) == value && kind.low < kind.high
    ensures var items := [Item(Single(value), 1, false)];
            Readable(kind, items) && !SomeWhole(kind, items) && IsFieldOf(kind, items, Field({value}, false))
            && forall v :: Holds(kind, items, v) <==> v == value
  {
    var items := [Item(Single(value), 1, false)];
    assert Selects(kind, items[0], value);
    assert Expands(kind, items[0], value);
  }

  lemma FirstDayItems()
    ensures var items := [Item(Single(1), 1, false)];
            ReadableDays(items) && AreDaysOf(items, Field({1}, false))
  {
    var items := [Item(Single(1), 1, false)];
    SingleItem(FromStartKind, 1);
    assert DayItem(items[0]) == Some((FromStartKind, items[0]));
    hide DayItem;
    assert !WholeMonth(items[0]) by {
      assert !SomeWhole(FromStartKind, items);
    }
    forall v
      ensures HoldsDay(items, v) <==> v == 1
    {
      assert HoldsDay(items, v) <==> SelectsDay(items[0], v);
      assert Holds(FromStartKind, items, v) <==> Expands(FromStartKind, items[0], v);
    }
  }

  lemma SecondMondayItems()
    ensures ReadableWeek([Hash(1, 2)])
            && AreWeekdaysOf([Hash(1, 2)], WeekdayField([WeekdaySpec(1, Some(2), None)], false))
  {
    var (items, spec) := ([Hash(1, 2)], WeekdaySpec(1, Some(2), None));
    assert Specifies(items[0], spec);
    assert forall other :: Specifies(items[0], other) <==> other == spec;
  }

  /** The parser accepts it and makes of it a schedule that never matches. */
  lemma NeverMatchingIsParsed()
    ensures var f := NeverMatchingFields();
            ReadableFields(f) && !Impossible(f) && IsScheduleOf(f, NeverMatching())
  {
    hide IsFieldOf, AreDaysOf, AreWeekdaysOf, Readable, ReadableDays, ReadableWeek, Impossible, Holds, SomeWhole;
    hide PossibleDayOfMonth, WellFormed, HasMatchingDay, WithoutModulo;
    SingleItem(MinuteKind, 0);
    SingleItem(HourKind, 0);
    SingleItem(MonthKind, 1);
    FirstDayItems();
    SecondMondayItems();
    ConjunctionCanNeverMatch();
    PossibleIffNotImpossible(NeverMatchingFields(), NeverMatching());
  }

  /** The items of `0 0 * * *`. */
  function EveryMidnightFields(): Fields {
    Fields(None, [Item(Single(0), 1, false)], [Item(Single(0), 1, false)], [Item(All, 1, false)],
           [Item(All, 1, false)], [Plain(Item(All, 1, false))], false)
  }

  /** The items of `0 0 1 * *`. */
  function FirstOfMonthFields(): Fields {
    EveryMidnightFields().(dayOfMonth := [Item(Single(1), 1, false)])
  }

  lemma AllItem(kind: Kind)
    requires kind.low <= kind.high
    ensures var items := [Item(All, 1, false)];
            && Readable(kind, items) && SomeWhole(kind, items)
            && forall v :: Holds(kind, items, v) <==> v in AllValues(kind)
  {
    var items := [Item(All, 1, false)];
    assert Whole(kind, items[0]);
    WildcardHoldsAll(kind, items);
  }

  lemma EveryMonthItems()
    ensures Readable(MonthKind, [Item(All, 1, false)]) && IsFieldOf(MonthKind, [Item(All, 1, false)], Field(EveryMonth, true))
  {
    AllItem(MonthKind);
    KindValues();
    hide Holds, SomeWhole, Readable, AllValues;
    assert 1 in EveryMonth;
  }

  lemma EveryDayItems()
    ensures ReadableDays([Item(All, 1, false)]) && AreDaysOf([Item(All, 1, false)], Field(EveryDay, true))
  {
    var items := [Item(All, 1, false)];
    assert DayItem(items[0]) == Some((FromStartKind, items[0]));
    assert WholeMonth(items[0]);
    assert 1 in EveryDay;
  }

  lemma EveryWeekdayItems()
    ensures ReadableWeek([Plain(Item(All, 1, false))])
            && AreWeekdaysOf([Plain(Item(All, 1, false))], WeekdayField([], true))
  {
    assert WholeWeek([Plain(Item(All, 1, false))][0]);
  }

  /** The parser accepts both and makes of them the daily and the monthly schedule. */
  lemma MidnightsAreParsed()
    ensures var f := EveryMidnightFields();
            ReadableFields(f) && !Impossible(f) && IsScheduleOf(f, EveryMidnight())
    ensures var f := FirstOfMonthFields();
            ReadableFields(f) && !Impossible(f) && IsScheduleOf(f, FirstOfMonth())
  {
    hide IsFieldOf, AreDaysOf, AreWeekdaysOf, Readable, ReadableDays, ReadableWeek, Impossible, Holds, SomeWhole;
    SingleItem(MinuteKind, 0);
    SingleItem(HourKind, 0);
    EveryMonthItems();
    EveryDayItems();
    FirstDayItems();
    EveryWeekdayItems();
    assert PossibleDayOfMonth(EveryMidnight());
    assert PossibleDayOfMonth(FirstOfMonth()) by {
      assert CanMatchIn2024(1, 1) && 1 in EveryMonth && 1 in FirstOfMonth().dayOfMonth.values;
    }
    hide PossibleDayOfMonth;
    PossibleIffNotImpossible(EveryMidnightFields(), EveryMidnight());
    PossibleIffNotImpossible(FirstOfMonthFields(), FirstOfMonth());
  }
}
