/**
 Times of day in natural-language schedules: slots of hours and minutes are merged while one of them
 is graded, then grouped by their hours, one cron expression for each group.
 */
module NaturalTimes {
  import opened Results
  import opened Calendar
  import opened Cron
  import opened CronSearch
  import CronFields

  /** The values a field is written with. */
  datatype Token = Every | Number(n: int) | Range(start: int, end: int) | EveryNth(step: CronFields.Step)

  datatype Data = Absent | Star | One(token: Token) | Many(tokens: seq<Token>)

  /** Which part of a slot yields to, or overrides, another: the hours, the minutes or both. */
  datatype Grade = Ungraded | OfHours | OfMinutes | OfBoth {
    /** A grade of the hours alone is the number zero and counts as absent. */
    predicate Truthy() {
      OfMinutes? || OfBoth?
    }

    predicate Covers(hours: bool) {
      OfBoth? || (if hours then OfHours? else OfMinutes?)
    }
  }

  datatype Slot = Slot(hours: Data, minutes: Data, weak: Grade, strong: Grade) {
    predicate Graded() {
      weak.Truthy() || strong.Truthy()
    }
  }

  function Values(data: Data): seq<Token> {
    match data
    case Absent => []
    case Star => [Every]
    case One(token) => [token]
    case Many(tokens) => tokens
  }

  // ---------------------------------------------------------------- merging

  /** A range of whole hours gives up its last hour. */
  function HourRange(slot: Slot): Option<Data> {
    if slot.minutes == One(Number(0)) && slot.hours.One? && slot.hours.token.Range? then
      var (start, end) := (slot.hours.token.start, slot.hours.token.end - 1);
      Some(One(if start == end then Number(start) else Range(start, end)))
    else
      None
  }

  function Conflate(a: Slot, b: Slot, hours: bool): Data {
    var (left, right) := if hours then (a.hours, b.hours) else (a.minutes, b.minutes);
    if right.Absent? then left
    else if left.Absent? then right
    else if hours && b.strong.Covers(false) && HourRange(a).Some? then HourRange(a).value
    else if hours && a.strong.Covers(false) && HourRange(b).Some? then HourRange(b).value
    else if a.strong.Covers(hours) then left
    else if b.strong.Covers(hours) then right
    else if b.weak.Covers(hours) then left
    else if a.weak.Covers(hours) then right
    else if left.Star? && right.Star? then Star
    else Many((if left.Star? then [] else Values(left)) + (if right.Star? then [] else Values(right)))
  }

  /** The grade is of this part of a slot, or of the whole slot. */
  predicate Grades(grade: Grade, hours: bool) {
    grade == OfBoth || grade == if hours then OfHours else OfMinutes
  }

  /** A range of whole hours, and the hours that are left of it when the other slot's minutes are repeated through it. */
  predicate Shortens(range: Slot, other: Slot, r: Data) {
    && MayShorten(range, other)
    && r == One(if range.hours.token.start == range.hours.token.end - 1 then Number(range.hours.token.start)
                else Range(range.hours.token.start, range.hours.token.end - 1))
  }

  predicate MayShorten(range: Slot, other: Slot) {
    Grades(other.strong, false) && range.minutes == One(Number(0)) && range.hours.One? && range.hours.token.Range?
  }

  /**
   Of two parts the only one there is stays, then a range of whole hours is shortened by repeated minutes, then the
   strong one stays, then the one that is not weak, and otherwise both do; `*` stays only beside `*`.
   */
  lemma ConflateDecides(a: Slot, b: Slot, hours: bool)
    ensures var (left, right) := if hours then (a.hours, b.hours) else (a.minutes, b.minutes);
            var r := Conflate(a, b, hours);
            if left.Absent? || right.Absent? then r == (if left.Absent? then right else left)
            else if hours && (MayShorten(a, b) || MayShorten(b, a)) then
              if MayShorten(a, b) then Shortens(a, b, r) else Shortens(b, a, r)
            else if Grades(a.strong, hours) || Grades(b.strong, hours) then r == (if Grades(a.strong, hours) then left else right)
            else if Grades(a.weak, hours) || Grades(b.weak, hours) then r == (if Grades(b.weak, hours) then left else right)
            else if left.Star? && right.Star? then r == Star
            else forall token :: token in Values(r) <==>
                   (!left.Star? && token in Values(left)) || (!right.Star? && token in Values(right))
  {
  }

  /** The hours are conflated first, and the minutes see the result. */
  function Append(a: Slot, b: Slot): Slot {
    var merged := a.(hours := Conflate(a, b, true));
    Slot(merged.hours, Conflate(merged, b, false), Ungraded, Ungraded)
  }

  method FirstGraded(hms: seq<Slot>) returns (index: Option<nat>)
    ensures index.None? <==> forall i :: 0 <= i < |hms| ==> !hms[i].Graded()
    ensures index.Some? ==> index.value < |hms| && hms[index.value].Graded()
    ensures index.Some? ==> forall i :: 0 <= i < index.value ==> !hms[i].Graded()
  {
    for i := 0 to |hms|
      invariant forall k :: 0 <= k < i ==> !hms[k].Graded()
    {
      if hms[i].Graded() {
        return Some(i);
      }
    }
    index := None;
  }

  /** The loop: the first graded slot swallows a neighbour until no slot is graded or one is left. */
  method MergeGraded(slots: seq<Slot>) returns (hms: seq<Slot>)
    ensures hms == Merged(slots)
    ensures |hms| <= 1 || forall i :: 0 <= i < |hms| ==> !hms[i].Graded()
  {
    hms := slots;
    while |hms| > 1
      invariant Merged(hms) == Merged(slots)
      decreases |hms|
    {
      var graded := FirstGraded(hms);
      if graded.None? {
        break;
      }
      var index := graded.value;
      MergedStep(hms, index);
      var other := if index == 0 then 1 else index - 1;
      var merged := Append(hms[index], hms[other]);
      hms := hms[index := merged];
      hms := hms[..other] + hms[other + 1..];
    }
    MergedUngraded(hms);
  }

  // ---------------------------------------------------------------- what merging yields

  /** One pass from left to right: a graded slot joins the time before it, any other begins a time. */
  function Joined(times: seq<Slot>, rest: seq<Slot>): (r: seq<Slot>)
    ensures |times| <= |r| <= |times| + |rest|
    decreases |rest|
  {
    if rest == [] then times
    else if rest[0].Graded() && times != [] then
      Joined(times[..|times| - 1] + [Append(rest[0], times[|times| - 1])], rest[1..])
    else Joined(times + [rest[0]], rest[1..])
  }

  /** A graded slot at the very start has no time before it and takes the next slot instead. */
  function Merged(slots: seq<Slot>): seq<Slot> {
    if |slots| > 1 && slots[0].Graded() then Joined([Append(slots[0], slots[1])], slots[2..])
    else Joined([], slots)
  }

  lemma {:induction false} JoinedUngraded(times: seq<Slot>, rest: seq<Slot>, n: nat)
    requires n <= |rest| && forall i :: 0 <= i < n ==> !rest[i].Graded()
    ensures Joined(times, rest) == Joined(times + rest[..n], rest[n..])
    decreases n
  {
    if n == 0 {
      assert times + rest[..0] == times && rest[0..] == rest;
    } else {
      JoinedUngraded(times + [rest[0]], rest[1..], n - 1);
      assert times + [rest[0]] + rest[1..][..n - 1] == times + rest[..n];
      assert rest[1..][n - 1..] == rest[n..];
    }
  }

  lemma MergedUngraded(hms: seq<Slot>)
    requires |hms| <= 1 || forall i :: 0 <= i < |hms| ==> !hms[i].Graded()
    ensures Merged(hms) == hms
  {
    if |hms| == 1 {
      assert Joined([], hms) == Joined([hms[0]], []);
    } else {
      JoinedUngraded([], hms, |hms|);
      assert [] + hms[..|hms|] == hms;
    }
  }

  /** Merging at the first graded slot changes nothing about what the pass yields. */
  lemma MergedStep(hms: seq<Slot>, index: nat)
    requires index < |hms| && |hms| > 1 && hms[index].Graded() && forall i :: 0 <= i < index ==> !hms[i].Graded()
    ensures var other := if index == 0 then 1 else index - 1;
            var after := hms[index := Append(hms[index], hms[other])];
            Merged(after[..other] + after[other + 1..]) == Merged(hms)
  {
    if index == 0 {
      var merged := Append(hms[0], hms[1]);
      var after := hms[0 := merged][..1] + hms[0 := merged][2..];
      assert after == [merged] + hms[2..];
      assert Joined([], after) == Joined([] + [merged], after[1..]);
      assert [] + [merged] == [merged] && after[1..] == hms[2..];
    } else {
      var merged := Append(hms[index], hms[index - 1]);
      var after := hms[index := merged][..index - 1] + hms[index := merged][index..];
      assert after == hms[..index - 1] + [merged] + hms[index + 1..];
      JoinedUngraded([], hms, index);
      JoinedUngraded([], after, index);
      var times := [] + hms[..index];
      assert times[..|times| - 1] + [merged] == [] + after[..index];
      assert hms[index..][1..] == after[index..];
    }
  }

  lemma {:induction false} JoinedShrinks(times: seq<Slot>, rest: seq<Slot>, i: nat)
    requires i < |rest| && rest[i].Graded() && (times != [] || i > 0)
    ensures |Joined(times, rest)| < |times| + |rest|
    decreases |rest|
  {
    if !(rest[0].Graded() && times != []) {
      JoinedShrinks(times + [rest[0]], rest[1..], i - 1);
    }
  }

  /** Not graded, or graded for its hours. */
  predicate Idle(grade: Grade) {
    grade.Ungraded? || grade.OfHours?
  }

  /**
   Slots are left as they are exactly when there is at most one, or every grade is absent or of the hours alone:
   a slot graded for its hours, as a range of hours is, does not merge by itself.
   */
  lemma UntouchedIff(slots: seq<Slot>)
    ensures Merged(slots) == slots <==>
              |slots| <= 1 || forall i :: 0 <= i < |slots| ==> Idle(slots[i].weak) && Idle(slots[i].strong)
  {
    hide Merged;
    if |slots| <= 1 || forall i :: 0 <= i < |slots| ==> !slots[i].Graded() {
      MergedUngraded(slots);
    } else {
      var i :| 0 <= i < |slots| && slots[i].Graded();
      MergedShrinks(slots, i);
    }
  }

  lemma MergedShrinks(slots: seq<Slot>, i: nat)
    requires i < |slots| && |slots| > 1 && slots[i].Graded()
    ensures |Merged(slots)| < |slots|
  {
    hide Append;
    if !slots[0].Graded() {
      JoinedShrinks([], slots, i);
    }
  }

  /** `8am to 10am` and `12:30`: the range is graded, and the two stay two times. */
  lemma HourRangeDoesNotMerge()
    ensures var range := Slot(One(Range(8, 10)), One(Number(0)), Ungraded, OfHours);
            var time := Slot(One(Number(12)), One(Number(30)), Ungraded, Ungraded);
            && range.strong != Ungraded && Merged([range, time]) == [range, time]
            && Append(range, time) == Slot(One(Range(8, 10)), Many([Number(0), Number(30)]), Ungraded, Ungraded)
  {
    var range := Slot(One(Range(8, 10)), One(Number(0)), Ungraded, OfHours);
    var time := Slot(One(Number(12)), One(Number(30)), Ungraded, Ungraded);
    UntouchedIff([range, time]);
    assert [range, time][0] == range && [range, time][1] == time;
    assert Append(range, time).minutes == Many([Number(0)] + [Number(30)]);
  }

  // ---------------------------------------------------------------- grouping

  datatype HourGroup = HourGroup(hours: set<Token>, minutes: set<Token>)

  function TokenSet(tokens: seq<Token>): set<Token> {
    set t | t in tokens
  }

  /** The slot names this hour together with this minute. */
  predicate Names(slot: Slot, hour: Token, minute: Token) {
    hour in Values(slot.hours) && minute in Values(slot.minutes)
  }

  /** The token is the only one written, one of several, or every value for a star. */
  predicate Written(data: Data, token: Token) {
    || data == One(token)
    || (data.Many? && exists i :: 0 <= i < |data.tokens| && data.tokens[i] == token)
    || (data == Star && token == Every)
  }

  /** A slot names each of its hours with each of its minutes. */
  lemma NamesIff(slot: Slot, hour: Token, minute: Token)
    ensures Names(slot, hour, minute) <==> Written(slot.hours, hour) && Written(slot.minutes, minute)
  {
    WrittenIff(slot.hours, hour);
    WrittenIff(slot.minutes, minute);
    hide Written, Values;
  }

  lemma WrittenIff(data: Data, token: Token)
    ensures token in Values(data) <==> Written(data, token)
  {
    if data.Many? && token in data.tokens {
      var i :| 0 <= i < |data.tokens| && data.tokens[i] == token;
    }
  }

  ghost predicate NamedBy(slots: seq<Slot>, hour: Token, minute: Token) {
    exists i :: 0 <= i < |slots| && Names(slots[i], hour, minute)
  }

  ghost predicate Grouped(groups: map<set<Token>, set<Token>>, hour: Token, minute: Token) {
    exists hours :: hours in groups && hour in hours && minute in groups[hours]
  }

  /** The groups name exactly the pairs the slots name, each set of hours once. */
  method GroupByHours(hms: seq<Slot>) returns (groups: map<set<Token>, set<Token>>)
    ensures forall hour, minute :: Grouped(groups, hour, minute) <==> NamedBy(hms, hour, minute)
  {
    groups := map[];
    for i := 0 to |hms|
      invariant forall hour, minute :: Grouped(groups, hour, minute) <==> NamedBy(hms[..i], hour, minute)
    {
      ghost var before := groups;
      var minutes := Values(hms[i].minutes);
      var key := TokenSet(Values(hms[i].hours));
      for j := 0 to |minutes|
        invariant forall hour, minute :: Grouped(groups, hour, minute) <==>
                    Grouped(before, hour, minute) || (hour in key && minute in minutes[..j])
      {
        AddMinute(groups, key, minutes[j]);
        assert minutes[..j + 1] == minutes[..j] + [minutes[j]];
        groups := groups[key := (if key in groups then groups[key] else {}) + {minutes[j]}];
      }
      forall hour, minute
        ensures NamedBy(hms[..i + 1], hour, minute) <==> NamedBy(hms[..i], hour, minute) || Names(hms[i], hour, minute)
      {
        assert hms[..i + 1] == hms[..i] + [hms[i]];
        NamedMore(hms[..i], hms[i], hour, minute);
      }
      assert minutes[..|minutes|] == minutes;
    }
    assert hms[..|hms|] == hms;
  }

  lemma AddMinute(groups: map<set<Token>, set<Token>>, key: set<Token>, m: Token)
    ensures var after := groups[key := (if key in groups then groups[key] else {}) + {m}];
            forall hour, minute :: Grouped(after, hour, minute) <==>
              Grouped(groups, hour, minute) || (hour in key && minute == m)
  {
    var after := groups[key := (if key in groups then groups[key] else {}) + {m}];
    forall hour, minute
      ensures Grouped(after, hour, minute) <==> Grouped(groups, hour, minute) || (hour in key && minute == m)
    {
      if Grouped(groups, hour, minute) {
        var hours :| hours in groups && hour in hours && minute in groups[hours];
        assert hours in after && minute in after[hours];
      }
      if hour in key && minute == m {
        assert key in after && minute in after[key];
      }
    }
  }

  lemma NamedMore(slots: seq<Slot>, slot: Slot, hour: Token, minute: Token)
    ensures NamedBy(slots + [slot], hour, minute) <==> NamedBy(slots, hour, minute) || Names(slot, hour, minute)
  {
    var all := slots + [slot];
    assert all[|slots|] == slot;
    assert forall i :: 0 <= i < |slots| ==> all[i] == slots[i];
  }

  /** A phrase names the pairs of its merged slots, and without slots all times. */
  ghost predicate PhraseNames(slots: seq<Slot>, hour: Token, minute: Token) {
    if slots == [] then hour == Every && minute == Every else NamedBy(Merged(slots), hour, minute)
  }

  method DetermineTimes(slots: seq<Slot>) returns (groups: map<set<Token>, set<Token>>)
    ensures forall hour, minute :: Grouped(groups, hour, minute) <==> PhraseNames(slots, hour, minute)
  {
    if slots == [] {
      groups := map[{Every} := {Every}];
      return;
    }
    var hms := MergeGraded(slots);
    groups := GroupByHours(hms);
  }

  // ---------------------------------------------------------------- which times a phrase names

  /** The slot begins a time: it is not graded, or there is nothing before it. */
  predicate StartsTime(slots: seq<Slot>, i: int)
    requires 0 <= i < |slots|
  {
    i == 0 || (!slots[i].Graded() && !(i == 1 && slots[0].Graded()))
  }

  /** The time made of slots `i` up to `j`, each appended to by the next one. */
  function TimeOf(slots: seq<Slot>, i: int, j: int): Slot
    requires 0 <= i < j <= |slots|
    decreases j
  {
    if j == i + 1 then slots[i]
    else if i == 0 && j == 2 && slots[0].Graded() then Append(slots[0], slots[1])
    else Append(slots[j - 1], TimeOf(slots, i, j - 1))
  }

  /** Slots `i` up to `j` are one time, from its beginning to the next beginning. */
  ghost predicate IsTime(slots: seq<Slot>, i: int, j: int) {
    && 0 <= i < j <= |slots| && StartsTime(slots, i)
    && (forall k :: i < k < j ==> !StartsTime(slots, k))
    && (j < |slots| ==> StartsTime(slots, j))
  }

  lemma {:induction false} JoinedLast(times: seq<Slot>, rest: seq<Slot>, slot: Slot)
    ensures Joined(times, rest + [slot]) == Joined(Joined(times, rest), [slot])
    decreases |rest|
  {
    if rest == [] {
      assert [] + [slot] == [slot];
    } else {
      assert (rest + [slot])[1..] == rest[1..] + [slot];
      JoinedLast(if rest[0].Graded() && times != [] then times[..|times| - 1] + [Append(rest[0], times[|times| - 1])]
                 else times + [rest[0]], rest[1..], slot);
    }
  }

  /** One more slot begins a time or joins the last one. */
  lemma MergedLast(slots: seq<Slot>, slot: Slot)
    requires slots != []
    ensures var (all, times) := (slots + [slot], Merged(slots));
            && times != []
            && Merged(all) == if StartsTime(all, |slots|) then times + [slot]
                              else times[..|times| - 1]
                                   + [if |slots| == 1 && slots[0].Graded() then Append(slots[0], slot)
                                      else Append(slot, times[|times| - 1])]
  {
    var (all, times) := (slots + [slot], Merged(slots));
    assert all[0] == slots[0] && all[|slots|] == slot;
    if |slots| == 1 {
      assert times == slots by {
        MergedUngraded(slots);
      }
      if slots[0].Graded() {
        assert all[2..] == [];
      } else {
        JoinedLast([], slots, slot);
        assert Joined([], slots) == slots;
      }
    } else if slots[0].Graded() {
      assert all[2..] == slots[2..] + [slot];
      JoinedLast([Append(slots[0], slots[1])], slots[2..], slot);
    } else {
      JoinedLast([], slots, slot);
      assert Joined([], slots) == Joined([] + [slots[0]], slots[1..]);
    }
  }

  /** Where time `k` ends: at the next start, or after the last slot. */
  function EndOf(starts: seq<int>, k: int, n: int): int
    requires 0 <= k < |starts|
  {
    if k + 1 < |starts| then starts[k + 1] else n
  }

  /** The beginnings of times, in order. */
  ghost predicate AreStarts(slots: seq<Slot>, starts: seq<int>) {
    && (forall k, l :: 0 <= k < l < |starts| ==> starts[k] < starts[l])
    && (forall i :: i in starts <==> 0 <= i < |slots| && StartsTime(slots, i))
  }

  /** Each of the times is the one from its start to the next. */
  ghost predicate AreTimes(slots: seq<Slot>, starts: seq<int>, times: seq<Slot>) {
    && |starts| == |times|
    && forall k :: 0 <= k < |times| ==>
         && 0 <= starts[k] < EndOf(starts, k, |slots|) <= |slots|
         && times[k] == TimeOf(slots, starts[k], EndOf(starts, k, |slots|))
  }

  lemma StartsMore(slots: seq<Slot>, slot: Slot, starts: seq<int>)
    requires slots != [] && AreStarts(slots, starts)
    ensures var all := slots + [slot];
            AreStarts(all, if StartsTime(all, |slots|) then starts + [|slots|] else starts)
  {
    var all := slots + [slot];
    var r := if StartsTime(all, |slots|) then starts + [|slots|] else starts;
    forall i
      ensures i in r <==> 0 <= i < |all| && StartsTime(all, i)
    {
      assert i in r <==> i in starts || (i == |slots| && StartsTime(all, |slots|));
      assert 0 <= i < |slots| ==> StartsTime(all, i) == StartsTime(slots, i);
    }
    assert forall k :: 0 <= k < |starts| ==> starts[k] in starts;
  }

  /** The times of a longer list, as far as they were complete in the shorter one. */
  lemma TimesKept(slots: seq<Slot>, slot: Slot, starts: seq<int>, times: seq<Slot>, k: int)
    requires AreTimes(slots, starts, times) && 0 <= k < |times|
    ensures 0 <= starts[k] < EndOf(starts, k, |slots|) <= |slots|
    ensures times[k] == TimeOf(slots + [slot], starts[k], EndOf(starts, k, |slots|))
  {
    assert (slots + [slot])[..|slots|] == slots;
    TimeOfPrefix(slots + [slot], |slots|, starts[k], EndOf(starts, k, |slots|));
  }

  lemma TimeBegun(slots: seq<Slot>, slot: Slot, starts: seq<int>, times: seq<Slot>)
    requires slots != [] && AreTimes(slots, starts, times)
    ensures AreTimes(slots + [slot], starts + [|slots|], times + [slot])
  {
    forall k | 0 <= k < |times|
      ensures 0 <= starts[k] < EndOf(starts, k, |slots|) <= |slots|
      ensures times[k] == TimeOf(slots + [slot], starts[k], EndOf(starts, k, |slots|))
    {
      TimesKept(slots, slot, starts, times, k);
    }
    assert TimeOf(slots + [slot], |slots|, |slots| + 1) == slot;
    hide TimeOf;
  }

  lemma TimeJoined(slots: seq<Slot>, slot: Slot, starts: seq<int>, times: seq<Slot>, last: Slot)
    requires slots != [] && AreTimes(slots, starts, times) && times != []
    requires last == if |slots| == 1 && slots[0].Graded() then Append(slots[0], slot)
                     else Append(slot, times[|times| - 1])
    ensures AreTimes(slots + [slot], starts, times[..|times| - 1] + [last])
  {
    forall k | 0 <= k < |times|
      ensures 0 <= starts[k] < EndOf(starts, k, |slots|) <= |slots|
      ensures times[k] == TimeOf(slots + [slot], starts[k], EndOf(starts, k, |slots|))
    {
      TimesKept(slots, slot, starts, times, k);
    }
    LastJoined(slots, slot, starts[|starts| - 1]);
    hide TimeOf, Append;
  }

  lemma LastJoined(slots: seq<Slot>, slot: Slot, i: int)
    requires 0 <= i < |slots|
    ensures TimeOf(slots + [slot], i, |slots| + 1)
            == if |slots| == 1 && slots[0].Graded() then Append(slots[0], slot)
               else Append(slot, TimeOf(slots + [slot], i, |slots|))
  {
    hide Append;
  }

  lemma OneTime(slots: seq<Slot>)
    requires |slots| == 1
    ensures AreStarts(slots, [0]) && AreTimes(slots, [0], Merged(slots))
  {
    MergedUngraded(slots);
  }

  /** The merged slots are the times, in order. */
  lemma {:induction false} MergedTimes(slots: seq<Slot>) returns (starts: seq<int>)
    requires slots != []
    ensures AreStarts(slots, starts) && AreTimes(slots, starts, Merged(slots))
    decreases |slots|
  {
    var n := |slots| - 1;
    if n == 0 {
      OneTime(slots);
      starts := [0];
    } else {
      var (fewer, slot) := (slots[..n], slots[n]);
      assert slots == fewer + [slot];
      starts := MergedTimes(fewer);
      MergedLast(fewer, slot);
      hide Merged, TimeOf, StartsTime, AreStarts, AreTimes, Append;
      StartsMore(fewer, slot, starts);
      var times := Merged(fewer);
      var last := if |fewer| == 1 && fewer[0].Graded() then Append(fewer[0], slot) else Append(slot, times[|times| - 1]);
      if StartsTime(slots, n) {
        TimeBegun(fewer, slot, starts, times);
        starts := starts + [n];
      } else {
        TimeJoined(fewer, slot, starts, times, last);
      }
    }
  }

  lemma {:induction false} TimeOfPrefix(slots: seq<Slot>, n: int, i: int, j: int)
    requires 0 <= i < j <= n <= |slots|
    ensures TimeOf(slots[..n], i, j) == TimeOf(slots, i, j)
    decreases j
  {
    if j > i + 1 {
      TimeOfPrefix(slots, n, i, j - 1);
    }
  }

  /** From one start to the next is one time. */
  lemma StartsAround(slots: seq<Slot>, starts: seq<int>, k: int)
    requires 0 <= k < |starts| && AreStarts(slots, starts)
    ensures IsTime(slots, starts[k], EndOf(starts, k, |slots|))
    ensures forall j :: IsTime(slots, starts[k], j) ==> j == EndOf(starts, k, |slots|)
  {
    hide StartsTime;
    var end := EndOf(starts, k, |slots|);
    assert starts[k] in starts && (k + 1 < |starts| ==> starts[k + 1] in starts);
    forall i | starts[k] < i < end
      ensures !StartsTime(slots, i)
    {
      assert i !in starts;
    }
  }

  lemma NameOfTime(slots: seq<Slot>, starts: seq<int>, times: seq<Slot>, k: int, hour: Token, minute: Token)
    requires AreStarts(slots, starts) && AreTimes(slots, starts, times)
    requires 0 <= k < |times| && Names(times[k], hour, minute)
    ensures exists i, j :: IsTime(slots, i, j) && Names(TimeOf(slots, i, j), hour, minute)
  {
    StartsAround(slots, starts, k);
    hide TimeOf, Names, IsTime, AreStarts;
    assert Names(TimeOf(slots, starts[k], EndOf(starts, k, |slots|)), hour, minute);
  }

  lemma TimeNamed(
    slots: seq<Slot>, starts: seq<int>, times: seq<Slot>, i: int, j: int, hour: Token, minute: Token)
    requires AreStarts(slots, starts) && AreTimes(slots, starts, times)
    requires IsTime(slots, i, j) && Names(TimeOf(slots, i, j), hour, minute)
    ensures NamedBy(times, hour, minute)
  {
    assert i in starts;
    var k :| 0 <= k < |starts| && starts[k] == i;
    StartsAround(slots, starts, k);
    hide TimeOf, Names, AreStarts, StartsTime;
    assert Names(times[k], hour, minute);
  }

  /** A merged phrase names an hour with a minute exactly when one of its times does. */
  lemma MergedNames(slots: seq<Slot>, hour: Token, minute: Token)
    ensures NamedBy(Merged(slots), hour, minute) <==>
              exists i, j :: IsTime(slots, i, j) && Names(TimeOf(slots, i, j), hour, minute)
  {
    if slots != [] {
      var starts := MergedTimes(slots);
      hide Merged, TimeOf, Names, IsTime, AreTimes, AreStarts;
      if NamedBy(Merged(slots), hour, minute) {
        var k :| 0 <= k < |Merged(slots)| && Names(Merged(slots)[k], hour, minute);
        NameOfTime(slots, starts, Merged(slots), k, hour, minute);
      }
      if exists i, j :: IsTime(slots, i, j) && Names(TimeOf(slots, i, j), hour, minute) {
        var i, j :| IsTime(slots, i, j) && Names(TimeOf(slots, i, j), hour, minute);
        TimeNamed(slots, starts, Merged(slots), i, j, hour, minute);
      }
    }
  }

  lemma PairMerged(a: Slot, b: Slot)
    requires !a.Graded() && b.Graded()
    ensures Merged([a, b]) == [Append(b, a)]
  {
    hide Append;
    assert [a, b][1..] == [b];
    assert Joined([], [a, b]) == Joined([] + [a], [b]);
    assert Joined([a], [b]) == Joined([a][..0] + [Append(b, a)], []);
  }

  lemma AppendMinutes(time: Slot, steps: Data)
    requires !time.Graded() && time.weak == Ungraded && !time.hours.Absent? && !time.hours.Star? && !steps.Absent?
    ensures var merged := Append(Slot(Star, steps, Ungraded, OfMinutes), time);
            var hours := if HourRange(time).Some? then HourRange(time).value else time.hours;
            Values(merged.hours) == Values(hours) && merged.minutes == steps
  {
    assert [] + Values(time.hours) == Values(time.hours);
  }

  /**
   A time followed by `every n minutes` names the hours of the time, less the last of a range of whole hours, with
   the repeated minutes.
   */
  lemma MinutesWithinHours(time: Slot, steps: Data, hour: Token, minute: Token)
    requires !time.Graded() && time.weak == Ungraded && !time.hours.Absent? && !time.hours.Star? && !steps.Absent?
    ensures var repeated := Slot(Star, steps, Ungraded, OfMinutes);
            var hours := if HourRange(time).Some? then HourRange(time).value else time.hours;
            NamedBy(Merged([time, repeated]), hour, minute) <==> hour in Values(hours) && minute in Values(steps)
  {
    var repeated := Slot(Star, steps, Ungraded, OfMinutes);
    PairMerged(time, repeated);
    AppendMinutes(time, steps);
    var merged := Append(repeated, time);
    hide Merged, Append, HourRange, Values;
    assert NamedBy([merged], hour, minute) <==> Names(merged, hour, minute) by {
      assert [merged][0] == merged;
    }
  }

  // ---------------------------------------------------------------- what the tokens mean to the parser

  /** The item a token is written as. */
  function ItemOf(token: Token): CronFields.Item {
    match token
    case Every => CronFields.Item(CronFields.All, 1, false)
    case Number(n) => CronFields.Item(CronFields.Single(n), 1, false)
    case Range(start, end) => CronFields.Item(CronFields.Between(start, end), 1, false)
    case EveryNth(step) => CronFields.Item(CronFields.All, step, true)
  }

  function Items(tokens: seq<Token>): seq<CronFields.Item> {
    seq(|tokens|, i requires 0 <= i < |tokens| => ItemOf(tokens[i]))
  }

  ghost predicate Means(kind: CronFields.Kind, tokens: set<Token>, value: int) {
    exists t :: t in tokens && CronFields.Expands(kind, ItemOf(t), value)
  }

  /** The field parsed from these tokens, in whichever order they are written. */
  ghost predicate IsFieldOfTokens(kind: CronFields.Kind, tokens: set<Token>, f: Field) {
    exists ts :: TokenSet(ts) == tokens && CronFields.Readable(kind, Items(ts)) && CronFields.IsFieldOf(kind, Items(ts), f)
  }

  lemma FieldMeans(kind: CronFields.Kind, tokens: set<Token>, f: Field, value: int)
    requires IsFieldOfTokens(kind, tokens, f)
    ensures value in f.values <==> Means(kind, tokens, value)
  {
    var ts :| TokenSet(ts) == tokens && CronFields.Readable(kind, Items(ts)) && CronFields.IsFieldOf(kind, Items(ts), f);
    var items := Items(ts);
    hide CronFields.Expands, CronFields.Readable, CronFields.SomeWhole;
    if CronFields.Holds(kind, items, value) {
      var i :| 0 <= i < |items| && CronFields.Expands(kind, items[i], value);
      assert ts[i] in TokenSet(ts) && items[i] == ItemOf(ts[i]);
    }
    if Means(kind, tokens, value) {
      var t :| t in tokens && CronFields.Expands(kind, ItemOf(t), value);
      var i :| 0 <= i < |ts| && ts[i] == t;
      assert items[i] == ItemOf(t);
    }
  }

  lemma SpanMeans(kind: CronFields.Kind, item: CronFields.Item, first: int, last: int, v: int)
    requires forall n :: kind.low <= n <= kind.high ==> kind.normalize(n) == n
    requires CronFields.Span(kind, item) == Some((first, last)) && kind.low <= first <= last <= kind.high
    ensures CronFields.Expands(kind, item, v) <==> first <= v <= last && (v - first) % item.step == 0
  {
    forall raw
      ensures CronFields.Selects(kind, item, raw) <==> first <= raw <= last && (raw - first) % item.step == 0
    {
    }
    hide CronFields.Selects;
    if first <= v <= last && (v - first) % item.step == 0 {
      assert CronFields.Selects(kind, item, v) && kind.normalize(v) == v;
    }
  }

  /** What the tokens name as minutes: all of them, every n-th from the full hour, one, or those of a range. */
  lemma MinuteTokens(first: int, last: int, step: CronFields.Step, minute: int)
    requires 0 <= first <= last <= 59
    ensures CronFields.Expands(CronFields.MinuteKind, ItemOf(Every), minute) <==> 0 <= minute <= 59
    ensures CronFields.Expands(CronFields.MinuteKind, ItemOf(EveryNth(step)), minute) <==> 0 <= minute <= 59 && minute % step == 0
    ensures CronFields.Expands(CronFields.MinuteKind, ItemOf(Number(first)), minute) <==> minute == first
    ensures CronFields.Expands(CronFields.MinuteKind, ItemOf(Range(first, last)), minute) <==> first <= minute <= last
  {
    SpanMeans(CronFields.MinuteKind, ItemOf(Every), 0, 59, minute);
    SpanMeans(CronFields.MinuteKind, ItemOf(EveryNth(step)), 0, 59, minute);
    SpanMeans(CronFields.MinuteKind, ItemOf(Number(first)), first, first, minute);
    SpanMeans(CronFields.MinuteKind, ItemOf(Range(first, last)), first, last, minute);
  }

  /** `every n hours` names every n-th hour from midnight, and midnight itself. */
  lemma HourSteps(step: CronFields.Step, hour: int)
    ensures CronFields.Expands(CronFields.HourKind, ItemOf(EveryNth(step)), hour) <==> 0 <= hour <= 23 && hour % step == 0
  {
    var item := ItemOf(EveryNth(step));
    forall raw
      ensures CronFields.Selects(CronFields.HourKind, item, raw) <==> 0 <= raw <= 24 && raw % step == 0
    {
    }
    hide CronFields.Selects;
    if 0 <= hour <= 23 && hour % step == 0 {
      assert CronFields.Selects(CronFields.HourKind, item, hour);
    }
  }

  /** `10pm to 6am` runs through midnight, and hour 24 is midnight. */
  lemma HoursWrap(hour: int)
    ensures Means(CronFields.HourKind, {Range(22, 6)}, hour) <==> 22 <= hour <= 23 || 0 <= hour <= 6
    ensures Means(CronFields.HourKind, {Number(24)}, hour) <==> hour == 0
  {
    var (night, midnight) := (ItemOf(Range(22, 6)), ItemOf(Number(24)));
    if 22 <= hour <= 23 || 0 <= hour <= 6 {
      assert CronFields.Selects(CronFields.HourKind, night, hour);
      assert CronFields.Expands(CronFields.HourKind, night, hour);
    }
    if hour == 0 {
      assert CronFields.Selects(CronFields.HourKind, midnight, 24);
      assert CronFields.Expands(CronFields.HourKind, midnight, 0);
    }
  }

  /**
   A range of whole hours that gives up its last hour can be read by the parser exactly when it does not end at
   hour 0: one that runs to midnight is written with the hour before it as minus one.
   */
  lemma ShortenedIsReadableIff(slot: Slot)
    requires HourRange(slot).Some? && CronFields.Readable(CronFields.HourKind, Items(Values(slot.hours)))
    ensures CronFields.Readable(CronFields.HourKind, Items(Values(HourRange(slot).value))) <==> slot.hours.token.end != 0
  {
    var items := Items(Values(slot.hours));
    assert items[0] == ItemOf(slot.hours.token);
    var after := Items(Values(HourRange(slot).value));
    assert |after| == 1 && after[0] == ItemOf(HourRange(slot).value.token);
  }

  /** `every 5 minutes from 10pm to midnight`: the hours are written `22--1`, and the parser refuses them. */
  lemma RangeToMidnightIsUnreadable()
    ensures var repeated := Slot(Star, One(EveryNth(5)), Ungraded, OfMinutes);
            var range := Slot(One(Range(22, 0)), One(Number(0)), Ungraded, OfHours);
            && CronFields.Readable(CronFields.HourKind, Items(Values(range.hours)))
            && |Merged([repeated, range])| == 1
            && !CronFields.Readable(CronFields.HourKind, Items(Values(Merged([repeated, range])[0].hours)))
  {
    var repeated := Slot(Star, One(EveryNth(5)), Ungraded, OfMinutes);
    var range := Slot(One(Range(22, 0)), One(Number(0)), Ungraded, OfHours);
    var merged := Append(repeated, range);
    assert Merged([repeated, range]) == [merged] by {
      assert [repeated, range][2..] == [];
    }
    assert merged.hours == HourRange(range).value;
    ShortenedIsReadableIff(range);
  }

  // ---------------------------------------------------------------- the expressions run when the phrase does

  /** The two differ in their hours and minutes at most, and in the order of weekday specifications. */
  ghost predicate SameButTimes(a: Schedule, b: Schedule) {
    && a.seconds == b.seconds && a.dayOfMonth == b.dayOfMonth && a.months == b.months && a.dayAnd == b.dayAnd
    && a.dayOfWeek.wildcard == b.dayOfWeek.wildcard
    && forall spec :: spec in a.dayOfWeek.specs <==> spec in b.dayOfWeek.specs
  }

  lemma SameDates(a: Schedule, b: Schedule, d: Date)
    requires IsMonth(d.month) && SameButTimes(a, b)
    ensures MatchesDate(a, d) == MatchesDate(b, d)
  {
    assert DayHits(a, d.day, MonthLength(d.year, d.month)) == DayHits(b, d.day, MonthLength(d.year, d.month));
    hide SpecMatches, MonthLength;
    if MatchesDayOfWeek(a, d) {
      SomeSpecMatches(a, b, d);
    }
    if MatchesDayOfWeek(b, d) {
      SomeSpecMatches(b, a, d);
    }
  }

  lemma SomeSpecMatches(a: Schedule, b: Schedule, d: Date)
    requires IsMonth(d.month) && SameButTimes(a, b) && MatchesDayOfWeek(a, d)
    ensures MatchesDayOfWeek(b, d)
  {
    hide SpecMatches;
    if !a.dayOfWeek.wildcard {
      var i :| 0 <= i < |a.dayOfWeek.specs| && SpecMatches(a.dayOfWeek.specs[i], d);
      assert a.dayOfWeek.specs[i] in b.dayOfWeek.specs;
    }
  }

  /** The expression of a group: the other fields of the phrase, with the group's hours and minutes. */
  ghost predicate ExpressionOf(s: Schedule, phrase: Schedule, hours: set<Token>, minutes: set<Token>) {
    && SameButTimes(s, phrase)
    && IsFieldOfTokens(CronFields.HourKind, hours, s.hours) && IsFieldOfTokens(CronFields.MinuteKind, minutes, s.minutes)
  }

  /** What the parser makes of the phrase's other fields with a group's hours and minutes is the group's expression. */
  lemma ParsedIsExpression(
    fields: CronFields.Fields, phrase: Schedule, hours: seq<Token>, minutes: seq<Token>, s: Schedule)
    requires CronFields.IsScheduleOf(fields, phrase)
    requires var f := fields.(hours := Items(hours), minutes := Items(minutes));
             CronFields.ReadableFields(f) && CronFields.IsScheduleOf(f, s)
    ensures ExpressionOf(s, phrase, TokenSet(hours), TokenSet(minutes))
  {
    var f := fields.(hours := Items(hours), minutes := Items(minutes));
    hide CronFields.IsFieldOf, CronFields.AreDaysOf, CronFields.AreWeekdaysOf, CronFields.Readable;
    if f.seconds.Some? {
      CronFields.FieldIsUnique(CronFields.MinuteKind, f.seconds.value, s.seconds, phrase.seconds);
    }
    CronFields.FieldIsUnique(CronFields.MonthKind, f.months, s.months, phrase.months);
    CronFields.DaysAreUnique(f.dayOfMonth, s.dayOfMonth, phrase.dayOfMonth);
    CronFields.WeekdaysAreUnique(f.dayOfWeek, s.dayOfWeek, phrase.dayOfWeek);
  }

  /** The phrase is due at this moment: one of its times, on one of its days, at one of its seconds. */
  ghost predicate PhraseRuns(phrase: Schedule, slots: seq<Slot>, t: Moment) {
    && IsMoment(t) && t.micro == 0 && t.second in phrase.seconds.values && MatchesDate(phrase, t.date)
    && exists hour, minute :: && PhraseNames(slots, hour, minute)
                              && CronFields.Expands(CronFields.HourKind, ItemOf(hour), t.hour)
                              && CronFields.Expands(CronFields.MinuteKind, ItemOf(minute), t.minute)
  }

  /** One expression for each group. */
  ghost predicate Expressions(
    schedules: seq<Schedule>, phrase: Schedule, groups: map<set<Token>, set<Token>>, order: seq<set<Token>>)
  {
    && |schedules| == |order|
    && (forall hours :: hours in order <==> hours in groups)
    && (forall i :: 0 <= i < |order| ==> order[i] in groups && ExpressionOf(schedules[i], phrase, order[i], groups[order[i]]))
  }

  /** The union of the expressions runs exactly when the phrase does. */
  lemma ExpressionsRunWithPhrase(
    schedules: seq<Schedule>, phrase: Schedule, slots: seq<Slot>, groups: map<set<Token>, set<Token>>,
    order: seq<set<Token>>, t: Moment)
    requires Expressions(schedules, phrase, groups, order)
    requires forall hour, minute :: Grouped(groups, hour, minute) <==> PhraseNames(slots, hour, minute)
    ensures RunsAny(schedules, t) <==> PhraseRuns(phrase, slots, t)
  {
    hide PhraseNames, ExpressionOf, CronFields.Expands, MatchesDate;
    if RunsAny(schedules, t) {
      var i :| 0 <= i < |schedules| && Runs(schedules[i], t);
      RunOfGroup(schedules[i], phrase, groups, order[i], t);
    }
    if PhraseRuns(phrase, slots, t) {
      var hour, minute :| && PhraseNames(slots, hour, minute)
                          && CronFields.Expands(CronFields.HourKind, ItemOf(hour), t.hour)
                          && CronFields.Expands(CronFields.MinuteKind, ItemOf(minute), t.minute);
      assert Grouped(groups, hour, minute);
      var hours :| hours in groups && hour in hours && minute in groups[hours];
      var i :| 0 <= i < |order| && order[i] == hours;
      GroupOfRun(schedules[i], phrase, groups, hours, hour, minute, t);
    }
  }

  lemma RunOfGroup(
    s: Schedule, phrase: Schedule, groups: map<set<Token>, set<Token>>, hours: set<Token>, t: Moment)
    requires hours in groups && ExpressionOf(s, phrase, hours, groups[hours]) && Runs(s, t)
    ensures IsMoment(t) && t.micro == 0 && t.second in phrase.seconds.values && MatchesDate(phrase, t.date)
    ensures exists hour, minute :: && Grouped(groups, hour, minute)
                                   && CronFields.Expands(CronFields.HourKind, ItemOf(hour), t.hour)
                                   && CronFields.Expands(CronFields.MinuteKind, ItemOf(minute), t.minute)
  {
    SameDates(s, phrase, t.date);
    FieldMeans(CronFields.HourKind, hours, s.hours, t.hour);
    FieldMeans(CronFields.MinuteKind, groups[hours], s.minutes, t.minute);
    hide CronFields.Expands, MatchesDate, IsFieldOfTokens;
    var hour :| hour in hours && CronFields.Expands(CronFields.HourKind, ItemOf(hour), t.hour);
    var minute :| minute in groups[hours] && CronFields.Expands(CronFields.MinuteKind, ItemOf(minute), t.minute);
    assert Grouped(groups, hour, minute);
  }

  lemma GroupOfRun(
    s: Schedule, phrase: Schedule, groups: map<set<Token>, set<Token>>, hours: set<Token>, hour: Token, minute: Token,
    t: Moment)
    requires hours in groups && ExpressionOf(s, phrase, hours, groups[hours])
    requires hour in hours && CronFields.Expands(CronFields.HourKind, ItemOf(hour), t.hour)
    requires minute in groups[hours] && CronFields.Expands(CronFields.MinuteKind, ItemOf(minute), t.minute)
    requires IsMoment(t) && t.micro == 0 && t.second in phrase.seconds.values && MatchesDate(phrase, t.date)
    ensures Runs(s, t)
  {
    SameDates(s, phrase, t.date);
    FieldMeans(CronFields.HourKind, hours, s.hours, t.hour);
    FieldMeans(CronFields.MinuteKind, groups[hours], s.minutes, t.minute);
    hide CronFields.Expands, MatchesDate, IsFieldOfTokens;
  }

  // ---------------------------------------------------------------- the next time of a phrase

  ghost predicate PhraseRunsAt(phrase: Schedule, slots: seq<Slot>, t: int) {
    exists m :: PhraseRuns(phrase, slots, m) && IsMoment(m) && Stamp(m) == t
  }

  /** The answer to a search for the phrase's nearest time, within the window that searches look through. */
  ghost predicate IsPhraseAnswer(phrase: Schedule, slots: seq<Slot>, t: int, forward: bool, r: Option<int>) {
    match r
    case Some(run) =>
      && PhraseRunsAt(phrase, slots, run) && InWindow(forward, t, run)
      && forall u :: PhraseRunsAt(phrase, slots, u) && Beyond(forward, t, u) ==> !Beyond(forward, u, run)
    case None => forall u :: PhraseRunsAt(phrase, slots, u) ==> !InWindow(forward, t, u)
  }

  lemma RunsAtSameTimes(
    schedules: seq<Schedule>, phrase: Schedule, slots: seq<Slot>, groups: map<set<Token>, set<Token>>,
    order: seq<set<Token>>, t: int)
    requires Expressions(schedules, phrase, groups, order)
    requires forall hour, minute :: Grouped(groups, hour, minute) <==> PhraseNames(slots, hour, minute)
    ensures RunsAt(schedules, t) <==> PhraseRunsAt(phrase, slots, t)
  {
    hide RunsAny, PhraseRuns, Expressions, PhraseNames, Grouped;
    forall m
      ensures RunsAny(schedules, m) <==> PhraseRuns(phrase, slots, m)
    {
      ExpressionsRunWithPhrase(schedules, phrase, slots, groups, order, m);
    }
  }

  /** The nearest run over the expressions is the phrase's nearest time, in either direction. */
  lemma NearestIsPhraseAnswer(
    schedules: seq<Schedule>, phrase: Schedule, slots: seq<Slot>, groups: map<set<Token>, set<Token>>,
    order: seq<set<Token>>, t: int, forward: bool)
    requires Expressions(schedules, phrase, groups, order)
    requires forall hour, minute :: Grouped(groups, hour, minute) <==> PhraseNames(slots, hour, minute)
    ensures IsPhraseAnswer(phrase, slots, t, forward, Nearest(schedules, t, forward))
  {
    hide RunsAt, PhraseRunsAt, Expressions, PhraseNames, Grouped;
    forall u
      ensures RunsAt(schedules, u) <==> PhraseRunsAt(phrase, slots, u)
    {
      RunsAtSameTimes(schedules, phrase, slots, groups, order, u);
    }
  }

  lemma ExpressionIsWellFormed(s: Schedule, phrase: Schedule, hours: set<Token>, minutes: set<Token>)
    requires ExpressionOf(s, phrase, hours, minutes) && WellFormed(phrase)
    ensures WellFormed(s) && (WithoutModulo(phrase) ==> WithoutModulo(s))
  {
    var hs :| TokenSet(hs) == hours && CronFields.Readable(CronFields.HourKind, Items(hs))
              && CronFields.IsFieldOf(CronFields.HourKind, Items(hs), s.hours);
    var ms :| TokenSet(ms) == minutes && CronFields.Readable(CronFields.MinuteKind, Items(ms))
              && CronFields.IsFieldOf(CronFields.MinuteKind, Items(ms), s.minutes);
    CronFields.ParsedFieldsInRange(CronFields.HourKind, Items(hs), s.hours);
    CronFields.ParsedFieldsInRange(CronFields.MinuteKind, Items(ms), s.minutes);
    hide CronFields.IsFieldOf, CronFields.Readable;
    assert CronFields.HourKind != CronFields.MinuteKind;
    assert phrase.dayOfWeek.specs != [] ==> phrase.dayOfWeek.specs[0] in s.dayOfWeek.specs;
    forall i | 0 <= i < |s.dayOfWeek.specs|
      ensures WellFormedSpec(s.dayOfWeek.specs[i])
      ensures WithoutModulo(phrase) ==> s.dayOfWeek.specs[i].modulo.None?
    {
      assert s.dayOfWeek.specs[i] in phrase.dayOfWeek.specs;
    }
  }

  /** Without `%` the search is in vain exactly when the phrase has no time at all, past or future. */
  lemma NoAnswerIffNeverRuns(
    schedules: seq<Schedule>, phrase: Schedule, slots: seq<Slot>, groups: map<set<Token>, set<Token>>,
    order: seq<set<Token>>, t: int, forward: bool)
    requires Expressions(schedules, phrase, groups, order) && WellFormed(phrase) && WithoutModulo(phrase)
    requires forall hour, minute :: Grouped(groups, hour, minute) <==> PhraseNames(slots, hour, minute)
    ensures Nearest(schedules, t, forward).None? <==> forall u :: !PhraseRunsAt(phrase, slots, u)
  {
    forall i | 0 <= i < |schedules|
      ensures WellFormed(schedules[i]) && WithoutModulo(schedules[i])
    {
      ExpressionIsWellFormed(schedules[i], phrase, order[i], groups[order[i]]);
    }
    AnswersIffMatchingDay(schedules, t, forward);
    NearestIsPhraseAnswer(schedules, phrase, slots, groups, order, t, forward);
    hide Expressions, PhraseNames, Grouped, WellFormed, WithoutModulo, Nearest, PhraseRuns;
    if u :| PhraseRunsAt(phrase, slots, u) {
      RunsAtSameTimes(schedules, phrase, slots, groups, order, u);
      var m :| RunsAny(schedules, m) && IsMoment(m) && Stamp(m) == u;
      var i :| 0 <= i < |schedules| && Runs(schedules[i], m);
      DayOfRun(schedules[i], m);
    }
  }
}
