/** How the selected range changes when a day is tapped (index.tsx:748-775), when a time
    field loses focus (index.tsx:448-502) and when an hour or minute is picked
    (index.tsx:896-937). */
module Selection {
  import opened Options
  import opened Moments
  import opened Arith
  import opened Rounding
  import opened Bounds

  /** The clock time on the minimum's day rounded up to the interval (`set({ hours:
      minimumDate.hours(), minutes: round(minimumDate.minutes(), interval, true) })`). */
  function UpToMinimum(t: int, minimum: int, interval: int): int
    requires interval > 0
  {
    WithTime(t, Hour(minimum), Round(Minute(minimum), interval, true))
  }

  /** The same with the maximum's time rounded down. */
  function DownToMaximum(t: int, maximum: int, interval: int): int
    requires interval > 0
  {
    WithTime(t, Hour(maximum), Round(Minute(maximum), interval, false))
  }

  /** On the minimum's day, moving to its time rounded up lands within one interval at or
      after the minimum. */
  lemma UpToMinimumBounds(t: int, minimum: int, interval: int)
    requires interval > 0
    ensures SameDay(t, minimum) ==> minimum <= UpToMinimum(t, minimum, interval) < minimum + interval
  {
    TimeOfDaySplits(minimum);
  }

  /** On the maximum's day, moving to its time rounded down lands within one interval at
      or before the maximum. */
  lemma DownToMaximumBounds(t: int, maximum: int, interval: int)
    requires interval > 0
    ensures SameDay(t, maximum) ==> maximum - interval < DownToMaximum(t, maximum, interval) <= maximum
  {
    TimeOfDaySplits(maximum);
  }

  /** With an interval that divides the hour, a clock time whose minute is a multiple of
      the interval is a multiple of the interval. */
  lemma AlignedTime(t: int, hours: int, minutes: int, interval: int)
    requires interval > 0 && MinutesPerHour % interval == 0 && minutes % interval == 0
    ensures WithTime(t, hours, minutes) % interval == 0
  {
    var base := StartOfDay(t) + hours * MinutesPerHour;
    assert Minute(base) == 0;
    assert WithMinutes(base, minutes) == WithTime(t, hours, minutes);
    AlignedMinute(base, minutes, interval);
  }

  /** Rounding a moment's minute down gives the latest multiple of the interval at or
      before the moment. */
  lemma FloorIsLatestMultiple(t: int, interval: int, m: int)
    requires interval > 0 && MinutesPerHour % interval == 0 && m % interval == 0 && m <= t
    ensures var f := WithMinutes(t, Round(Minute(t), interval, false));
      f % interval == 0 && t - interval < f <= t && m <= f
  {
    var f := WithMinutes(t, Round(Minute(t), interval, false));
    AlignedMinute(t, Round(Minute(t), interval, false), interval);
    if f < m {
      MultiplesApart(f, m, interval);
    }
  }

  /** The moment a tap on `day` (a day number counted from 1970-01-01) selects
      (index.tsx:748-768): the day at the start's clock time, moved up to the minimum's
      time rounded up, or down to the maximum's time rounded down, when it falls outside
      them. */
  function TappedMoment(day: int, start: int, minimum: int, maximum: int, interval: int): (r: int)
    requires interval > 0 && MinutesPerHour % interval == 0
    ensures var onDay := DayStart(day) + TimeOfDay(start);
      onDay < minimum || maximum < onDay ==> r % interval == 0
    ensures var onDay := DayStart(day) + TimeOfDay(start);
      && (DayOf(minimum) <= day && onDay < minimum ==> minimum <= r < minimum + interval)
      && (day <= DayOf(maximum) && minimum <= onDay && maximum < onDay ==> maximum - interval < r <= maximum)
      && (minimum <= onDay <= maximum ==> r == onDay)
  {
    var onDay := WithTime(DayEnd(day), Hour(start), Minute(start));
    TimeOfDaySplits(start);
    assert onDay == DayStart(day) + TimeOfDay(start);
    DayOfOffset(day, TimeOfDay(start));
    DayOfMonotone(onDay, minimum);
    DayOfMonotone(maximum, onDay);
    if onDay < minimum then
      UpToMinimumBounds(onDay, minimum, interval);
      AlignedTime(onDay, Hour(minimum), Round(Minute(minimum), interval, true), interval);
      UpToMinimum(onDay, minimum, interval)
    else if onDay > maximum then
      DownToMaximumBounds(onDay, maximum, interval);
      AlignedTime(onDay, Hour(maximum), Round(Minute(maximum), interval, false), interval);
      DownToMaximum(onDay, maximum, interval)
    else onDay
  }

  /** index.tsx:770-775: with `withEndDate`, no end yet and a tapped moment not before the
      start, the tap sets the end; otherwise it sets the start and clears the end. */
  function TapSelect(tapped: int, current: Range, withEndDate: bool): (out: Range)
    ensures Ordered(out)
    ensures out.end.Some? <==> withEndDate && current.end.None? && current.start <= tapped
    ensures out.end.Some? ==> out.start == current.start && out.end.value == tapped
    ensures out.end.None? ==> out.start == tapped
  {
    if withEndDate && current.end.None? && tapped >= current.start then Range(current.start, Some(tapped))
    else Range(tapped, None)
  }

  /** With `withEndDate`, once a range is complete the next two taps select a new one:
      the first tap starts it, and the second ends it when it is not earlier. */
  lemma TwoTapsSelectRange(first: int, second: int, current: Range)
    requires current.end.Some?
    ensures TapSelect(second, TapSelect(first, current, true), true)
      == if first <= second then Range(first, Some(second)) else Range(second, None)
  {
  }

  /** The start after a time field loses focus (index.tsx:449-463). */
  function BlurredStart(start: int, minimum: int, maximum: int, interval: int): (r: int)
    requires interval > 0 && MinutesPerHour % interval == 0
    ensures r % interval == 0
    ensures SameDay(start, minimum) && start < minimum ==> minimum <= r < minimum + interval
    ensures SameDay(start, maximum) && minimum <= start && maximum < start ==> maximum - interval < r <= maximum
    ensures minimum <= start <= maximum ==> start <= r < start + interval
  {
    if start < minimum then
      UpToMinimumBounds(start, minimum, interval);
      AlignedTime(start, Hour(minimum), Round(Minute(minimum), interval, true), interval);
      UpToMinimum(start, minimum, interval)
    else if start > maximum then
      DownToMaximumBounds(start, maximum, interval);
      AlignedTime(start, Hour(maximum), Round(Minute(maximum), interval, false), interval);
      DownToMaximum(start, maximum, interval)
    else
      AlignedMinute(start, Round(Minute(start), interval, true), interval);
      WithMinutes(start, Round(Minute(start), interval, true))
  }

  /** The end after a time field loses focus (index.tsx:475-490), given the start as it
      was just set: an end before the start takes the start's clock time on its own day,
      one after the maximum the maximum's time rounded down, and any other its own time
      rounded down. */
  function BlurredEnd(end: int, start: int, maximum: int, interval: int): (r: int)
    requires interval > 0 && MinutesPerHour % interval == 0
    ensures end < start ==> DayOf(r) == DayOf(end) && TimeOfDay(r) == TimeOfDay(start)
    ensures SameDay(end, start) && end < start ==> r == start
    ensures start <= end ==> r % interval == 0
    ensures start <= end && maximum < end ==>
      DayOf(r) == DayOf(end) && Hour(r) == Hour(maximum) && Minute(r) == Round(Minute(maximum), interval, false)
    ensures SameDay(end, maximum) && start <= end && maximum < end ==> maximum - interval < r <= maximum
    ensures start <= end <= maximum ==> end - interval < r <= end
  {
    if end < start then
      WithTimeOf(end, start);
      WithTime(end, Hour(start), Minute(start))
    else if end > maximum then
      DownToMaximumBounds(end, maximum, interval);
      AlignedTime(end, Hour(maximum), Round(Minute(maximum), interval, false), interval);
      WithTimeParts(end, Hour(maximum), Round(Minute(maximum), interval, false));
      DownToMaximum(end, maximum, interval)
    else
      AlignedMinute(end, Round(Minute(end), interval, false), interval);
      WithMinutes(end, Round(Minute(end), interval, false))
  }

  /** After a blur the end is not before the start, as long as the new start did not
      pass the maximum or the end's day. */
  lemma BlurKeepsOrder(start: int, end: int, minimum: int, maximum: int, interval: int)
    requires interval > 0 && MinutesPerHour % interval == 0
    requires BlurredStart(start, minimum, maximum, interval) <= maximum
    requires DayOf(BlurredStart(start, minimum, maximum, interval)) <= DayOf(end)
    ensures var s := BlurredStart(start, minimum, maximum, interval);
      s <= BlurredEnd(end, s, maximum, interval)
  {
    var s := BlurredStart(start, minimum, maximum, interval);
    if end < s {
      TimeOfDaySplits(s);
      assert StartOfDay(s) <= StartOfDay(end);
    } else if end > maximum {
      if SameDay(end, maximum) {
        FloorIsLatestMultiple(maximum, interval, s);
        TimeOfDaySplits(maximum);
        assert DownToMaximum(end, maximum, interval) == WithMinutes(maximum, Round(Minute(maximum), interval, false));
      } else {
        var r := BlurredEnd(end, s, maximum, interval);
        DayOfMonotone(s, maximum);
        assert DayOf(s) < DayOf(r);
        assert StartOfDay(s) + MinutesPerDay <= StartOfDay(r) <= r;
      }
    } else {
      FloorIsLatestMultiple(end, interval, s);
    }
  }

  datatype TimeUnit = Hours | Minutes

  /** A value the hour or the minute picker can offer. */
  predicate InClockRange(unit: TimeUnit, value: int) {
    match unit
    case Hours => 0 <= value < 24
    case Minutes => 0 <= value < MinutesPerHour
  }

  /** `date.hours(value)` or `date.minutes(value)`: the picked field takes the value, the
      day and the other field stay. */
  function PickedDate(date: int, unit: TimeUnit, value: int): (p: int)
    ensures InClockRange(unit, value) ==> DayOf(p) == DayOf(date)
    ensures InClockRange(unit, value) && unit == Hours ==> Hour(p) == value && Minute(p) == Minute(date)
    ensures InClockRange(unit, value) && unit == Minutes ==> Hour(p) == Hour(date) && Minute(p) == value
  {
    PickedParts(date, unit, value);
    if unit == Hours then WithHours(date, value) else WithMinutes(date, value)
  }

  lemma PickedParts(date: int, unit: TimeUnit, value: int)
    ensures InClockRange(unit, value) && unit == Hours ==>
      var p := WithHours(date, value); DayOf(p) == DayOf(date) && Hour(p) == value && Minute(p) == Minute(date)
    ensures InClockRange(unit, value) && unit == Minutes ==>
      var p := WithMinutes(date, value); DayOf(p) == DayOf(date) && Hour(p) == Hour(date) && Minute(p) == value
  {
    if InClockRange(unit, value) {
      if unit == Hours {
        WithTimeParts(date, value, Minute(date));
      } else {
        WithMinutesParts(date, value);
      }
    }
  }

  /** Picking an hour or a minute for the start or the end (index.tsx:896-937): the picked
      date takes the value, and then, with `withEndDate`, an end that falls before the
      start moves to the start's clock time on its own day. */
  function PickedRange(isEnd: bool, unit: TimeUnit, value: int, current: Range, withEndDate: bool): (out: Range)
    requires isEnd ==> current.end.Some?
    ensures !isEnd ==> out.start == PickedDate(current.start, unit, value)
    ensures isEnd ==> out.start == current.start
    ensures out.end.Some? <==> current.end.Some?
    ensures current.end.Some? ==>
      var e := if isEnd then PickedDate(current.end.value, unit, value) else current.end.value;
      && (withEndDate && out.start > e ==> DayOf(out.end.value) == DayOf(e) && TimeOfDay(out.end.value) == TimeOfDay(out.start))
      && (!(withEndDate && out.start > e) ==> out.end.value == e)
  {
    var date := if isEnd then current.end.value else current.start;
    var picked := PickedDate(date, unit, value);
    var r := if isEnd then Range(current.start, Some(picked)) else Range(picked, current.end);
    if withEndDate && r.end.Some? && r.start > r.end.value then
      WithTimeOf(r.end.value, r.start);
      Range(r.start, Some(WithTime(r.end.value, Hour(r.start), Minute(r.start))))
    else r
  }

  /** Picking a time keeps the end at or after the start, as long as the end's day is not
      before the start's day. */
  lemma PickedRangeKeepsOrder(isEnd: bool, unit: TimeUnit, value: int, current: Range, withEndDate: bool)
    requires isEnd ==> current.end.Some?
    requires InClockRange(unit, value)
    requires withEndDate || current.end.None?
    requires current.end.Some? ==> DayOf(current.start) <= DayOf(current.end.value)
    ensures Ordered(PickedRange(isEnd, unit, value, current, withEndDate))
  {
    if current.end.Some? {
      var date := if isEnd then current.end.value else current.start;
      var picked := PickedDate(date, unit, value);
      var r := if isEnd then Range(current.start, Some(picked)) else Range(picked, current.end);
      assert DayOf(r.start) <= DayOf(r.end.value);
      TimeOfDaySplits(r.start);
    }
  }
}
