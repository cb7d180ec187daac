/** The picker's date state (index.tsx:262-296) and the handlers that change it in place:
    the mount-time snap to the interval, the re-clamp when the bounds change, the
    calendar refresh, the tap on a day, the end of time editing and a pick in the time
    wheel. */
module Picker {
  import opened Options
  import opened Moments
  import opened Rounding
  import opened Bounds
  import opened Cells
  import opened MonthGrid
  import opened Selection

  datatype Mode = Date | Time | DateTime

  /** `props.mode || 'date'`. */
  function ModeOrDefault(prop: Option<Mode>): Mode {
    prop.GetOr(Date)
  }

  class DatePicker {
    var minimum: int
    var maximum: int
    const interval: int
    const withEndDate: bool
    /** The date whose month the calendar shows. */
    var current: int
    var start: int
    var end: Option<int>
    /** The month grid last built by `ChangeCalendar`. */
    var days: seq<Column>

    ghost predicate Valid()
      reads this
    {
      && 0 < interval && MinutesPerHour % interval == 0
      && (!withEndDate ==> end.None?)
    }

    function Selected(): Range
      reads this
    {
      Range(start, end)
    }

    /** The dates handed to `onDateChange` and `onConfirm` (index.tsx:360-369, 393-401,
        1097): the end only with `withEndDate`. In every valid state these are exactly the
        selected dates, so the guard never drops an end while `withEndDate` keeps the value
        the picker was built with. */
    function Reported(): (r: Range)
      reads this
      ensures r.start == start
      ensures r.end.Some? ==> withEndDate && r.end == end
      ensures Valid() ==> r == Selected()
    {
      if withEndDate && end.Some? then Range(start, end) else Range(start, None)
    }

    /** The initial state (index.tsx:262-297): the bounds default to 1900 and 2100, the
        shown date is the given one (or now) clamped into the bounds, the start is a copy
        of it, and the end is present only with both `withEndDate` and `endDate`. */
    constructor (date: Option<int>, now: int, endDate: Option<int>, withEndDate: bool,
                 minimumDate: Option<int>, maximumDate: Option<int>,
                 noInterval: bool, minuteInterval: Option<int>)
      requires minuteInterval.Some? ==> IsMinuteIntervalProp(minuteInterval.value)
      ensures Valid()
      ensures minimum == BoundOrDefault(minimumDate, DefaultMinimum)
      ensures maximum == BoundOrDefault(maximumDate, DefaultMaximum)
      ensures interval == MinuteInterval(noInterval, minuteInterval)
      ensures this.withEndDate == withEndDate
      ensures current == ClampDate(date.GetOr(now), minimum, maximum) && start == current
      ensures end == InitialEnd(endDate, withEndDate, start, maximum)
      ensures days == []
    {
      var lo := BoundOrDefault(minimumDate, DefaultMinimum);
      var hi := BoundOrDefault(maximumDate, DefaultMaximum);
      var d := date.GetOr(now);
      if d < lo {
        d := lo;
      } else if d > hi {
        d := hi;
      }
      minimum, maximum := lo, hi;
      interval := MinuteInterval(noInterval, minuteInterval);
      this.withEndDate := withEndDate;
      current := d;
      start := d;
      end := InitialEnd(endDate, withEndDate, d, hi);
      days := [];
    }

    /** The first half of the mount effect (index.tsx:306-327): with an interval other
        than 1 the start's minutes, and the end's when there is one, are rounded to the
        interval, upwards on the minimum's day. */
    method SnapSelection()
      requires Valid()
      modifies this
      ensures Valid()
      ensures start == SnapToInterval(old(start), minimum, interval)
      ensures end == if old(end).Some? && withEndDate then Some(SnapToInterval(old(end).value, minimum, interval)) else old(end)
      ensures minimum <= old(start) ==> minimum <= start
      ensures Ordered(old(Selected())) ==> Ordered(Selected())
      ensures unchanged(this`minimum, this`maximum, this`current, this`days)
    {
      var before := Selected();
      if interval != 1 {
        start := WithMinutes(start, Round(Minute(start), interval, SameDay(start, minimum)));
        if end.Some? && withEndDate {
          end := Some(WithMinutes(end.value, Round(Minute(end.value), interval, SameDay(end.value, minimum))));
        }
      }
      if minimum <= before.start {
        SnapKeepsMinimum(before.start, minimum, interval);
      }
      if before.end.Some? && before.start <= before.end.value {
        SnapMonotone(before.start, before.end.value, minimum, interval);
      }
    }

    /** The mount effect (index.tsx:262, 306-335): the snap, then the calendar for the date
        modes (`props.mode || 'date'`), or an end equal to the start for the time mode with
        `withEndDate`. */
    method Mount(modeProp: Option<Mode>, firstWeekday: int, daysInMonth: int)
      requires Valid() && IsMonthShape(firstWeekday, daysInMonth)
      modifies this
      ensures Valid()
      ensures unchanged(this`minimum, this`maximum)
      ensures start == SnapToInterval(old(start), minimum, interval)
      ensures ModeOrDefault(modeProp) == Time && withEndDate ==> end == Some(start)
      ensures !(ModeOrDefault(modeProp) == Time && withEndDate) ==>
        end == if old(end).Some? && withEndDate then Some(SnapToInterval(old(end).value, minimum, interval)) else old(end)
      ensures ModeOrDefault(modeProp) != Time ==>
        && current == ClampCalendarDay(old(current), minimum, maximum)
        && |days| == 7 && forall j :: 0 <= j < 7 ==> days[j] == GridColumn(j, firstWeekday, daysInMonth)
      ensures ModeOrDefault(modeProp) == Time ==> current == old(current) && days == old(days)
      ensures minimum <= old(start) ==> minimum <= start
    {
      var mode := ModeOrDefault(modeProp);
      SnapSelection();
      if mode == Date || mode == DateTime {
        ChangeCalendar(firstWeekday, daysInMonth);
      } else if mode == Time && withEndDate {
        end := Some(start);
      }
    }

    /** The bounds change (index.tsx:343-358): the start is clamped into them and the end
        between the start and the maximum. The end is compared with the clamped start;
        see `Bounds.ReclampAsWritten` for the comparison as the source writes it. */
    method ChangeBounds(minimumDate: Option<int>, maximumDate: Option<int>)
      requires Valid()
      modifies this
      ensures Valid()
      ensures minimum == BoundOrDefault(minimumDate, DefaultMinimum)
      ensures maximum == BoundOrDefault(maximumDate, DefaultMaximum)
      ensures Selected() == Reclamp(old(Selected()), minimum, maximum)
      ensures minimum <= maximum ==> Ordered(Selected()) && Within(Selected(), minimum, maximum)
      ensures unchanged(this`current, this`days)
    {
      var lo := BoundOrDefault(minimumDate, DefaultMinimum);
      var hi := BoundOrDefault(maximumDate, DefaultMaximum);
      var s, e := start, end;
      if s < lo {
        s := lo;
      } else if s > hi {
        s := hi;
      }
      if e.Some? {
        if e.value < s {
          e := Some(s);
        } else if e.value > hi {
          e := Some(hi);
        }
      }
      minimum, maximum, start, end := lo, hi, s, e;
    }

    /** `onChangeCalendar` (index.tsx:410-446): the shown date moves into the bounds'
        days, then the grid of its month is built. */
    method ChangeCalendar(firstWeekday: int, daysInMonth: int)
      requires Valid() && IsMonthShape(firstWeekday, daysInMonth)
      modifies this
      ensures Valid()
      ensures current == ClampCalendarDay(old(current), minimum, maximum)
      ensures DayOf(minimum) <= DayOf(maximum) ==> DayOf(minimum) <= DayOf(current) <= DayOf(maximum)
      ensures |days| == 7 && forall j :: 0 <= j < 7 ==> days[j] == GridColumn(j, firstWeekday, daysInMonth)
      ensures unchanged(this`minimum, this`maximum, this`start, this`end)
    {
      if minimum > current {
        current := WithDate(current, minimum);
      }
      if maximum < current {
        current := WithDate(current, maximum);
      }
      days := BuildGrid(firstWeekday, daysInMonth);
    }

    /** The chevrons and the month and year pickers (index.tsx:606-609, 628-631,
        668-671, 711-714, 820-823, 832-835): the shown date is moved by `moment` month or
        year arithmetic, supplied here as `moved`, and the calendar is refreshed. */
    method Navigate(moved: int, firstWeekday: int, daysInMonth: int)
      requires Valid() && IsMonthShape(firstWeekday, daysInMonth)
      modifies this
      ensures Valid()
      ensures current == ClampCalendarDay(moved, minimum, maximum)
      ensures |days| == 7 && forall j :: 0 <= j < 7 ==> days[j] == GridColumn(j, firstWeekday, daysInMonth)
      ensures unchanged(this`minimum, this`maximum, this`start, this`end)
    {
      current := moved;
      ChangeCalendar(firstWeekday, daysInMonth);
    }

    /** `onBlurTime` (index.tsx:448-502): the start is moved into the bounds or rounded up
        to the interval, then the end is kept after it and rounded down. */
    method BlurTime()
      requires Valid()
      modifies this
      ensures Valid()
      ensures start == BlurredStart(old(start), minimum, maximum, interval)
      ensures end == if withEndDate && old(end).Some? then Some(BlurredEnd(old(end).value, start, maximum, interval)) else old(end)
      ensures unchanged(this`minimum, this`maximum, this`current, this`days)
    {
      if start < minimum {
        start := WithTime(start, Hour(minimum), Round(Minute(minimum), interval, true));
      } else if start > maximum {
        start := WithTime(start, Hour(maximum), Round(Minute(maximum), interval, false));
      } else {
        start := WithMinutes(start, Round(Minute(start), interval, true));
      }
      if withEndDate && end.Some? {
        var e := end.value;
        if e < start {
          e := WithTime(e, Hour(start), Minute(start));
        } else if e > maximum {
          e := WithTime(e, Hour(maximum), Round(Minute(maximum), interval, false));
        } else {
          e := WithMinutes(e, Round(Minute(e), interval, false));
        }
        end := Some(e);
      }
    }

    /** The tap on an enabled day (index.tsx:747-776); `day` is a day number counted from
        1970-01-01 (`Moments.DayOf`), not a day of the month. */
    method TapDay(day: int)
      requires Valid() && !Disabled(Some(day), minimum, maximum)
      modifies this
      ensures Valid()
      ensures Selected() == TapSelect(TappedMoment(day, old(start), minimum, maximum, interval), old(Selected()), withEndDate)
      ensures Ordered(Selected())
      ensures unchanged(this`minimum, this`maximum, this`current, this`days)
    {
      var tapped := WithTime(DayEnd(day), Hour(start), Minute(start));
      if tapped < minimum {
        tapped := WithTime(tapped, Hour(minimum), Round(Minute(minimum), interval, true));
      } else if tapped > maximum {
        tapped := WithTime(tapped, Hour(maximum), Round(Minute(maximum), interval, false));
      }
      if withEndDate && end.None? && tapped >= start {
        end := Some(tapped);
      } else {
        start := tapped;
        end := None;
      }
    }

    /** A value picked in the start's or the end's hour or minute wheel
        (index.tsx:896-937). */
    method PickTime(isEnd: bool, unit: TimeUnit, value: int)
      requires Valid() && (isEnd ==> end.Some?)
      modifies this
      ensures Valid()
      ensures Selected() == PickedRange(isEnd, unit, value, old(Selected()), withEndDate)
      ensures InClockRange(unit, value) && (old(end).Some? ==> DayOf(old(start)) <= DayOf(old(end).value))
              ==> Ordered(Selected())
      ensures unchanged(this`minimum, this`maximum, this`current, this`days)
    {
      ghost var before := Selected();
      if isEnd {
        end := Some(PickedDate(end.value, unit, value));
      } else {
        start := PickedDate(start, unit, value);
      }
      if withEndDate && end.Some? && start > end.value {
        end := Some(WithTime(end.value, Hour(start), Minute(start)));
      }
      if InClockRange(unit, value) && (before.end.Some? ==> DayOf(before.start) <= DayOf(before.end.value)) {
        PickedRangeKeepsOrder(isEnd, unit, value, before, withEndDate);
      }
    }
  }
}
