/** Moments of time as whole minutes since 1970-01-01 00:00, and the handful of
    `moment` setters and getters the picker uses, stated as integer arithmetic. */
module Moments {
  import opened Arith

  const MinutesPerHour: int := 60
  const MinutesPerDay: int := 1440

  /** The day a moment falls on, counted from 1970-01-01 (negative before it). */
  function DayOf(t: int): int {
    t / MinutesPerDay
  }

  /** The first minute of a day given by its number. */
  function DayStart(day: int): int {
    day * MinutesPerDay
  }

  /** The last minute of a day given by its number (`endOf('day')`). */
  function DayEnd(day: int): (e: int)
    ensures DayOf(e) == day && e - DayStart(day) == MinutesPerDay - 1
  {
    DayStart(day) + MinutesPerDay - 1
  }

  /** `clone().startOf('day')`. */
  function StartOfDay(t: int): (s: int)
    ensures s <= t < s + MinutesPerDay
    ensures DayOf(s) == DayOf(t) && s % MinutesPerHour == 0
  {
    var day := DayOf(t);
    DivModUnique(DayStart(day), MinutesPerDay, day, 0);
    DivModUnique(DayStart(day), MinutesPerHour, day * 24, 0);
    DayStart(day)
  }

  /** Minutes elapsed since the start of the moment's day. */
  function TimeOfDay(t: int): (m: int)
    ensures 0 <= m < MinutesPerDay && t == StartOfDay(t) + m
  {
    t % MinutesPerDay
  }

  /** `hours()` / `hour()`. */
  function Hour(t: int): (h: int)
    ensures 0 <= h < 24
  {
    TimeOfDay(t) / MinutesPerHour
  }

  /** `minutes()` / `minute()`. */
  function Minute(t: int): (m: int)
    ensures 0 <= m < MinutesPerHour
  {
    t % MinutesPerHour
  }

  /** The time of day splits into the hour and the minute. */
  lemma TimeOfDaySplits(t: int)
    ensures TimeOfDay(t) == Hour(t) * MinutesPerHour + Minute(t)
  {
    var q := t / MinutesPerDay;
    var r := TimeOfDay(t);
    assert t == q * 1440 + r;
    assert t == (q * 24 + r / 60) * 60 + r % 60;
    assert Minute(t) == r % 60;
  }

  /** A minute count within a day's length after a day's start falls on that day. */
  lemma DayOfOffset(day: int, m: int)
    requires 0 <= m < MinutesPerDay
    ensures DayOf(DayStart(day) + m) == day
  {
  }

  /** Later moments never fall on earlier days. */
  lemma DayOfMonotone(a: int, b: int)
    ensures a <= b ==> DayOf(a) <= DayOf(b)
  {
  }

  /** `set({ hours, minutes })`: keeps the day and puts the given clock time on it;
      minute values of 60 or more roll into the next hour as they do in `moment`. */
  function WithTime(t: int, hours: int, minutes: int): int {
    StartOfDay(t) + hours * MinutesPerHour + minutes
  }

  /** `minutes(m)` / `set({ minutes })`: keeps the day and the hour. */
  function WithMinutes(t: int, minutes: int): int {
    t - Minute(t) + minutes
  }

  /** `hours(h)`: keeps the day and the minute. */
  function WithHours(t: int, hours: int): int {
    WithTime(t, hours, Minute(t))
  }

  /** `set({ date, month, year })` copied from `from`: keeps the clock time of `t`. */
  function WithDate(t: int, from: int): int {
    StartOfDay(from) + TimeOfDay(t)
  }

  /** Two moments print the same `DD.MM.YYYY`. */
  predicate SameDay(a: int, b: int) {
    DayOf(a) == DayOf(b)
  }

  lemma WithTimeParts(t: int, hours: int, minutes: int)
    requires 0 <= hours < 24 && 0 <= minutes < MinutesPerHour
    ensures var r := WithTime(t, hours, minutes);
      DayOf(r) == DayOf(t) && Hour(r) == hours && Minute(r) == minutes
  {
    var r := WithTime(t, hours, minutes);
    var tod := hours * MinutesPerHour + minutes;
    assert 0 <= tod < MinutesPerDay;
    assert r == DayOf(t) * MinutesPerDay + tod;
    assert DayOf(r) == DayOf(t) && TimeOfDay(r) == tod;
    TimeOfDaySplits(r);
  }

  lemma WithMinutesParts(t: int, minutes: int)
    requires 0 <= minutes < MinutesPerHour
    ensures var r := WithMinutes(t, minutes);
      DayOf(r) == DayOf(t) && Hour(r) == Hour(t) && Minute(r) == minutes
  {
    TimeOfDaySplits(t);
    assert WithMinutes(t, minutes) == WithTime(t, Hour(t), minutes);
    WithTimeParts(t, Hour(t), minutes);
  }

  /** `set({ hours: other.hours(), minutes: other.minutes() })`: the moment keeps its day
      and takes the other moment's clock time. */
  lemma WithTimeOf(t: int, other: int)
    ensures var r := WithTime(t, Hour(other), Minute(other));
      DayOf(r) == DayOf(t) && TimeOfDay(r) == TimeOfDay(other)
  {
    var r := WithTime(t, Hour(other), Minute(other));
    WithTimeParts(t, Hour(other), Minute(other));
    TimeOfDaySplits(r);
    TimeOfDaySplits(other);
  }
}
