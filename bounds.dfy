/** Keeping the selected dates between the minimum and the maximum date
    (index.tsx:263-296, 343-358, 411-425). */
module Bounds {
  import opened Options
  import opened Moments

  /** `new Date('1900')` and `new Date('2100')`, the limits used when no
      `minimumDate` / `maximumDate` is given (index.tsx:97-100). */
  const DefaultMinimum: int := -25567 * MinutesPerDay
  const DefaultMaximum: int := 47482 * MinutesPerDay

  /** `props.minimumDate ? moment(props.minimumDate) : moment(limit)`. */
  function BoundOrDefault(prop: Option<int>, default: int): int {
    prop.GetOr(default)
  }

  /** Without props the minimum is 1900-01-01 and the maximum 2100-01-01, both at midnight. */
  lemma DefaultBounds()
    ensures BoundOrDefault(None, DefaultMinimum) < BoundOrDefault(None, DefaultMaximum)
    ensures TimeOfDay(DefaultMinimum) == 0 && TimeOfDay(DefaultMaximum) == 0
  {
  }

  /** A date too early becomes the minimum, one too late the maximum (index.tsx:274-278,
      344-348); the end date is clamped the same way between the start and the maximum
      (index.tsx:288-292, 351-355). */
  function ClampDate(date: int, minimum: int, maximum: int): (r: int)
    ensures minimum <= maximum ==> minimum <= r <= maximum
    ensures minimum <= date <= maximum ==> r == date
    ensures r == date || r == minimum || r == maximum
  {
    if date < minimum then minimum
    else if date > maximum then maximum
    else date
  }

  /** With ordered bounds the clamped date is the allowed date closest to the given one. */
  lemma ClampIsNearest(date: int, minimum: int, maximum: int, other: int)
    requires minimum <= other <= maximum
    ensures var r := ClampDate(date, minimum, maximum);
      (if r <= date then date - r else r - date) <= (if other <= date then date - other else other - date)
  {
  }

  /** Clamping an allowed date again changes nothing. */
  lemma ClampIdempotent(date: int, minimum: int, maximum: int)
    requires minimum <= maximum
    ensures ClampDate(ClampDate(date, minimum, maximum), minimum, maximum) == ClampDate(date, minimum, maximum)
  {
  }

  /** The initial end date (index.tsx:283-296): present only when both `withEndDate` and
      `endDate` are given, and then clamped between the start and the maximum. */
  function InitialEnd(endProp: Option<int>, withEndDate: bool, start: int, maximum: int): (r: Option<int>)
    ensures r.Some? <==> endProp.Some? && withEndDate
    ensures r.Some? && start <= maximum ==> start <= r.value <= maximum
    ensures r.Some? && start <= endProp.value <= maximum ==> r.value == endProp.value
    ensures r.Some? && endProp.value < start ==> r.value == start
    ensures r.Some? && start <= endProp.value && maximum < endProp.value ==> r.value == maximum
  {
    if endProp.Some? && withEndDate then Some(ClampDate(endProp.value, start, maximum)) else None
  }

  /** A selected range: the start date and the end date, if any. */
  datatype Range = Range(start: int, end: Option<int>)

  predicate Ordered(r: Range) {
    r.end.None? || r.start <= r.end.value
  }

  predicate Within(r: Range, minimum: int, maximum: int) {
    minimum <= r.start <= maximum && (r.end.Some? ==> r.end.value <= maximum)
  }

  /** The effect at index.tsx:343-358 as written: the start is clamped, and the end is
      compared with the start as it was BEFORE the clamp, because the state update from
      the same effect is not visible yet. */
  function ReclampAsWritten(r: Range, minimum: int, maximum: int): (out: Range)
    ensures minimum <= maximum ==> minimum <= out.start <= maximum
    ensures r.start < minimum ==> out.start == minimum
    ensures minimum <= r.start && maximum < r.start ==> out.start == maximum
    ensures minimum <= r.start <= maximum ==> out.start == r.start
    ensures out.end.Some? <==> r.end.Some?
    ensures r.end.Some? && r.start <= maximum ==> out.end.value <= maximum
    ensures r.end.Some? && r.end.value < r.start ==> out.end.value == r.start
    ensures r.end.Some? && r.start <= r.end.value && maximum < r.end.value ==> out.end.value == maximum
    ensures r.end.Some? && r.start <= r.end.value <= maximum ==> out.end.value == r.end.value
  {
    Range(ClampDate(r.start, minimum, maximum),
          if r.end.Some? then Some(ClampDate(r.end.value, r.start, maximum)) else None)
  }

  /** Raising the minimum past both dates of an ordered range leaves the end before the
      new start. */
  lemma ReclampAsWrittenUnorders()
    ensures Ordered(Range(0, Some(5)))
    ensures ReclampAsWritten(Range(0, Some(5)), 10, 100) == Range(10, Some(5))
    ensures !Ordered(ReclampAsWritten(Range(0, Some(5)), 10, 100))
  {
  }

  /** The same effect with the end compared against the clamped start. */
  function Reclamp(r: Range, minimum: int, maximum: int): (out: Range)
    ensures out.end.Some? <==> r.end.Some?
    ensures minimum <= maximum ==> Ordered(out) && Within(out, minimum, maximum)
    ensures Within(r, minimum, maximum) && Ordered(r) ==> out == r
    ensures r.start < minimum ==> out.start == minimum
    ensures minimum <= r.start && maximum < r.start ==> out.start == maximum
    ensures minimum <= r.start <= maximum ==> out.start == r.start
    ensures r.end.Some? && r.end.value < out.start ==> out.end.value == out.start
    ensures r.end.Some? && out.start <= r.end.value && maximum < r.end.value ==> out.end.value == maximum
    ensures r.end.Some? && out.start <= r.end.value <= maximum ==> out.end.value == r.end.value
  {
    var start := ClampDate(r.start, minimum, maximum);
    Range(start, if r.end.Some? then Some(ClampDate(r.end.value, start, maximum)) else None)
  }

  /** The day shown by the calendar is moved onto the minimum's or the maximum's day when
      it lies outside them, keeping its clock time (index.tsx:411-425). */
  function ClampCalendarDay(current: int, minimum: int, maximum: int): (r: int)
    ensures TimeOfDay(r) == TimeOfDay(current)
    ensures DayOf(minimum) <= DayOf(maximum) ==> DayOf(minimum) <= DayOf(r) <= DayOf(maximum)
    ensures DayOf(minimum) <= DayOf(current) <= DayOf(maximum) ==> r == current
    ensures DayOf(minimum) <= DayOf(maximum) && DayOf(current) < DayOf(minimum) ==> DayOf(r) == DayOf(minimum)
    ensures DayOf(minimum) <= DayOf(maximum) && DayOf(maximum) < DayOf(current) ==> DayOf(r) == DayOf(maximum)
  {
    var afterMinimum := if minimum > current then WithDate(current, minimum) else current;
    if maximum < afterMinimum then WithDate(afterMinimum, maximum) else afterMinimum
  }
}
