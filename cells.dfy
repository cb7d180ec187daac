/** Which calendar cells are disabled and which are shaded as part of the selected range
    (index.tsx:507-519, 742-746). A cell is the day it shows, as a day number counted
    from 1970-01-01 (`Moments.DayOf`), or nothing for a padding cell; the month grid
    holds days of the month instead. */
module Cells {
  import opened Options
  import opened Moments

  /** `!date || date.endOf('day') < minimumDate || date.startOf('day') > maximumDate`. */
  predicate Disabled(cell: Option<int>, minimum: int, maximum: int) {
    cell.None? || DayEnd(cell.value) < minimum || DayStart(cell.value) > maximum
  }

  /** A day cell is disabled exactly when the whole day lies before the minimum's day or
      after the maximum's day. */
  lemma {:induction false} DisabledIffOutsideDays(day: int, minimum: int, maximum: int)
    ensures Disabled(Some(day), minimum, maximum) <==> day < DayOf(minimum) || DayOf(maximum) < day
  {
    assert StartOfDay(minimum) <= minimum < StartOfDay(minimum) + MinutesPerDay;
    assert StartOfDay(maximum) <= maximum < StartOfDay(maximum) + MinutesPerDay;
  }

  /** The range test of `getDateBGColor`: an end date exists and the cell's day overlaps
      `[startDate, endDate]`. */
  predicate Highlighted(cell: Option<int>, start: int, end: Option<int>) {
    cell.Some? && end.Some? && DayEnd(cell.value) >= start && DayStart(cell.value) <= end.value
  }

  /** `getDateBGColor`: the main colour at a `44` alpha suffix on highlighted cells. */
  function DateBackground(cell: Option<int>, start: int, end: Option<int>, mainColor: string): (r: Option<string>)
    ensures r.Some? <==> Highlighted(cell, start, end)
    ensures r.Some? ==> r.value == mainColor + "44"
  {
    if cell.None? then None
    else if Highlighted(cell, start, end) then Some(mainColor + "44")
    else None
  }

  /** A day is shaded exactly when an end date exists and the day lies between the start's
      day and the end's day, both included. */
  lemma {:induction false} HighlightedIffBetweenDays(day: int, start: int, end: Option<int>)
    ensures Highlighted(Some(day), start, end) <==> end.Some? && DayOf(start) <= day <= DayOf(end.value)
  {
    assert StartOfDay(start) <= start < StartOfDay(start) + MinutesPerDay;
    if end.Some? {
      assert StartOfDay(end.value) <= end.value < StartOfDay(end.value) + MinutesPerDay;
    }
  }
}
