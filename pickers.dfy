/** The option lists of the month, year, hour and minute pickers (index.tsx:543-595,
    841-886). */
module Pickers {
  import opened Options
  import opened Moments
  import opened Rounding
  import opened Decimal
  import opened Locale

  /** A picker entry `{ value, label }` (`label` is a Dafny keyword, so the field is `text`). */
  datatype Item = Item(value: int, text: string)

  /** The values of a list of entries, in order. */
  function Values(items: seq<Item>): (r: seq<int>)
    ensures |r| == |items| && forall i :: 0 <= i < |items| ==> r[i] == items[i].value
  {
    if items == [] then [] else [items[0].value] + Values(items[1..])
  }

  lemma ValuesAppend(items: seq<Item>, item: Item)
    ensures Values(items + [item]) == Values(items) + [item.value]
  {
  }

  /** The values of the entries ascend strictly. */
  predicate Ascending(items: seq<Item>) {
    forall i, j :: 0 <= i < j < |items| ==> items[i].value < items[j].value
  }

  lemma AscendingAppend(items: seq<Item>, item: Item)
    requires Ascending(items) && forall i :: 0 <= i < |items| ==> items[i].value < item.value
    ensures Ascending(items + [item])
  {
    var s := items + [item];
    forall i, j | 0 <= i < j < |s|
      ensures s[i].value < s[j].value
    {
      assert s[i] == items[i];
      if j < |items| {
        assert s[j] == items[j];
      }
    }
  }

  /** The test of index.tsx:558-565: a month is left out when the shown year is the
      minimum's year and the month comes before the minimum's month, or the shown year is
      the maximum's year and the month comes after the maximum's month. */
  predicate MonthOffered(month: int, year: int, minYear: int, minMonth: int, maxYear: int, maxMonth: int) {
    !((year == minYear && month < minMonth) || (year == maxYear && month > maxMonth))
  }

  /** The month names as `getItem` translates them, January first. */
  function MonthLabels(lang: Language): (r: seq<string>)
    ensures |r| == 12 && forall m :: 0 <= m < 12 ==> r[m] == GetItem(lang, MonthNames[m])
  {
    seq(12, m requires 0 <= m < 12 => GetItem(lang, MonthNames[m]))
  }

  /** The `reduce` of index.tsx:557-569 after its first `n` months, with `labels` the
      translated month names. */
  function MonthItems(n: int, labels: seq<string>, year: int, minYear: int, minMonth: int, maxYear: int, maxMonth: int): (r: seq<Item>)
    requires 0 <= n <= 12 && |labels| == 12
    ensures forall i :: 0 <= i < |r| ==> 0 <= r[i].value < n
    ensures forall i :: 0 <= i < |r| ==> MonthOffered(r[i].value, year, minYear, minMonth, maxYear, maxMonth)
    ensures forall i :: 0 <= i < |r| ==> r[i].text == labels[r[i].value]
    decreases n
  {
    if n == 0 then []
    else
      var prev := MonthItems(n - 1, labels, year, minYear, minMonth, maxYear, maxMonth);
      if MonthOffered(n - 1, year, minYear, minMonth, maxYear, maxMonth)
      then prev + [Item(n - 1, labels[n - 1])]
      else prev
  }

  /** The months come out in ascending order. */
  lemma {:induction false} MonthItemsAscending(n: int, labels: seq<string>, year: int, minYear: int, minMonth: int, maxYear: int, maxMonth: int)
    requires 0 <= n <= 12 && |labels| == 12
    ensures Ascending(MonthItems(n, labels, year, minYear, minMonth, maxYear, maxMonth))
    decreases n
  {
    if n > 0 {
      MonthItemsAscending(n - 1, labels, year, minYear, minMonth, maxYear, maxMonth);
      if MonthOffered(n - 1, year, minYear, minMonth, maxYear, maxMonth) {
        AscendingAppend(MonthItems(n - 1, labels, year, minYear, minMonth, maxYear, maxMonth), Item(n - 1, labels[n - 1]));
      }
    }
  }

  /** Every allowed month among the first `n` is listed. */
  lemma {:induction false} MonthItemsComplete(n: int, labels: seq<string>, year: int, minYear: int, minMonth: int, maxYear: int, maxMonth: int)
    requires 0 <= n <= 12 && |labels| == 12
    ensures forall m :: 0 <= m < n && MonthOffered(m, year, minYear, minMonth, maxYear, maxMonth) ==>
      m in Values(MonthItems(n, labels, year, minYear, minMonth, maxYear, maxMonth))
    decreases n
  {
    if n > 0 {
      MonthItemsComplete(n - 1, labels, year, minYear, minMonth, maxYear, maxMonth);
      var prev := MonthItems(n - 1, labels, year, minYear, minMonth, maxYear, maxMonth);
      var r := MonthItems(n, labels, year, minYear, minMonth, maxYear, maxMonth);
      if MonthOffered(n - 1, year, minYear, minMonth, maxYear, maxMonth) {
        ValuesAppend(prev, Item(n - 1, labels[n - 1]));
        assert Values(r) == Values(prev) + [n - 1];
      } else {
        assert r == prev;
      }
      forall m | 0 <= m < n && MonthOffered(m, year, minYear, minMonth, maxYear, maxMonth)
        ensures m in Values(r)
      {
        if m < n - 1 {
          assert m in Values(prev);
        }
      }
    }
  }

  /** `getMonths()`: the months the shown year allows, January first, labelled in the
      current language. */
  function GetMonths(language: Option<Language>, year: int, minYear: int, minMonth: int, maxYear: int, maxMonth: int): (r: seq<Item>)
    ensures forall m :: m in Values(r) <==> 0 <= m < 12 && MonthOffered(m, year, minYear, minMonth, maxYear, maxMonth)
    ensures Ascending(r)
    ensures forall i :: 0 <= i < |r| ==> 0 <= r[i].value < 12 && r[i].text == GetItem(CurrentLanguage(language), MonthNames[r[i].value])
  {
    var labels := MonthLabels(CurrentLanguage(language));
    MonthItemsAscending(12, labels, year, minYear, minMonth, maxYear, maxMonth);
    MonthItemsComplete(12, labels, year, minYear, minMonth, maxYear, maxMonth);
    MonthItems(12, labels, year, minYear, minMonth, maxYear, maxMonth)
  }

  /** When the shown month lies between the minimum's and the maximum's month, the month
      picker offers it. */
  lemma ShownMonthOffered(language: Option<Language>, year: int, month: int, minYear: int, minMonth: int, maxYear: int, maxMonth: int)
    requires 0 <= month < 12
    requires minYear < year || (minYear == year && minMonth <= month)
    requires year < maxYear || (year == maxYear && month <= maxMonth)
    ensures month in Values(GetMonths(language, year, minYear, minMonth, maxYear, maxMonth))
  {
  }

  /** A year the year picker may list: between the minimum's and the maximum's years,
      and on a Mac within five years of the shown year. */
  predicate AllowedYear(mac: bool, year: int, minYear: int, maxYear: int, y: int) {
    minYear <= y <= maxYear && (mac ==> year - 5 <= y <= year + 5)
  }

  /** The bounds of the year list (index.tsx:574-588): the minimum's and the maximum's
      years, or five years either side of the shown year on a Mac, never outside the
      minimum's and the maximum's years. */
  function YearRange(mac: bool, year: int, minYear: int, maxYear: int): (r: (int, int))
    ensures minYear <= r.0 && r.1 <= maxYear
    ensures mac ==> year - 5 <= r.0 && r.1 <= year + 5
    ensures minYear <= year <= maxYear ==> r.0 <= year <= r.1
    ensures !mac ==> r == (minYear, maxYear)
    ensures forall y :: AllowedYear(mac, year, minYear, maxYear, y) ==> r.0 <= y <= r.1
  {
    var lo := if mac then year - 5 else minYear;
    var hi := if mac then year + 5 else maxYear;
    (if lo < minYear then minYear else lo, if hi > maxYear then maxYear else hi)
  }

  /** `getYears()`: one entry per year of the range, ascending, labelled with its number. */
  method GetYears(mac: bool, year: int, minYear: int, maxYear: int) returns (years: seq<Item>)
    ensures var (lo, hi) := YearRange(mac, year, minYear, maxYear);
      |years| == (if lo <= hi then hi - lo + 1 else 0) &&
      forall i :: 0 <= i < |years| ==> years[i].value == lo + i
    ensures forall i :: 0 <= i < |years| ==> years[i].text == IntToString(years[i].value)
    ensures forall i :: 0 <= i < |years| ==> minYear <= years[i].value <= maxYear
    ensures minYear <= year <= maxYear ==> year in Values(years)
    ensures forall y :: y in Values(years) <==> AllowedYear(mac, year, minYear, maxYear, y)
  {
    var (lo, hi) := YearRange(mac, year, minYear, maxYear);
    years := [];
    var y := lo;
    while y <= hi
      invariant lo <= y <= (if lo <= hi then hi + 1 else lo)
      invariant |years| == y - lo
      invariant forall i :: 0 <= i < |years| ==> years[i].value == lo + i
      invariant forall i :: 0 <= i < |years| ==> years[i].text == IntToString(years[i].value)
    {
      years := years + [Item(y, IntToString(y))];
      y := y + 1;
    }
    RangeListsAllowedYears(mac, year, minYear, maxYear, years);
  }

  /** The consecutive years of the range are exactly the allowed years. */
  lemma RangeListsAllowedYears(mac: bool, year: int, minYear: int, maxYear: int, years: seq<Item>)
    requires var (lo, hi) := YearRange(mac, year, minYear, maxYear);
      |years| == (if lo <= hi then hi - lo + 1 else 0) &&
      forall i :: 0 <= i < |years| ==> years[i].value == lo + i
    ensures forall y :: y in Values(years) <==> AllowedYear(mac, year, minYear, maxYear, y)
  {
    var (lo, hi) := YearRange(mac, year, minYear, maxYear);
    forall y | AllowedYear(mac, year, minYear, maxYear, y)
      ensures y in Values(years)
    {
      assert Values(years)[y - lo] == y;
    }
  }

  /** The limits the time picker starts from (index.tsx:844-868). */
  datatype TimeLimits = TimeLimits(minHour: int, maxHour: int, minMinute: int, maxMinute: int)

  /** The limits for the start's (or, with `isEnd`, the end's) time picker: the whole day,
      narrowed on the minimum's day and on the maximum's day, and for an end on the
      start's day starting at the start's hour. */
  function TimePickerLimits(isEnd: bool, start: int, end: Option<int>, minimum: int, maximum: int, interval: int): (b: TimeLimits)
    requires interval > 0 && MinutesPerHour % interval == 0
    requires isEnd ==> end.Some?
    ensures 0 <= b.minHour && b.maxHour <= 23 && 0 <= b.minMinute <= MinutesPerHour && b.maxMinute <= 59
    ensures var date := if isEnd then end.value else start;
      !(isEnd && SameDay(start, end.value)) && SameDay(date, minimum) ==>
        b.minHour == Hour(minimum) && Minute(minimum) <= b.minMinute < Minute(minimum) + interval && b.minMinute % interval == 0
    ensures var date := if isEnd then end.value else start;
      !(isEnd && SameDay(start, end.value)) && !SameDay(date, minimum) ==> b.minHour == 0 && b.minMinute == 0
    ensures var date := if isEnd then end.value else start;
      SameDay(date, maximum) ==> b.maxHour == Hour(maximum) && b.maxMinute == Minute(maximum)
    ensures var date := if isEnd then end.value else start;
      !SameDay(date, maximum) ==> b.maxHour == 23 && b.maxMinute == 59
    ensures isEnd && SameDay(start, end.value) ==>
      b.minHour == Hour(start) && b.minMinute == (if Hour(start) >= Hour(end.value) then Minute(start) else 0)
  {
    var date := if isEnd then end.value else start;
    var whole := TimeLimits(0, 23, 0, 59);
    var fromMinimum := if SameDay(date, minimum)
      then (RoundUpMinuteReachesAtMostSixty(Minute(minimum), interval);
            whole.(minHour := Hour(minimum), minMinute := Round(Minute(minimum), interval, true)))
      else whole;
    var toMaximum := if SameDay(date, maximum)
      then fromMinimum.(maxHour := Hour(maximum), maxMinute := Minute(maximum))
      else fromMinimum;
    if isEnd && SameDay(start, end.value)
    then toMaximum.(minHour := Hour(start), minMinute := if Hour(start) >= Hour(end.value) then Minute(start) else 0)
    else toMaximum
  }

  /** The hour list (index.tsx:870-875): every hour from `minHour` to `maxHour`. */
  method HourOptions(minHour: int, maxHour: int) returns (hours: seq<Item>)
    ensures |hours| == (if minHour <= maxHour then maxHour - minHour + 1 else 0)
    ensures forall i :: 0 <= i < |hours| ==> hours[i] == Item(minHour + i, TwoDigitLabel(minHour + i))
  {
    hours := [];
    var hour := minHour;
    while hour <= maxHour
      invariant minHour <= hour <= (if minHour <= maxHour then maxHour + 1 else minHour)
      invariant |hours| == hour - minHour
      invariant forall i :: 0 <= i < |hours| ==> hours[i] == Item(minHour + i, TwoDigitLabel(minHour + i))
    {
      hours := hours + [Item(hour, TwoDigitLabel(hour))];
      hour := hour + 1;
    }
  }

  /** The value the minute loop visits after the entries already in the list. */
  function NextMinute(minutes: seq<Item>, minMinute: int, interval: int): int {
    if |minutes| == 0 then minMinute else minutes[|minutes| - 1].value + interval
  }

  /** The minute list (index.tsx:877-886): `minMinute`, then every interval after it, as
      long as the value does not pass `maxMinute`. */
  method MinuteOptions(minMinute: int, maxMinute: int, interval: int) returns (minutes: seq<Item>)
    requires interval > 0
    ensures |minutes| > 0 ==> minutes[0].value == minMinute
    ensures forall i, j :: 0 <= i && j == i + 1 && j < |minutes| ==> minutes[j].value == minutes[i].value + interval
    ensures forall i :: 0 <= i < |minutes| ==> minutes[i].value <= maxMinute
    ensures forall i :: 0 <= i < |minutes| ==> minutes[i].text == TwoDigitLabel(minutes[i].value)
    ensures maxMinute < NextMinute(minutes, minMinute, interval)
    ensures |minutes| == 0 <==> maxMinute < minMinute
  {
    minutes := [];
    var minute := minMinute;
    while minute <= maxMinute
      invariant |minutes| == 0 ==> minute == minMinute
      invariant |minutes| > 0 ==> minute == minutes[|minutes| - 1].value + interval
      invariant |minutes| > 0 ==> minutes[0].value == minMinute
      invariant forall i, j :: 0 <= i && j == i + 1 && j < |minutes| ==> minutes[j].value == minutes[i].value + interval
      invariant forall i :: 0 <= i < |minutes| ==> minutes[i].value <= maxMinute
      invariant forall i :: 0 <= i < |minutes| ==> minutes[i].text == TwoDigitLabel(minutes[i].value)
      decreases maxMinute - minute
    {
      minutes := minutes + [Item(minute, TwoDigitLabel(minute))];
      minute := minute + interval;
    }
  }
}
