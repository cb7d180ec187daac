/** The month grid `onChangeCalendar` builds (index.tsx:427-442): seven weekday columns,
    Monday first, each listing the days of the month that fall on its weekday, with a
    leading empty cell in the columns before the one that holds the 1st. The weekday of
    the 1st and the length of the month come from the date library. */
module MonthGrid {
  import opened Options
  import opened Locale

  /** A column: its short weekday name and its cells (day of the month, or empty). */
  datatype Column = Column(name: string, dates: seq<Option<int>>)

  /** Facts the date library supplies about the shown month. */
  predicate IsMonthShape(firstWeekday: int, daysInMonth: int) {
    0 <= firstWeekday < 7 && 28 <= daysInMonth <= 31
  }

  /** `day()` of a day of the month, 0 = Sunday, given the weekday of the 1st. */
  function Weekday(firstWeekday: int, d: int): int {
    (firstWeekday + d - 1) % 7
  }

  /** The grid column that holds a weekday once Sunday is moved to the end. */
  function ColumnOf(weekday: int): int {
    if weekday == 0 then 6 else weekday - 1
  }

  /** The weekday a grid column holds. */
  function WeekdayOf(column: int): int {
    if column == 6 then 0 else column + 1
  }

  /** The days 1..n that fall on `weekday`, in the order the do-while pushes them. */
  function DaysOn(weekday: int, firstWeekday: int, n: int): seq<Option<int>>
    decreases n
  {
    if n <= 0 then []
    else DaysOn(weekday, firstWeekday, n - 1) + (if Weekday(firstWeekday, n) == weekday then [Some(n)] else [])
  }

  /** Weekday `w`'s entry after the days 1..n have been pushed, before the rotation. */
  function Bucket(w: int, firstWeekday: int, n: int): Column
    requires 0 <= w < 7
  {
    Column(WeekDayNamesShort[w], DaysOn(w, firstWeekday, n))
  }

  /** Column `j` after the rotation, padded when it comes before column `i`. */
  function PaddedColumn(j: int, i: int, firstWeekday: int, daysInMonth: int): Column
    requires 0 <= j < 7
  {
    Column(WeekDayNamesShort[WeekdayOf(j)],
           (if j < i then [None] else []) + DaysOn(WeekdayOf(j), firstWeekday, daysInMonth))
  }

  /** Column `j` of the finished grid. */
  function GridColumn(j: int, firstWeekday: int, daysInMonth: int): Column
    requires 0 <= j < 7
  {
    PaddedColumn(j, ColumnOf(firstWeekday), firstWeekday, daysInMonth)
  }

  /** Builds the grid as index.tsx:427-442 does: push each day into its weekday's list,
      move Sunday's list from the front to the back, then put an empty cell in front of
      each list until reaching the one whose first day is the 1st. */
  method BuildGrid(firstWeekday: int, daysInMonth: int) returns (days: seq<Column>)
    requires IsMonthShape(firstWeekday, daysInMonth)
    ensures |days| == 7
    ensures forall j :: 0 <= j < 7 ==> days[j] == GridColumn(j, firstWeekday, daysInMonth)
  {
    days := SortByWeekday(firstWeekday, daysInMonth);
    days := days + [days[0]];
    days := days[1..];
    forall j | 0 <= j < 7
      ensures days[j] == PaddedColumn(j, 0, firstWeekday, daysInMonth)
    {
      assert days[j] == Bucket(WeekdayOf(j), firstWeekday, daysInMonth);
    }
    days := PadBeforeFirst(days, firstWeekday, daysInMonth);
  }

  /** The do-while of index.tsx:431-434: each day of the month goes to the end of its
      weekday's list (Sunday's list first). */
  method SortByWeekday(firstWeekday: int, daysInMonth: int) returns (days: seq<Column>)
    requires IsMonthShape(firstWeekday, daysInMonth)
    ensures |days| == 7
    ensures forall w :: 0 <= w < 7 ==> days[w] == Bucket(w, firstWeekday, daysInMonth)
  {
    days := seq(7, w requires 0 <= w < 7 => Column(WeekDayNamesShort[w], []));
    var d := 1;
    while d <= daysInMonth
      invariant 1 <= d <= daysInMonth + 1
      invariant |days| == 7
      invariant forall w :: 0 <= w < 7 ==> days[w] == Bucket(w, firstWeekday, d - 1)
    {
      var w := Weekday(firstWeekday, d);
      days := days[w := days[w].(dates := days[w].dates + [Some(d)])];
      d := d + 1;
    }
  }

  /** The for loop of index.tsx:440-442 on the rotated lists: an empty cell goes in front
      of each list, from Monday's on, until the list whose first day is the 1st (Sunday's
      list is never padded). */
  method PadBeforeFirst(rotated: seq<Column>, firstWeekday: int, daysInMonth: int) returns (days: seq<Column>)
    requires IsMonthShape(firstWeekday, daysInMonth)
    requires |rotated| == 7
    requires forall j :: 0 <= j < 7 ==> rotated[j] == PaddedColumn(j, 0, firstWeekday, daysInMonth)
    ensures |days| == 7
    ensures forall j :: 0 <= j < 7 ==> days[j] == GridColumn(j, firstWeekday, daysInMonth)
  {
    forall w | 0 <= w < 7
      ensures |DaysOn(w, firstWeekday, daysInMonth)| > 0
    {
      FirstDayOfColumn(w, firstWeekday, daysInMonth);
    }
    days := rotated;
    var i := 0;
    while i < |days| - 1 && days[i].dates[0] != Some(1)
      invariant 0 <= i <= ColumnOf(firstWeekday)
      invariant |days| == 7
      invariant forall j :: 0 <= j < 7 ==> days[j] == PaddedColumn(j, i, firstWeekday, daysInMonth)
    {
      FirstDayOfColumn(WeekdayOf(i), firstWeekday, daysInMonth);
      assert i != ColumnOf(firstWeekday);
      ghost var before := days;
      days := days[i := days[i].(dates := [None] + days[i].dates)];
      forall j | 0 <= j < 7
        ensures days[j] == PaddedColumn(j, i + 1, firstWeekday, daysInMonth)
      {
        if j != i {
          assert days[j] == before[j];
        } else {
          var column := DaysOn(WeekdayOf(i), firstWeekday, daysInMonth);
          assert before[i].dates == [] + column == column;
          assert days[i].dates == [None] + column;
        }
      }
      i := i + 1;
    }
    if i < |days| - 1 {
      FirstDayOfColumn(WeekdayOf(i), firstWeekday, daysInMonth);
    }
    assert i == ColumnOf(firstWeekday);
  }

  /** The first day that falls on `weekday`. */
  function FirstDayOn(weekday: int, firstWeekday: int): int {
    if firstWeekday <= weekday then 1 + weekday - firstWeekday else 8 + weekday - firstWeekday
  }

  lemma {:induction false} NoDaysBeforeFirst(weekday: int, firstWeekday: int, n: int)
    requires 0 <= weekday < 7 && 0 <= firstWeekday < 7 && n < FirstDayOn(weekday, firstWeekday)
    ensures DaysOn(weekday, firstWeekday, n) == []
    decreases n
  {
    if n > 0 {
      NoDaysBeforeFirst(weekday, firstWeekday, n - 1);
    }
  }

  lemma {:induction false} StartsWithFirst(weekday: int, firstWeekday: int, n: int)
    requires 0 <= weekday < 7 && 0 <= firstWeekday < 7 && FirstDayOn(weekday, firstWeekday) <= n
    ensures |DaysOn(weekday, firstWeekday, n)| > 0
    ensures DaysOn(weekday, firstWeekday, n)[0] == Some(FirstDayOn(weekday, firstWeekday))
    decreases n
  {
    if n == FirstDayOn(weekday, firstWeekday) {
      NoDaysBeforeFirst(weekday, firstWeekday, n - 1);
      assert firstWeekday + n - 1 == weekday || firstWeekday + n - 1 == weekday + 7;
      assert Weekday(firstWeekday, n) == weekday;
    } else {
      StartsWithFirst(weekday, firstWeekday, n - 1);
      var prev := DaysOn(weekday, firstWeekday, n - 1);
      assert DaysOn(weekday, firstWeekday, n)[0] == prev[0];
    }
  }

  /** In a month of at least a week every weekday's list is non-empty, and it starts with
      the 1st exactly when the 1st falls on that weekday. */
  lemma FirstDayOfColumn(weekday: int, firstWeekday: int, daysInMonth: int)
    requires 0 <= weekday < 7 && IsMonthShape(firstWeekday, daysInMonth)
    ensures |DaysOn(weekday, firstWeekday, daysInMonth)| > 0
    ensures DaysOn(weekday, firstWeekday, daysInMonth)[0].Some?
    ensures DaysOn(weekday, firstWeekday, daysInMonth)[0] == Some(1) <==> weekday == firstWeekday
  {
    StartsWithFirst(weekday, firstWeekday, daysInMonth);
  }

  /** A day of the month is listed for a weekday exactly when it falls on it. */
  lemma {:induction false} DaysOnMembers(weekday: int, firstWeekday: int, n: int, d: int)
    ensures Some(d) in DaysOn(weekday, firstWeekday, n) <==> 1 <= d <= n && Weekday(firstWeekday, d) == weekday
    decreases n
  {
    if n > 0 {
      DaysOnMembers(weekday, firstWeekday, n - 1, d);
    }
  }

  /** Every entry is a day between 1 and `n`. */
  predicate DaysWithin(s: seq<Option<int>>, n: int) {
    forall a :: 0 <= a < |s| ==> s[a].Some? && 1 <= s[a].value <= n
  }

  /** The days ascend strictly. */
  predicate StrictlyAscending(s: seq<Option<int>>)
    requires forall a :: 0 <= a < |s| ==> s[a].Some?
  {
    forall a, b :: 0 <= a < b < |s| ==> s[a].value < s[b].value
  }

  /** Each weekday's list holds days only and ascends strictly. */
  lemma {:induction false} DaysOnAscending(weekday: int, firstWeekday: int, n: int)
    ensures DaysWithin(DaysOn(weekday, firstWeekday, n), n)
    ensures StrictlyAscending(DaysOn(weekday, firstWeekday, n))
    decreases n
  {
    if n > 0 {
      DaysOnAscending(weekday, firstWeekday, n - 1);
      var prev := DaysOn(weekday, firstWeekday, n - 1);
      var s := DaysOn(weekday, firstWeekday, n);
      assert forall a :: 0 <= a < |prev| ==> s[a] == prev[a];
      if Weekday(firstWeekday, n) == weekday {
        assert s == prev + [Some(n)];
        assert s[|prev|] == Some(n);
        forall a, b | 0 <= a < b < |s|
          ensures s[a].value < s[b].value
        {
          if b == |prev| {
            assert s[a] == prev[a];
          } else {
            assert s[a] == prev[a] && s[b] == prev[b];
          }
        }
      } else {
        assert s == prev;
      }
    }
  }

  /** The columns run Monday to Sunday: Sunday, first in `weekDayNamesShort`, is last. */
  lemma ColumnsStartMonday(firstWeekday: int, daysInMonth: int)
    ensures forall j :: 0 <= j < 7 ==> GridColumn(j, firstWeekday, daysInMonth).name == WeekDayNamesShort[(j + 1) % 7]
    ensures GridColumn(6, firstWeekday, daysInMonth).name == "Вс"
    ensures GridColumn(0, firstWeekday, daysInMonth).name == "Пн"
  {
  }

  /** Every day of the month appears in the grid, in the column of its weekday and in no
      other. */
  lemma DayInItsColumn(firstWeekday: int, daysInMonth: int, d: int, j: int)
    requires 0 <= j < 7 && 1 <= d <= daysInMonth
    ensures Some(d) in GridColumn(j, firstWeekday, daysInMonth).dates <==> j == ColumnOf(Weekday(firstWeekday, d))
  {
    DaysOnMembers(WeekdayOf(j), firstWeekday, daysInMonth, d);
  }

  /** Nothing but the days of the month appears in the grid. */
  lemma OnlyDaysOfMonth(firstWeekday: int, daysInMonth: int, j: int, d: int)
    requires 0 <= j < 7
    requires Some(d) in GridColumn(j, firstWeekday, daysInMonth).dates
    ensures 1 <= d <= daysInMonth
  {
    DaysOnMembers(WeekdayOf(j), firstWeekday, daysInMonth, d);
  }

  /** Within a column the days ascend strictly, so no day appears twice; an empty cell can
      only come first. */
  lemma ColumnAscending(firstWeekday: int, daysInMonth: int, j: int)
    requires 0 <= j < 7
    ensures var s := GridColumn(j, firstWeekday, daysInMonth).dates;
      forall a, b :: 0 <= a < b < |s| ==> s[b].Some? && (s[a].Some? ==> s[a].value < s[b].value)
  {
    var days := DaysOn(WeekdayOf(j), firstWeekday, daysInMonth);
    DaysOnAscending(WeekdayOf(j), firstWeekday, daysInMonth);
    var pad: seq<Option<int>> := if j < ColumnOf(firstWeekday) then [None] else [];
    var s := GridColumn(j, firstWeekday, daysInMonth).dates;
    assert s == pad + days;
    forall a, b | 0 <= a < b < |s|
      ensures s[b].Some? && (s[a].Some? ==> s[a].value < s[b].value)
    {
      assert s[b] == days[b - |pad|];
      if a >= |pad| {
        assert s[a] == days[a - |pad|];
      }
    }
  }

  /** Exactly the columns before the one holding the 1st start with an empty cell. */
  lemma PaddingBeforeFirst(firstWeekday: int, daysInMonth: int, j: int)
    requires 0 <= j < 7 && IsMonthShape(firstWeekday, daysInMonth)
    ensures var s := GridColumn(j, firstWeekday, daysInMonth).dates;
      |s| > 0 && (s[0] == None <==> j < ColumnOf(firstWeekday))
    ensures Some(1) in GridColumn(ColumnOf(firstWeekday), firstWeekday, daysInMonth).dates
  {
    FirstDayOfColumn(WeekdayOf(j), firstWeekday, daysInMonth);
    assert Weekday(firstWeekday, 1) == firstWeekday;
    DayInItsColumn(firstWeekday, daysInMonth, 1, ColumnOf(firstWeekday));
  }
}
