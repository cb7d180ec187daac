# Date and time-range picker: a verified model of its rules

`index.tsx` is a React Native modal for picking a date, a time, or a range of dates (the
component is named `SearchBar`). Under its rendering code sits a set of small
date-and-time rules, and this project models them in Dafny and proves what they
guarantee:

- rounding minutes to the minute interval (`round`) and choosing the effective interval;
- keeping the start and end dates between the minimum and maximum dates. This applies at
  start-up, when the bounds change, when a time field loses focus, and when the calendar
  moves;
- the month grid built by `onChangeCalendar`: seven weekday columns, Monday first, with
  leading empty cells;
- the option lists of the month, year, hour and minute pickers;
- the range-selection rule for a tapped day, and the rule for a picked hour or minute;
- which calendar cells are disabled or shaded;
- the built-in English translation table;
- the version rule of the release script `scripts/bump.js`: `YEAR.N` versions and their
  `vYEAR.N` tag.

A moment is a whole number of minutes since 1970-01-01 00:00 (module `Moments`). Days,
hours and minutes are derived from it by division. The `moment` setters the component
uses (`set({hours, minutes})`, `minutes(m)`, `hours(h)`, and copying the date of another
moment) are stated as integer arithmetic. A minute value of 60 rolls into the next hour,
as in `moment`.

The facts that come from the date library are parameters:

- the weekday of the 1st of the shown month (0 = Sunday);
- the number of days in the month;
- the year and month numbers of a date;
- the moment that month or year navigation lands on;
- the current time and the current year.

Pure rules are functions with lemmas. The state the component keeps is the class
`Picker.DatePicker`: the shown date, the start, the end and the month grid. Its handlers
are methods that update those fields in place. Each method is proved against the pure
functions. The grid building, the year list and the hour/minute lists are loops, as in
the source.

## Model

| member | source | states |
|---|---|---|
| Moments.DayEnd | index.tsx:748 | `endOf('day')` is the last minute of the same day, 1439 minutes after its start |
| Moments.WithTimeParts | index.tsx:450-453 | setting a valid hour and minute keeps the day and gives exactly that hour and minute |
| Moments.WithMinutesParts | index.tsx:460-462 | setting a valid minute keeps the day and the hour and gives exactly that minute |
| Moments.WithTimeOf | index.tsx:477-480 | taking another moment's hours and minutes keeps the day and gives exactly that moment's time of day |
| Rounding.JsRemainder | index.tsx:372 | JavaScript `%`: equals the mathematical remainder for non-negative numbers, lies in (-k, 0] for negative ones, and always differs from the dividend by a multiple of k |
| Rounding.Round | index.tsx:371-380 | the result is a multiple of the interval; for n >= 0 it is not negative, rounding up gives a value in [n, n+k) and rounding down a value in (n-k, n] |
| Rounding.RoundIsNearestMultiple | index.tsx:371-380 | rounding up gives the least multiple at or above n, rounding down the greatest at or below n |
| Rounding.RoundUpMinuteReachesAtMostSixty | index.tsx:371-380 | a minute rounded up with an interval dividing 60 is at most 60, and is 60 exactly when the minute lies in the hour's last interval |
| Rounding.MinuteInterval | index.tsx:269 | the effective interval is 1 with `noInterval`, otherwise the prop or 5; it always divides 60 and lies in 1..30 |
| Rounding.AlignedMinute | index.tsx:308-314 | putting a multiple of the interval as the minute gives a moment that is a multiple of the interval |
| Rounding.SnapToInterval | index.tsx:306-327 | the snapped date is a multiple of the interval, within one interval after the date on the minimum's day and within one interval before it on other days |
| Rounding.SnapKeepsMinimum | index.tsx:306-327 | snapping never moves a date at or after the minimum to before it |
| Rounding.SnapMonotone | index.tsx:306-327 | snapping keeps any two dates in order, whichever of them lies on the minimum's day |
| Bounds.DefaultBounds | index.tsx:97-100 | without props the minimum (1900) is before the maximum (2100), and both are at midnight |
| Bounds.ClampDate | index.tsx:271-293 | with ordered bounds the date ends up between them; an allowed date is unchanged; otherwise it becomes a bound |
| Bounds.ClampIsNearest | index.tsx:274-278 | the clamped date is the allowed date closest to the given one |
| Bounds.ClampIdempotent | index.tsx:344-348 | clamping an already clamped date changes nothing |
| Bounds.InitialEnd | index.tsx:283-296 | the initial end exists iff both `withEndDate` and `endDate` are given; an end before the start becomes the start, one after the maximum becomes the maximum, and any other is kept |
| Bounds.ReclampAsWritten | index.tsx:343-358 | the bounds-change effect as written: the start moves to the minimum or the maximum when outside them; the end moves to the old start when before it, to the maximum when after it, and is otherwise kept, so an end between the old and the new start is never raised |
| Bounds.ReclampAsWrittenUnorders | index.tsx:343-358 | with start 0, end 5, minimum 10 and maximum 100, the effect as written gives start 10 and end 5, so the end is before the start |
| Bounds.Reclamp | index.tsx:343-358 | the corrected effect: the start moves to the minimum or the maximum when outside them, the end to the new start when before it or to the maximum when after it; with ordered bounds the range is ordered and in bounds, and an ordered range already in bounds is unchanged |
| Bounds.ClampCalendarDay | index.tsx:411-425 | the shown date keeps its clock time; a date before the minimum's day moves onto the minimum's day, one after the maximum's day onto the maximum's day, and a day between them is unchanged |
| Cells.DisabledIffOutsideDays | index.tsx:742-746 | a day cell is disabled exactly when its day is before the minimum's day or after the maximum's day |
| Cells.DateBackground | index.tsx:507-519 | a cell has a background exactly when it is highlighted, and then it is the main colour with alpha `44` |
| Cells.HighlightedIffBetweenDays | index.tsx:510-514 | a day is shaded exactly when an end exists and the day lies between the start's day and the end's day, both included |
| Selection.UpToMinimumBounds | index.tsx:754-758 | on the minimum's day, moving to the minimum's time rounded up lands in [minimum, minimum + interval) |
| Selection.DownToMaximumBounds | index.tsx:759-767 | on the maximum's day, moving to the maximum's time rounded down lands in (maximum - interval, maximum] |
| Selection.AlignedTime | index.tsx:455-458 | a clock time whose minute is a multiple of the interval is itself a multiple of the interval |
| Selection.FloorIsLatestMultiple | index.tsx:486-489 | rounding a moment's minute down gives the latest multiple of the interval at or before the moment |
| Selection.TappedMoment | index.tsx:748-768 | the tapped day at the start's clock time is kept when it lies in bounds; below the minimum it moves to within one interval after the minimum, above the maximum to within one interval before the maximum, and a moved moment is a multiple of the interval |
| Selection.TapSelect | index.tsx:770-775 | the tap sets the end iff `withEndDate`, no end yet and the tap is not before the start; otherwise it sets the start and clears the end; the result is always ordered |
| Selection.TwoTapsSelectRange | index.tsx:770-775 | after a complete range, two taps select [first, second] when second >= first, otherwise only a start at second |
| Selection.BlurredStart | index.tsx:449-463 | after the blur the start is a multiple of the interval; it is within one interval after the minimum when it was below it, within one interval before the maximum when above it, and rounded up otherwise |
| Selection.BlurredEnd | index.tsx:475-490 | an end before the start keeps its day and takes the start's time of day; an end past the maximum keeps its day and takes the maximum's hour and rounded-down minute, within one interval before the maximum on the maximum's day; any other end is rounded down to a multiple of the interval by less than one interval |
| Selection.BlurKeepsOrder | index.tsx:448-502 | after a blur the end is not before the start, provided the new start is in bounds and not on a later day than the end |
| Selection.PickedDate | index.tsx:896-897 | picking an hour or a minute sets that field and keeps the day and the other field |
| Selection.PickedRange | index.tsx:896-937 | a start pick gives the picked start, an end pick keeps the start; the end exists exactly when it existed before and is the picked or unchanged end, unless with `withEndDate` it falls before the start, in which case it keeps its day and takes the start's time of day |
| Selection.PickedRangeKeepsOrder | index.tsx:896-937 | after a pick the end is not before the start, provided the end's day was not before the start's day |
| Locale.GetItem | index.tsx:77-82 | a text with a non-empty translation in the current table gets that translation; any other text, and every text in Russian, is returned unchanged |
| Locale.MonthLabel | index.tsx:43-55 | month labels are the English month names in English and the Russian names in Russian |
| Locale.WeekdayLabel | index.tsx:56-62 | the column heading text before upper-casing (index.tsx:728) is the English short weekday name in English and the Russian one in Russian |
| MonthGrid.SortByWeekday | index.tsx:427-434 | after the do-while, each weekday's list holds exactly the days of the month on that weekday, in order |
| MonthGrid.PadBeforeFirst | index.tsx:440-442 | the padding loop stops at the column of the 1st and pads exactly the columns before it |
| MonthGrid.BuildGrid | index.tsx:427-442 | the grid has seven columns, and column j is the weekday column Monday-first, padded when it comes before the 1st |
| MonthGrid.FirstDayOfColumn | index.tsx:440 | every weekday's list is non-empty and starts with the 1st exactly when the 1st falls on that weekday |
| MonthGrid.DaysOnMembers | index.tsx:431-434 | a day is in a weekday's list iff it lies in the month and falls on that weekday |
| MonthGrid.DaysOnAscending | index.tsx:431-434 | each weekday's list holds days of the month only, strictly ascending |
| MonthGrid.ColumnsStartMonday | index.tsx:436-438 | column j holds weekday (j+1) mod 7, so Monday is first and Sunday last |
| MonthGrid.DayInItsColumn | index.tsx:431-438 | every day of the month appears in the column of its weekday and in no other |
| MonthGrid.OnlyDaysOfMonth | index.tsx:428-434 | no value outside 1..daysInMonth appears in the grid |
| MonthGrid.ColumnAscending | index.tsx:431-442 | within a column days ascend strictly and an empty cell can only come first |
| MonthGrid.PaddingBeforeFirst | index.tsx:440-442 | a column starts with an empty cell exactly when it comes before the column holding the 1st |
| Pickers.MonthItems | index.tsx:557-569 | after n months every entry is an allowed month below n, labelled with that month's name |
| Pickers.MonthItemsAscending | index.tsx:557-569 | the month entries come in strictly ascending month order |
| Pickers.MonthItemsComplete | index.tsx:557-569 | every allowed month below n has an entry |
| Pickers.GetMonths | index.tsx:543-570 | a month index is offered iff it is allowed by the minimum and maximum; the entries ascend and carry the names translated into `props.language`, English by default (index.tsx:74-76) |
| Pickers.ShownMonthOffered | index.tsx:558-565 | a month between the minimum's and the maximum's month is always offered |
| Pickers.YearRange | index.tsx:574-588 | off a Mac the range is exactly the minimum's year to the maximum's year; on a Mac it lies within five years of the shown year; it always lies within the minimum's and maximum's years, covers every allowed year, and contains the shown year when it is allowed |
| Pickers.GetYears | index.tsx:572-595 | one entry per year of the range, ascending, labelled with its decimal number; a year is listed iff it lies between the minimum's and maximum's years and, on a Mac, within five years of the shown year |
| Pickers.RangeListsAllowedYears | index.tsx:574-593 | the consecutive years from the start to the end of the range are exactly the years between the minimum's and maximum's years that, on a Mac, lie within five years of the shown year |
| Pickers.TimePickerLimits | index.tsx:844-868 | the limits span the whole day, narrowed to the minimum's rounded-up time on its day and the maximum's time on its day; an end on the start's day starts at the start's hour |
| Pickers.HourOptions | index.tsx:870-875 | exactly the hours minHour..maxHour, each labelled with two digits |
| Pickers.MinuteOptions | index.tsx:877-886 | the first entry is minMinute and each next one adds the interval; none passes maxMinute, the next one would, the list is empty exactly when minMinute is past maxMinute, and every entry is labelled with two digits |
| Decimal.NatToString | index.tsx:591 | the decimal text of a number is non-empty digits without a leading zero |
| Decimal.NatToStringRoundTrip | index.tsx:591 | reading the decimal text back gives the number |
| Decimal.CanonicalIsPrinted | index.tsx:591 | a digit string without a leading zero is exactly the decimal text of its value |
| Decimal.IntToString | index.tsx:591 | the text is digits without a leading zero, after a `-` for negative numbers, and reads back as the number |
| Decimal.TwoDigitLabelRoundTrip | index.tsx:873-874 | a clock label has at least two digits and reads back as the value; below 100 it has exactly two |
| Bump.PatternIsDigitsDotDigits | scripts/bump.js:16 | the version test holds iff the string is digits, a dot and digits, and nothing else |
| Bump.ParseVersion | scripts/bump.js:16-17 | a version is parsed iff it matches the pattern |
| Bump.FormatParseRoundTrip | scripts/bump.js:17-20 | a printed version matches the pattern, has no leading zeros, and parses back to itself |
| Bump.ParseFormatRoundTrip | scripts/bump.js:14-20 | a version text without leading zeros is the printing of the version it parses to |
| Bump.NextVersion | scripts/bump.js:13-22 | the new year is the current year; the release is the old release + 1 when the old version parses with the current year, and 1 otherwise |
| Bump.NewVersion | scripts/bump.js:13-24 | the new version string matches the pattern, has no leading zeros and parses to the next version, so it is the printing of that version |
| Bump.BumpIncreases | scripts/bump.js:13-22 | unless the old year is later than the current year, the new version is later in (year, release) order |
| Bump.TagNamesNewVersion | scripts/bump.js:34 | the tag is `v` followed by exactly the new version text, which parses to the next version |
| Picker.DatePicker.constructor | index.tsx:262-297 | the initial state: default bounds, the effective interval, the given date or now clamped into bounds as both the shown date and the start, the initial end, an empty grid |
| Picker.DatePicker.Reported | index.tsx:360-369 | the end is reported only with `withEndDate`; in every valid state the reported dates are exactly the selected ones |
| Picker.DatePicker.SnapSelection | index.tsx:306-327 | start and end (with `withEndDate`) become their snapped values; a start at or after the minimum stays there, and an ordered range stays ordered |
| Picker.DatePicker.Mount | index.tsx:306-335 | the bounds are unchanged and the start is snapped; in the date modes (`date` by default, index.tsx:262) the end is snapped, the shown date moves onto the bounds' days and the grid becomes the month's grid; in the time mode the shown date and grid are kept, and with `withEndDate` the end becomes the start |
| Picker.DatePicker.ChangeBounds | index.tsx:343-358 | the new bounds are taken and the range is re-clamped with the corrected `Bounds.Reclamp`, ending ordered and within the bounds; the source compares the end with the start from before the clamp, which `Bounds.ReclampAsWritten` models (see Findings) |
| Picker.DatePicker.ChangeCalendar | index.tsx:410-446 | the shown date is moved onto a day within the bounds, and the grid becomes the month's grid |
| Picker.DatePicker.Navigate | index.tsx:606-609 | after moving the shown date by a month or a year, it is clamped onto the bounds' days and the grid is rebuilt |
| Picker.DatePicker.BlurTime | index.tsx:448-502 | start and end become the blurred values |
| Picker.DatePicker.TapDay | index.tsx:747-776 | a tap on an enabled day applies the selection rule to the tapped moment; the range stays ordered |
| Picker.DatePicker.PickTime | index.tsx:896-937 | a picked hour or minute updates the range as `PickedRange` says; the range stays ordered when the end's day was not before the start's day |

## Left out

- Rendering, styles, layout and colours are not modelled. This covers the JSX, `StyleSheet`, `AppConfig` colours, text colours (`getDateTextColor`) and the capitalised month title. The main colour is a parameter of `Cells.DateBackground`.
- React scheduling is not modelled. This covers `useState`/`useEffect` ordering, the `setTimeout` focus checks after a blur, `TextInput` refs and focus, and the visibility flags. Each handler is an atomic update of the class fields. The one effect whose reads of stale state change the result is `Bounds.ReclampAsWritten`, under Findings.
- The `moment` library is replaced by whole minutes. Seconds and milliseconds, time zones and DST, locale formatting, month and year arithmetic, the weekday of the 1st and the month's length are not modelled. Navigation receives the moved date as a parameter (`Picker.DatePicker.Navigate`), and the grid receives the weekday and length as parameters.
- The third-party widgets are not modelled: `Modal`, `ActionSheet`, `Picker` and `Icon`. Neither is platform detection; the Mac flag is a parameter of `Pickers.YearRange`.
- The year text input (`useYearInput`, index.tsx:649-662) is not modelled. Its `onChangeText` guard on a typed string is UI input handling. Its `onBlur` calls `onChangeCalendar`, which is modelled.
- The Mac hour and minute text inputs (index.tsx:969-978, 993-997) are not modelled. Their `onChangeText` reads a typed string, which is UI input handling. A value in 0..23 or 0..59 sets the hour or minute as `Selection.PickedDate` does, without the end adjustment of the wheel. Their `onBlur` is `onBlurTime`, which is modelled as `Picker.DatePicker.BlurTime`. The `toUpperCase()` of the column headings (index.tsx:728) is not modelled either.
- The visibility of the chevrons (index.tsx:600-604, 705-709) is not modelled. It is a rendering condition.
- `getItem` with `strict` is not modelled, because the component never calls it that way.
- The calls into `onConfirm`, `onDateChange` and `onCancel` are not modelled, since they are foreign callbacks. `Picker.DatePicker.Reported` models only which dates they receive.
- The file write, console output and git commands of `scripts/bump.js` (lines 1-11 and 26-44) are I/O and are not modelled. The current year is a parameter.
- JavaScript number precision in `Number(...)` is not modelled. Version parts are unbounded naturals.
- Rounding.Round: the windows around `n` are stated for non-negative numbers only, because the picker only rounds minutes in 0..59.
- Selection.BlurredStart: the bounds relative to the minimum or maximum are stated only when the start is on that bound's day. On another day the source puts the bound's time on the start's own day, which the model computes but does not bound.
- Selection.TappedMoment: the bounds are stated only when the tapped day lies between the minimum's and the maximum's days. The disabled-cell rule keeps taps there.
- Selection.BlurKeepsOrder: order is proved only when the new start is in bounds and its day is not after the end's day. The source keeps the end's own day, so an end on an earlier day stays before the start.
- Picker.DatePicker.PickTime: order is proved only when the end's day was not before the start's day, for the same reason.
- Picker.DatePicker: `interval` and `withEndDate` are fixed when the picker is built. The source reads `props.withEndDate`, `props.minuteInterval` and `props.noInterval` again on every render, so a parent that changes them later is not modelled. `Picker.DatePicker.Reported` drops no end only under this assumption.

## Findings

| source | as written | input that shows it | evidently intended | confidence | as-written member | corrected member |
|---|---|---|---|---|---|---|
| index.tsx:343-358 | when the bounds change, the start is clamped through `setStartDate`, but the end is then compared with the start from before the clamp, because the state update is not yet visible inside the same effect | start 0, end 5, minimum 10, maximum 100: the start becomes 10 and the end stays 5, before the start | the end is compared with the clamped start, so the range stays ordered and within the bounds | not executed | Bounds.ReclampAsWritten, Bounds.ReclampAsWrittenUnorders | Bounds.Reclamp |
