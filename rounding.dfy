/** Snapping minute values to the picker's minute interval (index.tsx `round`) and the
    effective interval itself. */
module Rounding {
  import opened Options
  import opened Moments
  import opened Arith

  /** JavaScript's `%` on integers: the remainder takes the sign of the dividend. */
  function JsRemainder(n: int, k: int): (r: int)
    requires k > 0
    ensures n >= 0 ==> r == n % k
    ensures n < 0 ==> -k < r <= 0
    ensures (n - r) % k == 0
  {
    if n >= 0 then
      RemainderRemoved(n, k);
      n % k
    else
      var q := (-n) / k;
      assert n + (-n) % k == (-q) * k;
      MultipleOf(-q, k);
      -((-n) % k)
  }

  /** Remove the remainder and, when rounding up and there was one, add a whole interval. */
  function Round(n: int, interval: int, isCeil: bool): (r: int)
    requires interval > 0
    ensures r % interval == 0
    ensures n >= 0 ==> 0 <= r
    ensures n >= 0 && isCeil ==> n <= r < n + interval
    ensures n >= 0 && !isCeil ==> n - interval < r <= n
  {
    var remainder := JsRemainder(n, interval);
    DivModUnique(n - remainder + interval, interval, (n - remainder) / interval + 1, 0);
    if remainder != 0 && isCeil then n - remainder + interval else n - remainder
  }

  lemma RemainderRemoved(n: int, k: int)
    requires k > 0
    ensures (n - n % k) % k == 0 && (n - n % k + k) % k == 0
  {
    DivModUnique(n - n % k, k, n / k, 0);
    DivModUnique(n - n % k + k, k, n / k + 1, 0);
  }

  /** Rounding up gives the least multiple of the interval at or above `n`, rounding
      down the greatest at or below it. */
  lemma RoundIsNearestMultiple(n: int, interval: int, isCeil: bool, m: int)
    requires n >= 0 && interval > 0 && m % interval == 0
    ensures isCeil && n <= m ==> Round(n, interval, isCeil) <= m
    ensures !isCeil && m <= n ==> m <= Round(n, interval, isCeil)
  {
    var r := Round(n, interval, isCeil);
    if isCeil && n <= m && m < r {
      MultiplesApart(m, r, interval);
    }
    if !isCeil && m <= n && r < m {
      MultiplesApart(r, m, interval);
    }
  }

  /** A minute of the hour rounded up with an interval that divides the hour never passes
      60, and reaches 60 only from a minute in the last interval of the hour. */
  lemma RoundUpMinuteReachesAtMostSixty(minute: int, interval: int)
    requires 0 <= minute < MinutesPerHour && interval > 0 && MinutesPerHour % interval == 0
    ensures Round(minute, interval, true) <= MinutesPerHour
    ensures Round(minute, interval, true) == MinutesPerHour <==> minute > MinutesPerHour - interval
  {
    RoundIsNearestMultiple(minute, interval, true, MinutesPerHour);
    var r := Round(minute, interval, true);
    MultipleQuotient(MinutesPerHour, interval);
    DivModUnique(MinutesPerHour - interval, interval, MinutesPerHour / interval - 1, 0);
    if minute <= MinutesPerHour - interval {
      RoundIsNearestMultiple(minute, interval, true, MinutesPerHour - interval);
    } else if r < MinutesPerHour {
      MultiplesApart(r, MinutesPerHour, interval);
    }
  }

  /** The `minuteInterval` prop may only take these values. */
  predicate IsMinuteIntervalProp(k: int) {
    k in {1, 2, 3, 4, 5, 6, 10, 12, 15, 20, 30}
  }

  /** `props.noInterval ? 1 : props.minuteInterval || 5`. */
  function MinuteInterval(noInterval: bool, prop: Option<int>): (k: int)
    requires prop.Some? ==> IsMinuteIntervalProp(prop.value)
    ensures 1 <= k <= 30 && MinutesPerHour % k == 0
    ensures noInterval ==> k == 1
    ensures !noInterval ==> k == prop.GetOr(5)
  {
    if noInterval then 1
    else match prop
      case Some(k) => if k != 0 then k else 5
      case None => 5
  }

  /** With an interval that divides the hour, putting a multiple of the interval as the
      minute gives a moment that is itself a multiple of the interval. */
  lemma AlignedMinute(t: int, m: int, interval: int)
    requires interval > 0 && MinutesPerHour % interval == 0 && m % interval == 0
    ensures WithMinutes(t, m) % interval == 0
  {
    var hours := t / MinutesPerHour;
    var c := MinutesPerHour / interval;
    var j := m / interval;
    MultipleQuotient(MinutesPerHour, interval);
    MultipleQuotient(m, interval);
    assert t - Minute(t) == hours * MinutesPerHour;
    assert hours * MinutesPerHour == (hours * c) * interval by {
      assert MinutesPerHour == c * interval;
    }
    assert WithMinutes(t, m) == (hours * c + j) * interval;
    MultipleOf(hours * c + j, interval);
  }

  /** The mount-time snap of a selected date to the interval (index.tsx:306-327): on the
      minimum's day the minutes are rounded up, on other days down. */
  function SnapToInterval(t: int, minimum: int, interval: int): (r: int)
    requires interval > 0 && MinutesPerHour % interval == 0
    ensures r % interval == 0
    ensures SameDay(t, minimum) ==> t <= r < t + interval
    ensures !SameDay(t, minimum) ==> t - interval < r <= t
  {
    if interval == 1 then t
    else
      var m := Round(Minute(t), interval, SameDay(t, minimum));
      AlignedMinute(t, m, interval);
      WithMinutes(t, m)
  }

  lemma MinuteFloorStaysInDay(t: int, m: int)
    requires 0 <= m <= Minute(t)
    ensures StartOfDay(t) <= WithMinutes(t, m)
  {
    TimeOfDaySplits(t);
  }

  /** Snapping never moves a date that is not before the minimum to before it. */
  lemma SnapKeepsMinimum(t: int, minimum: int, interval: int)
    requires interval > 0 && MinutesPerHour % interval == 0 && minimum <= t
    ensures minimum <= SnapToInterval(t, minimum, interval)
  {
    if interval != 1 && !SameDay(t, minimum) {
      assert DayOf(minimum) < DayOf(t);
      assert StartOfDay(t) > minimum;
      MinuteFloorStaysInDay(t, Round(Minute(t), interval, false));
    }
  }

  /** Snapping keeps two dates in order. */
  lemma SnapMonotone(a: int, b: int, minimum: int, interval: int)
    requires interval > 0 && MinutesPerHour % interval == 0 && a <= b
    ensures SnapToInterval(a, minimum, interval) <= SnapToInterval(b, minimum, interval)
  {
    var sa, sb := SnapToInterval(a, minimum, interval), SnapToInterval(b, minimum, interval);
    if sb < sa {
      if SameDay(a, minimum) && SameDay(b, minimum) {
        MultiplesApart(sb, sa, interval);
      } else if !SameDay(a, minimum) && !SameDay(b, minimum) {
        MultiplesApart(sb, sa, interval);
      } else if SameDay(a, minimum) {
        // a on the minimum's day rounds up, b on a later day rounds down.
        StartOfDayBetween(a, b, sa, sb, interval);
      }
    }
  }

  lemma StartOfDayBetween(a: int, b: int, sa: int, sb: int, interval: int)
    requires interval > 0 && MinutesPerHour % interval == 0
    requires DayOf(a) < DayOf(b) && sa % interval == 0 && a <= sa < a + interval
    requires b - interval < sb <= b && sb % interval == 0
    ensures sa <= sb
  {
    var s := StartOfDay(b);
    MultipleOfDivisor(s, MinutesPerHour, interval);
    assert a < StartOfDay(a) + MinutesPerDay <= s;
    if s < sa {
      MultiplesApart(s, sa, interval);
    }
    if sb < s {
      MultiplesApart(sb, s, interval);
    }
  }
}
