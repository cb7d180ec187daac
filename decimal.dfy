/** Decimal text of integers: JavaScript's `toString()` / template interpolation of a
    whole number, `Number(...)` of a digit string, and the picker's two-digit labels. */
module Decimal {
  import opened Arith

  predicate IsDigit(c: char) {
    '0' <= c <= '9'
  }

  predicate AllDigits(s: string) {
    forall i :: 0 <= i < |s| ==> IsDigit(s[i])
  }

  function DigitChar(d: int): (c: char)
    requires 0 <= d < 10
    ensures IsDigit(c) && DigitValue(c) == d
  {
    ('0' as int + d) as char
  }

  function DigitValue(c: char): (d: int)
    requires IsDigit(c)
    ensures 0 <= d < 10
  {
    c as int - '0' as int
  }

  /** `n.toString()` for a non-negative whole number: no leading zeros. */
  function NatToString(n: nat): (s: string)
    ensures |s| >= 1 && AllDigits(s)
    ensures s[0] == '0' ==> n == 0 && |s| == 1
    decreases n
  {
    if n < 10 then [DigitChar(n)] else NatToString(n / 10) + [DigitChar(n % 10)]
  }

  /** `Number(s)` of a string of decimal digits. */
  function DigitsValue(s: string): nat
    requires AllDigits(s)
    decreases |s|
  {
    if s == [] then 0 else DigitsValue(s[..|s| - 1]) * 10 + DigitValue(s[|s| - 1])
  }

  /** Reading back the printed number gives the number. */
  lemma {:induction false} NatToStringRoundTrip(n: nat)
    ensures DigitsValue(NatToString(n)) == n
    decreases n
  {
    var s := NatToString(n);
    if n >= 10 {
      NatToStringRoundTrip(n / 10);
      assert s[..|s| - 1] == NatToString(n / 10);
    }
  }

  /** Digits as `toString()` prints a whole number: at least one, and no leading zero
      unless the number is zero. */
  predicate IsCanonical(s: string) {
    |s| >= 1 && AllDigits(s) && (s[0] == '0' ==> |s| == 1)
  }

  /** A canonical digit string is the printed form of its value. */
  lemma {:induction false} CanonicalIsPrinted(s: string)
    requires IsCanonical(s)
    ensures NatToString(DigitsValue(s)) == s
    decreases |s|
  {
    if |s| >= 2 {
      var p := s[..|s| - 1];
      assert p[0] == s[0];
      CanonicalIsPrinted(p);
      var v, d := DigitsValue(p), DigitValue(s[|s| - 1]);
      assert NatToString(0) == "0";
      DivModUnique(v * 10 + d, 10, v, d);
      assert s == p + [s[|s| - 1]];
    }
  }

  /** A leading zero does not change the value of a digit string. */
  lemma {:induction false} LeadingZero(s: string)
    requires AllDigits(s)
    ensures AllDigits("0" + s) && DigitsValue("0" + s) == DigitsValue(s)
    decreases |s|
  {
    if s != [] {
      LeadingZero(s[..|s| - 1]);
      assert ("0" + s)[..|s|] == "0" + s[..|s| - 1];
    }
  }

  /** `n.toString()` for any whole number. */
  function IntToString(n: int): (s: string)
    ensures n >= 0 ==> IsCanonical(s) && DigitsValue(s) == n
    ensures n < 0 ==> |s| >= 2 && s[0] == '-' && IsCanonical(s[1..]) && DigitsValue(s[1..]) == -n
  {
    if n < 0 then
      NatToStringRoundTrip(-n);
      assert ("-" + NatToString(-n))[1..] == NatToString(-n);
      "-" + NatToString(-n)
    else
      NatToStringRoundTrip(n);
      NatToString(n)
  }

  /** The picker label of an hour or a minute (index.tsx:873, 884):
      `value < 10 ? '0' + value : value.toString()`. */
  function TwoDigitLabel(n: int): string {
    if n < 10 then "0" + IntToString(n) else IntToString(n)
  }

  /** Every label of a clock value has at least two digits and reads back as the value;
      below 100 it has exactly two. */
  lemma TwoDigitLabelRoundTrip(n: nat)
    ensures var s := TwoDigitLabel(n);
      AllDigits(s) && |s| >= 2 && DigitsValue(s) == n && (n < 100 ==> |s| == 2)
  {
    NatToStringRoundTrip(n);
    if n < 10 {
      LeadingZero(NatToString(n));
    } else {
      var s := NatToString(n);
      if n < 100 {
        assert s == NatToString(n / 10) + [DigitChar(n % 10)];
      }
    }
  }
}
