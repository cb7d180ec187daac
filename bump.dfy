/** The version rule of the release script (scripts/bump.js:13-24, 34): versions are
    `YEAR.N`; a release in the same year increments `N`, the first release of a year is
    `YEAR.1`, and the git tag is the version prefixed with `v`. */
module Bump {
  import opened Options
  import opened Decimal

  datatype Version = Version(year: nat, release: nat)

  /** The index of the first `.` in `s`, if there is one. */
  function FirstDot(s: string): (r: Option<nat>)
    ensures r.Some? ==> r.value < |s| && s[r.value] == '.' && forall j :: 0 <= j < r.value ==> s[j] != '.'
    ensures r.None? ==> forall j :: 0 <= j < |s| ==> s[j] != '.'
  {
    if s == [] then None
    else if s[0] == '.' then Some(0)
    else match FirstDot(s[1..])
      case Some(i) => Some(i + 1)
      case None => None
  }

  /** `/^\d+\.\d+$/.test(s)`, read as: digits, the first dot, digits, and nothing else. */
  predicate MatchesVersionPattern(s: string) {
    match FirstDot(s)
    case None => false
    case Some(i) => 0 < i && i + 1 < |s| && AllDigits(s[..i]) && AllDigits(s[i + 1..])
  }

  /** The pattern as a regular expression reads: one or more digits, a dot, one or more
      digits, covering the whole string. */
  lemma PatternIsDigitsDotDigits(s: string)
    ensures MatchesVersionPattern(s) <==>
      exists i :: 0 < i < |s| - 1 && s[i] == '.' && AllDigits(s[..i]) && AllDigits(s[i + 1..])
  {
    if i :| 0 < i < |s| - 1 && s[i] == '.' && AllDigits(s[..i]) && AllDigits(s[i + 1..]) {
      var d := FirstDot(s);
      assert d.Some? && d.value <= i;
      if d.value < i {
        assert s[..i][d.value] == '.';
      }
    }
  }

  /** A version as `${year}.${release}` prints it: the pattern, with neither part
      carrying a leading zero. */
  predicate IsPrintedVersion(s: string) {
    && MatchesVersionPattern(s)
    && var i := FirstDot(s).value;
    IsCanonical(s[..i]) && IsCanonical(s[i + 1..])
  }

  /** `version.split('.').map(Number)` on a version that matches the pattern. */
  function ParseVersion(s: string): (r: Option<Version>)
    ensures r.Some? <==> MatchesVersionPattern(s)
  {
    if MatchesVersionPattern(s) then
      var i := FirstDot(s).value;
      Some(Version(DigitsValue(s[..i]), DigitsValue(s[i + 1..])))
    else None
  }

  /** The template string `${year}.${release}`. */
  function FormatVersion(v: Version): string {
    NatToString(v.year) + "." + NatToString(v.release)
  }

  /** Printing a version and reading it back gives the same version. */
  lemma FormatParseRoundTrip(v: Version)
    ensures MatchesVersionPattern(FormatVersion(v))
    ensures IsPrintedVersion(FormatVersion(v))
    ensures ParseVersion(FormatVersion(v)) == Some(v)
  {
    var y, r := NatToString(v.year), NatToString(v.release);
    var s := FormatVersion(v);
    assert s[..|y|] == y && s[|y| + 1..] == r;
    assert s[|y|] == '.';
    assert forall j :: 0 <= j < |y| ==> s[j] == y[j] && s[j] != '.';
    FirstDotAt(s, |y|);
    NatToStringRoundTrip(v.year);
    NatToStringRoundTrip(v.release);
  }

  /** A printed version is the printing of what it parses to. */
  lemma ParseFormatRoundTrip(s: string)
    requires IsPrintedVersion(s)
    ensures FormatVersion(ParseVersion(s).value) == s
  {
    var i := FirstDot(s).value;
    CanonicalIsPrinted(s[..i]);
    CanonicalIsPrinted(s[i + 1..]);
    assert s == s[..i] + "." + s[i + 1..];
  }

  lemma FirstDotAt(s: string, i: nat)
    requires i < |s| && s[i] == '.' && forall j :: 0 <= j < i ==> s[j] != '.'
    ensures FirstDot(s) == Some(i)
  {
    var d := FirstDot(s);
    assert d.Some?;
  }

  /** The release number the bump gives, from the current version and the current year. */
  function NextVersion(current: string, currentYear: nat): (v: Version)
    ensures v.year == currentYear && v.release >= 1
    ensures ParseVersion(current).Some? && ParseVersion(current).value.year == currentYear ==>
      v.release == ParseVersion(current).value.release + 1
    ensures ParseVersion(current).None? || ParseVersion(current).value.year != currentYear ==> v.release == 1
  {
    match ParseVersion(current)
    case Some(Version(year, release)) =>
      if year == currentYear then Version(year, release + 1) else Version(currentYear, 1)
    case None => Version(currentYear, 1)
  }

  /** `newVersion` (scripts/bump.js:13-22). */
  function NewVersion(current: string, currentYear: nat): (r: string)
    ensures MatchesVersionPattern(r) && IsPrintedVersion(r)
    ensures ParseVersion(r) == Some(NextVersion(current, currentYear))
  {
    var v := NextVersion(current, currentYear);
    FormatParseRoundTrip(v);
    FormatVersion(v)
  }

  /** A bump never goes back: unless the current version's year is later than the
      current year, the new version is later in (year, release) order. */
  lemma BumpIncreases(current: string, currentYear: nat)
    requires ParseVersion(current).Some? && ParseVersion(current).value.year <= currentYear
    ensures var before := ParseVersion(current).value;
      var after := ParseVersion(NewVersion(current, currentYear)).value;
      before.year < after.year || (before.year == after.year && before.release < after.release)
  {
  }

  /** The git tag (scripts/bump.js:34). */
  function Tag(version: string): string {
    "v" + version
  }

  /** The tag starts with `v` and the rest of it reads back as the new version. */
  lemma TagNamesNewVersion(current: string, currentYear: nat)
    ensures var t := Tag(NewVersion(current, currentYear));
      && |t| >= 4 && t[0] == 'v' && t[1..] == NewVersion(current, currentYear)
      && ParseVersion(t[1..]) == Some(NextVersion(current, currentYear))
  {
    var v := NewVersion(current, currentYear);
    assert Tag(v)[1..] == v;
  }
}
