/** Calendar dates in the proleptic Gregorian calendar, the `YYYY-MM-DD`
    text form the task sheet uses, and day numbers (Python's
    `date.toordinal()`: 0001-01-01 is day 1). Subtracting two day numbers is
    `(a - b).days` for two midnight datetimes. */
module Dates {
  import opened Text
  import opened Wrappers

  datatype Date = Date(year: int, month: int, day: int)

  predicate IsLeap(y: int) {
    y % 4 == 0 && (y % 100 != 0 || y % 400 == 0)
  }

  function DaysInMonth(y: int, m: int): (n: int)
    requires 1 <= m <= 12
    ensures 28 <= n <= 31
  {
    if m == 2 then (if IsLeap(y) then 29 else 28)
    else if m == 4 || m == 6 || m == 9 || m == 11 then 30
    else 31
  }

  function DaysInYear(y: int): int {
    if IsLeap(y) then 366 else 365
  }

  /** The dates Python's `datetime` can represent. */
  predicate Valid(d: Date) {
    1 <= d.year <= 9999 && 1 <= d.month <= 12 && 1 <= d.day <= DaysInMonth(d.year, d.month)
  }

  /** Days in the months of year `y` before month `m`; `m == 13` gives the
      whole year. */
  function DaysBeforeMonth(y: int, m: int): (n: int)
    requires 1 <= m <= 13
    ensures 0 <= n <= DaysInYear(y)
    ensures m == 13 ==> n == DaysInYear(y)
  {
    var cumulative := [0, 31, 59, 90, 120, 151, 181, 212, 243, 273, 304, 334, 365];
    cumulative[m - 1] + (if IsLeap(y) && m > 2 then 1 else 0)
  }

  /** The cumulative table agrees with the month lengths. */
  lemma MonthStep(y: int, m: int)
    requires 1 <= m <= 12
    ensures DaysBeforeMonth(y, m + 1) == DaysBeforeMonth(y, m) + DaysInMonth(y, m)
  {
  }

  function DaysBeforeYear(y: int): int {
    var p := y - 1;
    365 * p + p / 4 - p / 100 + p / 400
  }

  /** `date.toordinal()` */
  function Ordinal(d: Date): int
    requires Valid(d)
  {
    DaysBeforeYear(d.year) + DaysBeforeMonth(d.year, d.month) + d.day
  }

  /** The date `k` days after the first of January of year `y`, found by
      walking the months (`datetime(y, 1, 1) + timedelta(days=k)` within the
      year). */
  function DateInYear(y: int, k: nat): (d: Date)
    requires 1 <= y <= 9999 && k < DaysInYear(y)
    ensures Valid(d) && d.year == y
    ensures Ordinal(d) == DaysBeforeYear(y) + k + 1
  {
    MonthWalk(y, 1, k)
  }

  function MonthWalk(y: int, m: int, k: nat): (d: Date)
    requires 1 <= y <= 9999 && 1 <= m <= 12
    requires DaysBeforeMonth(y, m) + k < DaysInYear(y)
    ensures Valid(d) && d.year == y && d.month >= m
    ensures Ordinal(d) == DaysBeforeYear(y) + DaysBeforeMonth(y, m) + k + 1
    decreases 12 - m
  {
    if k < DaysInMonth(y, m) then Date(y, m, k + 1)
    else
      MonthStep(y, m);
      MonthWalk(y, m + 1, k - DaysInMonth(y, m))
  }

  /** `date.strftime("%Y-%m-%d")` */
  function FormatIso(d: Date): (s: string)
    requires Valid(d)
    ensures |s| == 10 && s[4] == '-' && s[7] == '-'
    ensures AllDigits(s[..4]) && AllDigits(s[5..7]) && AllDigits(s[8..])
  {
    NatToStringLength(d.year, 4, 10000);
    NatToStringLength(d.month, 2, 100);
    NatToStringLength(d.day, 2, 100);
    var s := PadNat(d.year, 4) + "-" + PadNat(d.month, 2) + "-" + PadNat(d.day, 2);
    assert s[..4] == PadNat(d.year, 4);
    assert s[5..7] == PadNat(d.month, 2);
    assert s[8..] == PadNat(d.day, 2);
    s
  }

  /** `datetime.strptime(s, "%Y-%m-%d")`, for the zero-padded form: four
      digits, a dash, two digits, a dash, two digits, naming a real date.
      `None` stands for the `ValueError` the parser raises. */
  function ParseIso(s: string): (r: Option<Date>)
    ensures r.Some? ==> Valid(r.value) && |s| == 10 && s[4] == '-' && s[7] == '-'
    ensures r.Some? ==> AllDigits(s[..4]) && AllDigits(s[5..7]) && AllDigits(s[8..])
  {
    if |s| == 10 && s[4] == '-' && s[7] == '-'
       && AllDigits(s[..4]) && AllDigits(s[5..7]) && AllDigits(s[8..])
    then
      var d := Date(DigitsValue(s[..4]), DigitsValue(s[5..7]), DigitsValue(s[8..]));
      if Valid(d) then Some(d) else None
    else None
  }

  /** Formatting then parsing gives the date back. */
  lemma FormatIsoRoundTrip(d: Date)
    requires Valid(d)
    ensures ParseIso(FormatIso(d)) == Some(d)
  {
    var s := FormatIso(d);
    NatToStringLength(d.year, 4, 10000);
    NatToStringLength(d.month, 2, 100);
    NatToStringLength(d.day, 2, 100);
    assert s[..4] == PadNat(d.year, 4);
    assert s[5..7] == PadNat(d.month, 2);
    assert s[8..] == PadNat(d.day, 2);
    PadNatValue(d.year, 4);
    PadNatValue(d.month, 2);
    PadNatValue(d.day, 2);
  }

  /** Parsing accepts only strings that are the formatting of their date. */
  lemma ParseIsoCanonical(s: string)
    requires ParseIso(s).Some?
    ensures FormatIso(ParseIso(s).value) == s
  {
    var d := ParseIso(s).value;
    var f := FormatIso(d);
    FormatIsoRoundTrip(d);
    DigitsCanonical(s[..4], f[..4]);
    DigitsCanonical(s[5..7], f[5..7]);
    DigitsCanonical(s[8..], f[8..]);
    assert s == s[..4] + "-" + s[5..7] + "-" + s[8..];
    assert f == f[..4] + "-" + f[5..7] + "-" + f[8..];
  }

  /** Two digit strings of the same length and value are equal. */
  lemma {:induction false} DigitsCanonical(a: string, b: string)
    requires AllDigits(a) && AllDigits(b) && |a| == |b|
    requires DigitsValue(a) == DigitsValue(b)
    ensures a == b
  {
    if a != [] {
      var n := |a| - 1;
      assert DigitValue(a[n]) == DigitValue(b[n]);
      DigitsCanonical(a[..n], b[..n]);
      assert a == a[..n] + [a[n]];
      assert b == b[..n] + [b[n]];
    }
  }

  const MonthAbbrevs: seq<string> :=
    ["Jan", "Feb", "Mar", "Apr", "May", "Jun", "Jul", "Aug", "Sep", "Oct", "Nov", "Dec"]

  /** `date.strftime("%b %d, %Y")` in the C locale, e.g. "Mar 05, 2025". */
  function FormatLong(d: Date): (s: string)
    requires Valid(d)
    ensures |s| > 6 && AllDigits(s[4..6])
    ensures s[..3] == MonthAbbrevs[d.month - 1]
    ensures DigitsValue(s[4..6]) == d.day
    ensures |s| > 8 && s[6..8] == ", " && AllDigits(s[8..]) && DigitsValue(s[8..]) == d.year
    ensures s[3] == ' ' && s[8] != '0'
  {
    NatToStringLength(d.day, 2, 100);
    PadNatValue(d.day, 2);
    NatToStringValue(d.year);
    assert |MonthAbbrevs[d.month - 1]| == 3;
    var s := MonthAbbrevs[d.month - 1] + " " + PadNat(d.day, 2) + ", " + NatToString(d.year);
    assert s[4..6] == PadNat(d.day, 2);
    assert s[6..8] == ", ";
    assert s[8..] == NatToString(d.year);
    assert s[8] == NatToString(d.year)[0];
    s
  }
}
