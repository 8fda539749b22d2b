/** Character and string helpers that stand in for the Python `str` methods the
    dashboard relies on: `strip`, `lower`, `title`, `startswith`, substring
    search and decimal rendering of integers. Letters and whitespace are the
    ASCII ones. */
module Text {

  /** Characters Python's `str.isspace` accepts in the ASCII range. */
  predicate IsSpace(c: char) {
    c == ' ' || c == '\t' || c == '\n' || c == '\r' || c == '\U{000B}' || c == '\U{000C}'
    || c == '\U{001C}' || c == '\U{001D}' || c == '\U{001E}' || c == '\U{001F}'
  }

  predicate AllSpace(s: string) {
    forall i :: 0 <= i < |s| ==> IsSpace(s[i])
  }

  predicate IsUpper(c: char) { 'A' <= c <= 'Z' }
  predicate IsLowerLetter(c: char) { 'a' <= c <= 'z' }
  predicate IsLetter(c: char) { IsUpper(c) || IsLowerLetter(c) }

  function LowerChar(c: char): (r: char)
    ensures IsLetter(c) <==> IsLetter(r)
    ensures !IsUpper(r)
    ensures IsSpace(c) <==> IsSpace(r)
    ensures !IsUpper(c) ==> r == c
  {
    if IsUpper(c) then (c as int + 32) as char else c
  }

  function UpperChar(c: char): (r: char)
    ensures IsLetter(c) <==> IsLetter(r)
    ensures !IsLowerLetter(r)
    ensures !IsLowerLetter(c) ==> r == c
  {
    if IsLowerLetter(c) then (c as int - 32) as char else c
  }

  lemma UpperOfLower(c: char)
    ensures UpperChar(LowerChar(c)) == UpperChar(c)
  {
  }

  /** `str.lower()`: every character lowered, nothing else changes. */
  function Lower(s: string): (r: string)
    ensures |r| == |s|
    ensures forall i :: 0 <= i < |s| ==> r[i] == LowerChar(s[i])
  {
    if s == [] then [] else [LowerChar(s[0])] + Lower(s[1..])
  }

  lemma {:induction false} LowerIdempotent(s: string)
    ensures Lower(Lower(s)) == Lower(s)
  {
    var l := Lower(s);
    assert forall i :: 0 <= i < |l| ==> Lower(l)[i] == l[i];
  }

  /** A string with no capital letter is its own lower case. */
  lemma LowerFixed(s: string)
    requires forall i :: 0 <= i < |s| ==> !IsUpper(s[i])
    ensures Lower(s) == s
  {
  }

  /** `str.lstrip()` */
  function TrimStart(s: string): (r: string)
    ensures |r| <= |s| && r == s[|s| - |r|..]
    ensures AllSpace(s[..|s| - |r|])
    ensures r != [] ==> !IsSpace(r[0])
  {
    if s != [] && IsSpace(s[0]) then
      var r := TrimStart(s[1..]);
      assert s[..|s| - |r|] == [s[0]] + s[1..][..|s| - 1 - |r|];
      r
    else s
  }

  /** `str.rstrip()` */
  function TrimEnd(s: string): (r: string)
    ensures |r| <= |s| && r == s[..|r|]
    ensures AllSpace(s[|r|..])
    ensures r != [] ==> !IsSpace(r[|r| - 1])
  {
    if s != [] && IsSpace(s[|s| - 1]) then
      var r := TrimEnd(s[..|s| - 1]);
      assert s[|r|..] == s[..|s| - 1][|r|..] + [s[|s| - 1]];
      r
    else s
  }

  /** `str.strip()`: the part of `s` between its leading and its trailing
      whitespace; empty exactly when `s` is all whitespace. */
  function Strip(s: string): (r: string)
    ensures |r| <= |s|
    ensures r == [] <==> AllSpace(s)
    ensures r != [] ==> !IsSpace(r[0]) && !IsSpace(r[|r| - 1])
    ensures Surrounded(s, LeadingSpaces(s), r)
  {
    StripFacts(s);
    StripSlice(s);
    TrimEnd(TrimStart(s))
  }

  /** `r` is the slice of `s` that starts at `i`, and `s` has only
      whitespace before and after it. */
  predicate Surrounded(s: string, i: nat, r: string) {
    i + |r| <= |s| && r == s[i..i + |r|] && AllSpace(s[..i]) && AllSpace(s[i + |r|..])
  }

  /** The number of whitespace characters `s` starts with. */
  function LeadingSpaces(s: string): (n: nat)
    ensures n <= |s| && AllSpace(s[..n])
    ensures n < |s| ==> !IsSpace(s[n])
  {
    var a := TrimStart(s);
    assert a != [] ==> s[|s| - |a|] == a[0];
    |s| - |a|
  }

  /** The stripped text is the slice of `s` after its leading whitespace,
      with only whitespace after it. */
  lemma StripSlice(s: string)
    ensures Surrounded(s, LeadingSpaces(s), TrimEnd(TrimStart(s)))
  {
    var a := TrimStart(s);
    SliceOfSuffix(s, a, TrimEnd(a));
  }

  /** A prefix `r` of a suffix `a` of `s`, with whitespace around both cuts,
      sits in `s` surrounded by whitespace. */
  lemma SliceOfSuffix(s: string, a: string, r: string)
    requires |a| <= |s| && a == s[|s| - |a|..] && AllSpace(s[..|s| - |a|])
    requires |r| <= |a| && r == a[..|r|] && AllSpace(a[|r|..])
    ensures Surrounded(s, |s| - |a|, r)
  {
    var i := |s| - |a|;
    assert s[i + |r|..] == a[|r|..];
  }

  lemma StripFacts(s: string)
    ensures TrimEnd(TrimStart(s)) == [] <==> AllSpace(s)
  {
    var a := TrimStart(s);
    var k := |s| - |a|;
    if TrimEnd(a) == [] {
      assert AllSpace(a) by { assert a[0..] == a; }
      assert a == [];
      forall i | 0 <= i < |s| ensures IsSpace(s[i]) {
        assert s[..k][i] == s[i];
      }
    } else {
      assert a[0] == TrimEnd(a)[0];
      assert s[k] == a[0];
    }
  }

  /** Stripping a string that has no surrounding whitespace changes nothing. */
  lemma {:induction false} StripOfStripped(s: string)
    requires s != [] ==> !IsSpace(s[0]) && !IsSpace(s[|s| - 1])
    ensures Strip(s) == s
  {
    if s != [] {
      assert TrimStart(s) == s;
      assert TrimEnd(s) == s;
    }
  }

  lemma StripIdempotent(s: string)
    ensures Strip(Strip(s)) == Strip(s)
  {
    StripOfStripped(Strip(s));
  }

  lemma {:induction false} TrimStartLower(s: string)
    ensures TrimStart(Lower(s)) == Lower(TrimStart(s))
  {
    if s != [] {
      assert Lower(s)[1..] == Lower(s[1..]);
      if IsSpace(s[0]) {
        TrimStartLower(s[1..]);
      }
    }
  }

  lemma {:induction false} TrimEndLower(s: string)
    ensures TrimEnd(Lower(s)) == Lower(TrimEnd(s))
  {
    if s != [] {
      assert Lower(s)[..|s| - 1] == Lower(s[..|s| - 1]);
      if IsSpace(s[|s| - 1]) {
        TrimEndLower(s[..|s| - 1]);
      }
    }
  }

  /** Lower-casing and stripping commute, so `s.lower().strip()` and
      `s.strip().lower()` agree. */
  lemma StripLowerCommute(s: string)
    ensures Strip(Lower(s)) == Lower(Strip(s))
  {
    TrimStartLower(s);
    TrimEndLower(TrimStart(s));
  }

  /** The `strip().lower()` normal form ignores case and surrounding
      whitespace: normalising a string already normalised changes nothing. */
  lemma NormalizeIdempotent(s: string)
    ensures Lower(Strip(Lower(Strip(s)))) == Lower(Strip(s))
  {
    StripLowerCommute(Strip(s));
    StripIdempotent(s);
    LowerIdempotent(Strip(s));
  }

  /** Character `i` of `str.title()` applied to `s`, read off its
      neighbour: a non-letter stays; a letter is lower-cased when the
      character before it is a letter (or, at the start, when `casedBefore`
      says the text before `s` ended in one) and upper-cased otherwise. */
  function TitledAt(s: string, i: nat, casedBefore: bool): char
    requires i < |s|
  {
    var cased := if i == 0 then casedBefore else IsLetter(s[i - 1]);
    if !IsLetter(s[i]) then s[i]
    else if cased then LowerChar(s[i])
    else UpperChar(s[i])
  }

  /** `str.title()` on ASCII, scanning left to right with a flag that says
      whether the previous character was a letter. */
  function TitleFrom(s: string, prevCased: bool): (r: string)
    ensures |r| == |s|
    ensures forall i :: 0 <= i < |s| ==> r[i] == TitledAt(s, i, prevCased)
  {
    if s == [] then []
    else
      var c := s[0];
      var rest := TitleFrom(s[1..], IsLetter(c));
      assert forall i :: 1 <= i < |s| ==> TitledAt(s[1..], i - 1, IsLetter(c)) == TitledAt(s, i, prevCased);
      if IsLetter(c) then
        [if prevCased then LowerChar(c) else UpperChar(c)] + rest
      else
        [c] + rest
  }

  /** `str.title()`: every word's first letter becomes a capital, every
      other letter a small letter, and nothing else changes. */
  function Title(s: string): (r: string)
    ensures |r| == |s|
    ensures forall i :: 0 <= i < |s| && !IsLetter(s[i]) ==> r[i] == s[i]
    ensures forall i :: 0 <= i < |s| && IsLetter(s[i]) ==>
      if i > 0 && IsLetter(s[i - 1]) then r[i] == LowerChar(s[i]) else r[i] == UpperChar(s[i])
    ensures forall i :: 0 <= i < |s| ==> LowerChar(r[i]) == LowerChar(s[i])
  {
    TitleFrom(s, false)
  }

  lemma {:induction false} TitleFromLower(s: string, prevCased: bool)
    ensures TitleFrom(Lower(s), prevCased) == TitleFrom(s, prevCased)
  {
    if s != [] {
      assert Lower(s)[1..] == Lower(s[1..]);
      TitleFromLower(s[1..], IsLetter(s[0]));
      UpperOfLower(s[0]);
    }
  }

  /** `title()` ignores the case of its input. */
  lemma TitleIgnoresCase(s: string)
    ensures Title(Lower(s)) == Title(s)
  {
    TitleFromLower(s, false);
  }

  /** `s.startswith(p)` */
  predicate StartsWith(s: string, p: string) {
    |p| <= |s| && s[..|p|] == p
  }

  /** `sub in s`: `sub` occurs somewhere in `s`. */
  predicate Contains(s: string, sub: string)
    decreases |s|
  {
    StartsWith(s, sub) || (s != [] && Contains(s[1..], sub))
  }

  /** `Contains` agrees with the definition by position. */
  lemma {:induction false} ContainsAt(s: string, sub: string, k: nat)
    requires k + |sub| <= |s| && s[k..k + |sub|] == sub
    ensures Contains(s, sub)
  {
    if k > 0 {
      assert s[1..][k - 1..k - 1 + |sub|] == sub;
      ContainsAt(s[1..], sub, k - 1);
    }
  }

  /** A string contains itself. */
  lemma ContainsSelf(s: string)
    ensures Contains(s, s)
  {
    ContainsAt(s, s, 0);
  }

  /** A string made of two parts and a separator contains each part. */
  lemma ContainsParts(a: string, sep: string, b: string)
    ensures Contains(a + sep + b, a) && Contains(a + sep + b, b)
  {
    var s := a + sep + b;
    assert s[0..|a|] == a;
    ContainsAt(s, a, 0);
    assert s[|a| + |sep|..|s|] == b;
    ContainsAt(s, b, |a| + |sep|);
  }

  predicate IsDigit(c: char) { '0' <= c <= '9' }

  predicate AllDigits(s: string) {
    forall i :: 0 <= i < |s| ==> IsDigit(s[i])
  }

  function DigitChar(d: nat): (c: char)
    requires d < 10
    ensures IsDigit(c)
  {
    ('0' as int + d) as char
  }

  function DigitValue(c: char): (d: nat)
    requires IsDigit(c)
    ensures d < 10 && DigitChar(d) == c
  {
    c as int - '0' as int
  }

  /** Decimal digits of a natural number, most significant first, no leading
      zero (Python's `str(n)` for `n >= 0`). */
  function NatToString(n: nat): (s: string)
    ensures s != [] && AllDigits(s)
    ensures |s| > 1 ==> s[0] != '0'
  {
    if n < 10 then [DigitChar(n)] else NatToString(n / 10) + [DigitChar(n % 10)]
  }

  /** Value of a string of decimal digits. */
  function DigitsValue(s: string): nat
    requires AllDigits(s)
  {
    if s == [] then 0 else DigitsValue(s[..|s| - 1]) * 10 + DigitValue(s[|s| - 1])
  }

  /** Rendering then reading back gives the number again. */
  lemma {:induction false} NatToStringValue(n: nat)
    ensures DigitsValue(NatToString(n)) == n
  {
    if n >= 10 {
      var s := NatToString(n);
      assert s[..|s| - 1] == NatToString(n / 10);
      NatToStringValue(n / 10);
    }
  }

  /** Numbers with no more than `k` digits render in at most `k` characters. */
  lemma {:induction false} NatToStringLength(n: nat, k: nat, p: nat)
    requires k >= 1 && p == Pow10(k) && n < p
    ensures |NatToString(n)| <= k
  {
    if n >= 10 {
      NatToStringLength(n / 10, k - 1, Pow10(k - 1));
    }
  }

  /** Numbers of at least `k` digits render in at least `k` characters. */
  lemma {:induction false} NatToStringMinLength(n: nat, k: nat, p: nat)
    requires k >= 1 && p == Pow10(k - 1) && n >= p
    ensures |NatToString(n)| >= k
  {
    if k > 1 {
      NatToStringMinLength(n / 10, k - 1, Pow10(k - 2));
    }
  }

  function Pow10(k: nat): (p: nat)
    ensures p >= 1
  {
    if k == 0 then 1 else 10 * Pow10(k - 1)
  }

  /** Zero-padded rendering with at least `width` digits (`%02d`, `%04d`). */
  function PadNat(n: nat, width: nat): (s: string)
    ensures AllDigits(s) && |s| >= width
    ensures |NatToString(n)| <= width ==> |s| == width
  {
    var d := NatToString(n);
    if |d| >= width then d else Zeros(width - |d|) + d
  }

  function Zeros(k: nat): (s: string)
    ensures |s| == k && AllDigits(s)
    ensures forall i :: 0 <= i < k ==> s[i] == '0'
  {
    if k == 0 then [] else ['0'] + Zeros(k - 1)
  }

  lemma {:induction false} ZerosValue(k: nat, t: string)
    requires AllDigits(t)
    ensures DigitsValue(Zeros(k) + t) == DigitsValue(t)
    decreases |t|
  {
    if t == [] {
      assert Zeros(k) + t == Zeros(k);
      ZerosValueAlone(k);
    } else {
      var z := Zeros(k) + t;
      assert z[..|z| - 1] == Zeros(k) + t[..|t| - 1];
      ZerosValue(k, t[..|t| - 1]);
    }
  }

  lemma {:induction false} ZerosValueAlone(k: nat)
    ensures DigitsValue(Zeros(k)) == 0
  {
    if k > 0 {
      assert Zeros(k)[..k - 1] == Zeros(k - 1) by {
        assert Zeros(k) == ['0'] + Zeros(k - 1);
        ZerosSnoc(k - 1);
      }
      ZerosValueAlone(k - 1);
    }
  }

  lemma {:induction false} ZerosSnoc(k: nat)
    ensures ['0'] + Zeros(k) == Zeros(k) + ['0']
  {
    if k > 0 {
      ZerosSnoc(k - 1);
      assert ['0'] + Zeros(k) == ['0'] + (['0'] + Zeros(k - 1));
    }
  }

  /** Padding does not change the value read back. */
  lemma PadNatValue(n: nat, width: nat)
    ensures DigitsValue(PadNat(n, width)) == n
  {
    NatToStringValue(n);
    var d := NatToString(n);
    if |d| < width {
      assert PadNat(n, width) == Zeros(width - |d|) + d;
      ZerosValue(width - |d|, d);
    } else {
      assert PadNat(n, width) == d;
    }
  }
}
