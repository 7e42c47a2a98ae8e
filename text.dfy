/**
 * Text helpers with Rust's semantics: decimal formatting (`format!("{}")`,
 * `{:02}`), integer parsing (`str::parse` for the integer types), `trim`,
 * splitting on a character, and ASCII lower-casing.
 */
module Text {
  import opened Wrappers

  predicate IsDigit(c: char) { '0' <= c <= '9' }

  function DigitChar(d: nat): (c: char)
    requires d < 10
    ensures IsDigit(c) && c as int - '0' as int == d
  {
    (d + '0' as int) as char
  }

  function DigitValue(c: char): (d: nat)
    requires IsDigit(c)
    ensures d < 10
  {
    c as int - '0' as int
  }

  /** Value of a string of decimal digits, most significant first. */
  function DigitsValue(s: string): (r: nat)
    requires AllDigits(s)
  {
    if s == [] then 0 else 10 * DigitsValue(s[..|s| - 1]) + DigitValue(s[|s| - 1])
  }

  /** `format!("{}", n)` for a non-negative integer. */
  function NatToDecimal(n: nat): (r: string)
    ensures |r| >= 1
    ensures forall i :: 0 <= i < |r| ==> IsDigit(r[i])
    ensures r[0] == '0' ==> n == 0
    decreases n
  {
    if n < 10 then [DigitChar(n)] else NatToDecimal(n / 10) + [DigitChar(n % 10)]
  }

  /** `format!("{}", x)` for a signed integer. */
  function IntToDecimal(x: int): (r: string)
    ensures |r| >= 1
  {
    if x < 0 then "-" + NatToDecimal(-x) else NatToDecimal(x)
  }

  /** `format!("{:02}", n)`: at least two digits, zero-padded. */
  function TwoDigits(n: nat): (r: string)
    ensures |r| >= 2
  {
    if n < 10 then "0" + NatToDecimal(n) else NatToDecimal(n)
  }

  lemma {:induction false} DecimalRoundTrip(n: nat)
    ensures DigitsValue(NatToDecimal(n)) == n
    decreases n
  {
    if n >= 10 {
      DecimalRoundTrip(n / 10);
      var s := NatToDecimal(n);
      assert s[..|s| - 1] == NatToDecimal(n / 10);
    }
  }

  /**
   * `str::parse::<T>()` for an integer type whose range is `lo..=hi`: an
   * optional `+` (or `-` when the type is signed), then one or more decimal
   * digits, and a value inside the range; anything else is an error.
   */
  function ParseInt(s: string, lo: int, hi: int): (r: Option<int>)
    requires lo <= 0 < hi
    ensures r.Some? ==> lo <= r.value <= hi
  {
    if s == [] then None
    else if (s[0] == '+' || s[0] == '-') && |s| == 1 then None
    else if !AllDigits(DigitsPart(s, lo)) then None
    else
      var v: int := if Negative(s, lo) then -(DigitsValue(DigitsPart(s, lo)) as int) else DigitsValue(DigitsPart(s, lo));
      if lo <= v <= hi then Some(v) else None
  }

  predicate AllDigits(s: string) { forall i :: 0 <= i < |s| ==> IsDigit(s[i]) }

  /** A leading `-` is a sign only for signed types. */
  predicate Negative(s: string, lo: int)
  {
    s != [] && s[0] == '-' && lo < 0
  }

  /** The part of `s` after its sign, if it has one. */
  function DigitsPart(s: string, lo: int): (d: string)
    ensures |d| <= |s|
  {
    if s != [] && (s[0] == '+' || Negative(s, lo)) then s[1..] else s
  }

  const I32_MIN: int := -0x8000_0000
  const I32_MAX: int := 0x7FFF_FFFF
  const U64_MAX: int := 0xFFFF_FFFF_FFFF_FFFF

  /** Parsing a formatted in-range number gives the number back. */
  lemma ParseFormatted(n: nat, lo: int, hi: int)
    requires lo <= 0 < hi && n <= hi
    ensures ParseInt(NatToDecimal(n), lo, hi) == Some(n)
  {
    DecimalRoundTrip(n);
  }

  /** A successful parse sees only digits after the optional sign, so a string containing `c` (not a digit or sign) never parses. */
  lemma ParseRejects(s: string, lo: int, hi: int, i: nat)
    requires lo <= 0 < hi && i < |s|
    requires !IsDigit(s[i]) && (i > 0 || (s[i] != '+' && s[i] != '-'))
    ensures ParseInt(s, lo, hi) == None
  {
    var digits := DigitsPart(s, lo);
    var j := if s[0] == '+' || Negative(s, lo) then i - 1 else i;
    assert 0 <= j < |digits| && digits[j] == s[i];
  }

  /** Rust's `char::is_whitespace`: the Unicode White_Space property. */
  predicate IsWhiteSpace(c: char)
  {
    ('\U{9}' <= c <= '\U{D}') || c == ' ' || c == '\U{85}' || c == '\U{A0}' || c == '\U{1680}'
    || ('\U{2000}' <= c <= '\U{200A}') || c == '\U{2028}' || c == '\U{2029}' || c == '\U{202F}'
    || c == '\U{205F}' || c == '\U{3000}'
  }

  function TrimStart(s: string): (r: string)
    ensures |r| <= |s| && r == s[|s| - |r|..]
    ensures r != [] ==> !IsWhiteSpace(r[0])
    ensures forall i :: 0 <= i < |s| - |r| ==> IsWhiteSpace(s[i])
  {
    if s != [] && IsWhiteSpace(s[0]) then TrimStart(s[1..]) else s
  }

  function TrimEnd(s: string): (r: string)
    ensures |r| <= |s| && r == s[..|r|]
    ensures r != [] ==> !IsWhiteSpace(r[|r| - 1])
    ensures forall i :: |r| <= i < |s| ==> IsWhiteSpace(s[i])
  {
    if s != [] && IsWhiteSpace(s[|s| - 1]) then TrimEnd(s[..|s| - 1]) else s
  }

  /** `str::trim` */
  function Trim(s: string): (r: string)
    ensures r != [] ==> !IsWhiteSpace(r[0]) && !IsWhiteSpace(r[|r| - 1])
  {
    TrimEnd(TrimStart(s))
  }

  function AsciiLowerChar(c: char): (r: char)
  {
    if 'A' <= c <= 'Z' then (c as int + 32) as char else c
  }

  /** Lower-casing of the ASCII letters; every other character is kept. */
  function AsciiLower(s: string): (r: string)
    ensures |r| == |s|
    ensures forall i :: 0 <= i < |s| ==> r[i] == AsciiLowerChar(s[i])
  {
    if s == [] then [] else [AsciiLowerChar(s[0])] + AsciiLower(s[1..])
  }

  /** Index of the first occurrence of `c`, as `str::find(c)`. */
  function Find(s: string, c: char): (r: Option<nat>)
    ensures r.Some? ==> r.value < |s| && s[r.value] == c && forall j :: 0 <= j < r.value ==> s[j] != c
    ensures r.None? ==> forall j :: 0 <= j < |s| ==> s[j] != c
  {
    if s == [] then None
    else if s[0] == c then Some(0)
    else match Find(s[1..], c)
      case None => None
      case Some(k) => Some(k + 1)
  }

  /** `str::split(c)`: the pieces between occurrences of `c` (always at least one). */
  function Split(s: string, c: char): (r: seq<string>)
    ensures |r| >= 1
    ensures forall i, j :: 0 <= i < |r| && 0 <= j < |r[i]| ==> r[i][j] != c
    decreases |s|
  {
    match Find(s, c)
      case None => [s]
      case Some(k) => [s[..k]] + Split(s[k + 1..], c)
  }

  function Join(parts: seq<string>, c: char): (r: string)
    requires |parts| >= 1
  {
    if |parts| == 1 then parts[0] else parts[0] + [c] + Join(parts[1..], c)
  }

  /** Splitting loses nothing: joining the pieces with the separator gives the input back. */
  lemma {:induction false} SplitJoin(s: string, c: char)
    ensures Join(Split(s, c), c) == s
    decreases |s|
  {
    match Find(s, c)
      case None =>
      case Some(k) =>
        var rest := Split(s[k + 1..], c);
        var parts := [s[..k]] + rest;
        assert Split(s, c) == parts;
        assert parts[1..] == rest;
        assert Join(parts, c) == s[..k] + [c] + Join(rest, c);
        SplitJoin(s[k + 1..], c);
        assert s == s[..k] + [c] + s[k + 1..];
  }
}
