/**
 * The .NET string helpers the converters rely on: `char.IsWhiteSpace`, `string.Trim`,
 * `string.IsNullOrEmpty`, `string.IsNullOrWhiteSpace`, and the decimal text of 64-bit
 * integers (`long.ToString()` and `long.TryParse` with `NumberStyles.Integer` in the
 * invariant culture).
 */
module Text {
  import opened Wrappers

  const Int64Min: int := -0x8000_0000_0000_0000
  const Int64Max: int := 0x7FFF_FFFF_FFFF_FFFF

  predicate InInt64(n: int) { Int64Min <= n <= Int64Max }

  /** `char.IsWhiteSpace`: the characters of the Unicode White_Space property. */
  predicate IsWhiteSpace(c: char) {
    ('\U{9}' <= c <= '\U{D}') || c == ' ' || c == '\U{85}' || c == '\U{A0}'
    || c == '\U{1680}' || ('\U{2000}' <= c <= '\U{200A}') || c == '\U{2028}'
    || c == '\U{2029}' || c == '\U{202F}' || c == '\U{205F}' || c == '\U{3000}'
  }

  /** The white space `NumberStyles.AllowLeadingWhite`/`AllowTrailingWhite` skip. */
  predicate IsNumberWhite(c: char) {
    ('\U{9}' <= c <= '\U{D}') || c == ' '
  }

  predicate AllSatisfy(s: string, p: char -> bool) {
    forall k :: 0 <= k < |s| ==> p(s[k])
  }

  /** Drops the leading characters satisfying `p`. */
  function TrimStart(s: string, p: char -> bool): (r: string)
    ensures |r| <= |s| && r == s[|s| - |r|..]
    ensures r == [] || !p(r[0])
    ensures forall k :: 0 <= k < |s| - |r| ==> p(s[k])
  {
    if s == [] || !p(s[0]) then s else TrimStart(s[1..], p)
  }

  /** Drops the trailing characters satisfying `p`. */
  function TrimEnd(s: string, p: char -> bool): (r: string)
    ensures |r| <= |s| && r == s[..|r|]
    ensures r == [] || !p(r[|r| - 1])
    ensures forall k :: |r| <= k < |s| ==> p(s[k])
  {
    if s == [] || !p(s[|s| - 1]) then s else TrimEnd(s[..|s| - 1], p)
  }

  function TrimBoth(s: string, p: char -> bool): string {
    TrimEnd(TrimStart(s, p), p)
  }

  lemma TrimNothing(s: string, p: char -> bool)
    requires s != [] && !p(s[0]) && !p(s[|s| - 1])
    ensures TrimBoth(s, p) == s
  {
  }

  /** `string.Trim()`. */
  function Trim(s: string): string {
    TrimBoth(s, IsWhiteSpace)
  }

  /** `string.IsNullOrEmpty`. */
  predicate IsNullOrEmpty(value: Option<string>) {
    value.None? || value.value == []
  }

  /** `string.IsNullOrWhiteSpace`. */
  predicate IsNullOrWhiteSpace(value: Option<string>) {
    value.None? || AllSatisfy(value.value, IsWhiteSpace)
  }

  /** `value?.Trim()` followed by `string.IsNullOrEmpty` asks exactly what
      `string.IsNullOrWhiteSpace` asks. */
  lemma TrimmedEmptyIffWhiteSpace(s: string)
    ensures Trim(s) == [] <==> AllSatisfy(s, IsWhiteSpace)
  {
  }

  // ---- decimal text of integers ----

  predicate IsDigit(c: char) { '0' <= c <= '9' }

  function DigitChar(d: nat): (c: char)
    requires d < 10
    ensures IsDigit(c) && c as int - '0' as int == d
  {
    ('0' as int + d) as char
  }

  /** A non-empty run of ASCII decimal digits. */
  predicate IsDigits(s: string) {
    |s| > 0 && AllSatisfy(s, IsDigit)
  }

  /** The value of a run of decimal digits, most significant first. */
  function DigitsValue(s: string): (n: nat)
    requires AllSatisfy(s, IsDigit)
  {
    if s == [] then 0 else DigitsValue(s[..|s| - 1]) * 10 + (s[|s| - 1] as int - '0' as int)
  }

  /** The shortest decimal text of a natural number. */
  function FormatNat(n: nat): (s: string)
    ensures IsDigits(s)
    ensures |s| == 1 || s[0] != '0'
  {
    if n < 10 then [DigitChar(n)] else FormatNat(n / 10) + [DigitChar(n % 10)]
  }

  /** `long.ToString()` in the invariant culture. */
  function FormatInt(n: int): (s: string)
    ensures |s| > 0
  {
    if n < 0 then "-" + FormatNat(-n) else FormatNat(n)
  }

  lemma {:induction false} DigitsValueOfFormatNat(n: nat)
    ensures DigitsValue(FormatNat(n)) == n
  {
    if n >= 10 {
      var s := FormatNat(n);
      assert s[..|s| - 1] == FormatNat(n / 10);
      DigitsValueOfFormatNat(n / 10);
    }
  }

  /** The value of a signed run of digits, or `None` when `t` is not one. */
  function SignedDigitsValue(t: string): Option<int> {
    if |t| > 0 && (t[0] == '-' || t[0] == '+') && IsDigits(t[1..]) then
      Some(if t[0] == '-' then 0 - DigitsValue(t[1..]) else DigitsValue(t[1..]))
    else if IsDigits(t) then
      Some(DigitsValue(t))
    else
      None
  }

  /** `long.TryParse(s, NumberStyles.Integer, CultureInfo.InvariantCulture, out n)`:
      optional surrounding white space, an optional `+` or `-`, then one or more digits,
      and the value must fit in 64 bits. */
  function TryParseInt64(s: string): (r: Option<int>)
    ensures r.Some? ==> InInt64(r.value)
  {
    match SignedDigitsValue(TrimBoth(s, IsNumberWhite))
    case Some(v) => if InInt64(v) then Some(v) else None
    case None => None
  }

  /** Parsing the text `long.ToString()` produces gives the number back. */
  lemma FormatIntRoundTrip(n: int)
    requires InInt64(n)
    ensures TryParseInt64(FormatInt(n)) == Some(n)
  {
    if n < 0 {
      NegativeText(n);
    } else {
      var s := FormatInt(n);
      TrimNothing(s, IsNumberWhite);
      DigitsValueOfFormatNat(n);
    }
  }

  lemma NegativeText(n: int)
    requires Int64Min <= n < 0
    ensures TryParseInt64(FormatInt(n)) == Some(n)
  {
    var ds := FormatNat(-n);
    DigitsValueOfFormatNat(-n);
    NegativeFormat(n);
    NegativeParsed(ds, n);
  }

  lemma NegativeFormat(n: int)
    requires n < 0
    ensures FormatInt(n) == "-" + FormatNat(-n)
  {
  }

  lemma NegativeParsed(ds: string, n: int)
    requires Int64Min <= n < 0 && IsDigits(ds) && DigitsValue(ds) == -n
    ensures TryParseInt64("-" + ds) == Some(n)
  {
    NegativeTrimmed(ds);
    NegativeValue(ds);
    ParsedAsIs("-" + ds, n);
  }

  lemma ParsedAsIs(s: string, v: int)
    requires TrimBoth(s, IsNumberWhite) == s && SignedDigitsValue(s) == Some(v) && InInt64(v)
    ensures TryParseInt64(s) == Some(v)
  {
  }

  lemma NegativeTrimmed(ds: string)
    requires IsDigits(ds)
    ensures TrimBoth("-" + ds, IsNumberWhite) == "-" + ds
  {
    var s := "-" + ds;
    assert s[|s| - 1] == ds[|ds| - 1];
    TrimNothing(s, IsNumberWhite);
  }

  lemma NegativeValue(ds: string)
    requires IsDigits(ds)
    ensures SignedDigitsValue("-" + ds) == Some(0 - DigitsValue(ds))
  {
    var s := "-" + ds;
    assert s[0] == '-' && s[1..] == ds;
  }

  /** A string with a character that is neither a digit, a sign nor white space
      strictly inside it never parses as an integer. */
  lemma NonIntegerText(s: string, k: nat)
    requires 0 < k < |s| - 1
    requires !IsDigit(s[k]) && !IsNumberWhite(s[k])
    requires !IsNumberWhite(s[0]) && !IsNumberWhite(s[|s| - 1])
    ensures TryParseInt64(s) == None
  {
    TrimNothing(s, IsNumberWhite);
    var t := TrimBoth(s, IsNumberWhite);
    assert !IsDigits(t);
    assert !IsDigits(t[1..]) by { assert t[1..][k - 1] == s[k]; }
  }
}
