/** Decimal text of 32-bit integers: `Int32.ToString()` and `int.Parse`
    as the claim round trip uses them (invariant culture, default
    NumberStyles.Integer). */
module Int32Text {
  import opened Errors

  const MinInt32: int := -0x8000_0000
  const MaxInt32: int := 0x7FFF_FFFF

  /** The C# `int`. */
  type Int32 = x: int | MinInt32 <= x <= MaxInt32

  predicate IsDigit(c: char) {
    '0' <= c <= '9'
  }

  predicate AllDigits(s: string) {
    forall i :: 0 <= i < |s| ==> IsDigit(s[i])
  }

  /** White space NumberStyles.Integer accepts around a number:
      U+0009 to U+000D and U+0020. */
  predicate IsNumberWhite(c: char) {
    c == ' ' || '\t' <= c <= '\r'
  }

  function DigitValue(c: char): (d: nat)
    requires IsDigit(c)
    ensures d < 10
  {
    c as int - '0' as int
  }

  function DigitChar(d: nat): (c: char)
    requires d < 10
    ensures IsDigit(c) && DigitValue(c) == d
  {
    ('0' as int + d) as char
  }

  /** The number a string of decimal digits denotes, most significant first. */
  function DigitsValue(s: string): nat
    requires AllDigits(s)
  {
    if s == [] then 0 else DigitsValue(s[..|s| - 1]) * 10 + DigitValue(s[|s| - 1])
  }

  /** Canonical decimal digits of a natural number: at least one digit and
      no leading zero. */
  function NatDigits(n: nat): (s: string)
    ensures |s| > 0 && AllDigits(s)
    ensures |s| > 1 ==> s[0] != '0'
  {
    if n < 10 then [DigitChar(n)] else NatDigits(n / 10) + [DigitChar(n % 10)]
  }

  /** `Int32.ToString()`: a '-' before the digits of a negative number,
      the bare digits otherwise. */
  function FormatInt(n: Int32): (s: string)
    ensures |s| > 0 && IsDigit(s[|s| - 1])
    ensures n < 0 <==> s[0] == '-'
    ensures n >= 0 <==> IsDigit(s[0])
    ensures AllDigits(Unsigned(s)) && (|Unsigned(s)| > 1 ==> Unsigned(s)[0] != '0')
  {
    var m: int := n;
    if m < 0 then "-" + NatDigits(-m) else NatDigits(m)
  }

  function TrimStart(s: string): (t: string)
    ensures |t| <= |s| && t == s[|s| - |t|..]
    ensures t != [] ==> !IsNumberWhite(t[0])
  {
    if s != [] && IsNumberWhite(s[0]) then TrimStart(s[1..]) else s
  }

  function TrimEnd(s: string): (t: string)
    ensures |t| <= |s| && t == s[..|t|]
    ensures t != [] ==> !IsNumberWhite(t[|t| - 1])
  {
    if s != [] && IsNumberWhite(s[|s| - 1]) then TrimEnd(s[..|s| - 1]) else s
  }

  function Trim(s: string): string {
    TrimEnd(TrimStart(s))
  }

  /** The digits after an optional leading sign. */
  function Unsigned(t: string): string {
    if t != [] && (t[0] == '-' || t[0] == '+') then t[1..] else t
  }

  /** The shape NumberStyles.Integer accepts once surrounding white space
      is removed: an optional sign and at least one ASCII digit. */
  predicate IsIntegerSyntax(t: string) {
    Unsigned(t) != [] && AllDigits(Unsigned(t))
  }

  /** The number an optionally signed digit string denotes. */
  function SignedValue(t: string): int
    requires IsIntegerSyntax(t)
  {
    if t[0] == '-' then -(DigitsValue(Unsigned(t)) as int) else DigitsValue(Unsigned(t))
  }

  /** `int.Parse(s)`: a malformed string is a format error, a well-formed
      number outside the Int32 range an overflow error. */
  function ParseInt(s: string): (r: Result<Int32>)
    ensures r == Err(FormatError) <==> !IsIntegerSyntax(Trim(s))
    ensures IsIntegerSyntax(Trim(s)) ==>
              && (r == Err(OverflowError) <==> !(MinInt32 <= SignedValue(Trim(s)) <= MaxInt32))
              && (r.Ok? ==> r.value == SignedValue(Trim(s)))
    ensures r.Err? ==> r.error == FormatError || r.error == OverflowError
  {
    var t := Trim(s);
    if !IsIntegerSyntax(t) then Err(FormatError)
    else
      var magnitude: int := DigitsValue(Unsigned(t));
      var v: int := if t[0] == '-' then -magnitude else magnitude;
      if MinInt32 <= v <= MaxInt32 then Ok(v) else Err(OverflowError)
  }

  lemma {:induction false} NatDigitsValue(n: nat)
    ensures DigitsValue(NatDigits(n)) == n
  {
    if n >= 10 {
      var s := NatDigits(n);
      assert s[..|s| - 1] == NatDigits(n / 10);
      NatDigitsValue(n / 10);
    }
  }

  lemma TrimUnchanged(s: string)
    requires s != [] && !IsNumberWhite(s[0]) && !IsNumberWhite(s[|s| - 1])
    ensures Trim(s) == s
  {
    assert TrimStart(s) == s;
    assert TrimEnd(s) == s;
  }

  /** The magnitude `ToString` writes for `n`, and the text without its sign. */
  lemma UnsignedFormat(n: Int32)
    ensures var m: int := n;
            Unsigned(FormatInt(n)) == NatDigits(if m < 0 then -m else m)
  {
    var m: int := n;
    if m < 0 {
      assert FormatInt(n) == "-" + NatDigits(-m);
    }
  }

  /** `ParseInt` on text that has no surrounding white space and the right
      shape: the signed value of its digits, when in range. */
  lemma ParseTrimmed(s: string, v: Int32)
    requires Trim(s) == s && IsIntegerSyntax(s)
    requires v == SignedValue(s)
    ensures ParseInt(s) == Ok(v)
  {
  }

  /** Parsing the text `ToString` writes gives the number back. */
  lemma FormatParseRoundTrip(n: Int32)
    ensures ParseInt(FormatInt(n)) == Ok(n)
  {
    var s := FormatInt(n);
    var m: int := n;
    var magnitude: nat := if m < 0 then -m else m;
    TrimUnchanged(s);
    UnsignedFormat(n);
    NatDigitsValue(magnitude);
    assert DigitsValue(Unsigned(s)) == magnitude;
    ParseTrimmed(s, n);
  }

  /** Different numbers have different texts. */
  lemma FormatIntInjective(m: Int32, n: Int32)
    requires FormatInt(m) == FormatInt(n)
    ensures m == n
  {
    FormatParseRoundTrip(m);
    FormatParseRoundTrip(n);
  }
}
