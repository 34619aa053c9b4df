/**
  The two conversions between version identifiers and text that the client
  relies on: Python's `float(text)` applied to the `id` of a version, and the
  rendering `f'{version}'` used in a delete URL. Version numbers are integral,
  so only the integral decimal forms are modelled: an optional '-', one or
  more digits, and optionally a '.' followed by zeros ("3", "3.", "3.0").
*/
module FloatText {
  import opened Wrappers

  predicate IsDigit(c: char) {
    '0' <= c <= '9'
  }

  predicate AllDigits(s: string) {
    forall i :: 0 <= i < |s| ==> IsDigit(s[i])
  }

  predicate AllZeros(s: string) {
    forall i :: 0 <= i < |s| ==> s[i] == '0'
  }

  function DigitChar(d: nat): (c: char)
    requires d < 10
    ensures IsDigit(c) && c as int - '0' as int == d
  {
    ('0' as int + d) as char
  }

  /** The decimal digits of n, most significant first, without leading zeros. */
  function Digits(n: nat): (s: string)
    ensures |s| > 0 && AllDigits(s)
    decreases n
  {
    if n < 10 then [DigitChar(n)] else Digits(n / 10) + [DigitChar(n % 10)]
  }

  /** The number a string of decimal digits denotes. */
  function DigitsValue(s: string): nat
    requires AllDigits(s)
  {
    if |s| == 0 then 0 else 10 * DigitsValue(s[..|s| - 1]) + (s[|s| - 1] as int - '0' as int)
  }

  /** The length of the longest prefix of s made of digits. */
  function LeadingDigits(s: string): (k: nat)
    ensures k <= |s|
    ensures AllDigits(s[..k])
    ensures k < |s| ==> !IsDigit(s[k])
  {
    if |s| == 0 || !IsDigit(s[0]) then 0
    else
      var k := 1 + LeadingDigits(s[1..]);
      assert s[..k] == [s[0]] + s[1..][..k - 1];
      k
  }

  /** The unsigned part of `float(s)`: digits, optionally '.' and zeros. */
  function ParseUnsigned(s: string): Option<nat> {
    var k := LeadingDigits(s);
    if k == 0 then None
    else if k == |s| || (s[k] == '.' && AllZeros(s[k + 1..])) then Some(DigitsValue(s[..k]))
    else None
  }

  /** `float(s)` for the integral decimal forms; None where Python would raise ValueError. */
  function ParseDecimal(s: string): Option<int> {
    if |s| > 0 && s[0] == '-' then
      match ParseUnsigned(s[1..])
      case Some(m) => Some(-(m as int))
      case None => None
    else
      match ParseUnsigned(s)
      case Some(m) => Some(m as int)
      case None => None
  }

  /** The rendering of a non-negative integral float: its digits and the suffix ".0". */
  function UnsignedText(m: nat): string {
    Digits(m) + ".0"
  }

  /** `f'{float(n)}'`: a minus sign when n is negative, then the rendering of its magnitude. */
  function FormatFloat(n: int): string {
    if n < 0 then "-" + UnsignedText(-n) else UnsignedText(n)
  }

  lemma {:induction false} DigitsValueOfDigits(n: nat)
    ensures DigitsValue(Digits(n)) == n
    decreases n
  {
    var s := Digits(n);
    if n >= 10 {
      DigitsValueOfDigits(n / 10);
      assert s[..|s| - 1] == Digits(n / 10);
    }
  }

  lemma {:induction false} LeadingDigitsOfConcat(d: string, rest: string)
    requires AllDigits(d)
    requires |rest| == 0 || !IsDigit(rest[0])
    ensures LeadingDigits(d + rest) == |d|
  {
    if |d| > 0 {
      assert (d + rest)[1..] == d[1..] + rest;
      LeadingDigitsOfConcat(d[1..], rest);
    }
  }

  /** The rendering of a magnitude starts with a digit and parses back to it. */
  lemma ParseUnsignedText(m: nat)
    ensures IsDigit(UnsignedText(m)[0])
    ensures ParseUnsigned(UnsignedText(m)) == Some(m)
  {
    var d := Digits(m);
    var body := d + ".0";
    LeadingDigitsOfConcat(d, ".0");
    assert body[..|d|] == d;
    assert body[|d| + 1..] == "0";
    assert body[0] == d[0];
    DigitsValueOfDigits(m);
  }

  lemma ParseUnsignedAsDecimal(s: string, v: nat)
    requires |s| > 0 && IsDigit(s[0]) && ParseUnsigned(s) == Some(v)
    ensures ParseDecimal(s) == Some(v as int)
  {
  }

  lemma ParseNegatedAsDecimal(s: string, v: nat)
    requires ParseUnsigned(s) == Some(v)
    ensures ParseDecimal("-" + s) == Some(-(v as int))
  {
  }

  /** Parsing the rendering of a version gives the version back. */
  lemma FormatThenParse(n: int)
    ensures ParseDecimal(FormatFloat(n)) == Some(n)
  {
    if n < 0 {
      ParseUnsignedText(-n);
      ParseNegatedAsDecimal(UnsignedText(-n), -n);
    } else {
      ParseUnsignedText(n);
      ParseUnsignedAsDecimal(UnsignedText(n), n);
    }
  }

  /** Distinct versions render to distinct text. */
  lemma FormatFloatInjective(m: int, n: int)
    requires FormatFloat(m) == FormatFloat(n)
    ensures m == n
  {
    FormatThenParse(m);
    FormatThenParse(n);
  }
}
