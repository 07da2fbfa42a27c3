/** String helpers: `startsWith` and the decimal rendering of integers in template literals. */
module Strings {

  /** `s.startsWith(prefix)`. */
  predicate StartsWith(s: string, prefix: string) {
    |prefix| <= |s| && s[..|prefix|] == prefix
  }

  predicate IsDigit(c: char) {
    '0' <= c <= '9'
  }

  function DigitChar(d: nat): (c: char)
    requires d < 10
    ensures IsDigit(c)
  {
    ('0' as int + d) as char
  }

  /** A non-empty run of decimal digits with no leading zero (a lone "0" is allowed). */
  predicate IsCanonicalDigits(d: string)
  {
    |d| > 0 && (forall i :: 0 <= i < |d| ==> IsDigit(d[i])) && (d[0] == '0' ==> |d| == 1)
  }

  /** How JavaScript renders an integer: canonical digits, after a minus sign for a negative
      number (never "-0"). */
  predicate IsCanonicalInt(s: string)
  {
    if |s| > 0 && s[0] == '-' then IsCanonicalDigits(s[1..]) && s[1..] != "0"
    else IsCanonicalDigits(s)
  }

  /** Decimal digits of `n`, most significant first, without leading zeros. */
  function NatToString(n: nat): (s: string)
    ensures IsCanonicalDigits(s)
    ensures s[0] == '0' <==> n == 0
  {
    if n < 10 then [DigitChar(n)] else NatToString(n / 10) + [DigitChar(n % 10)]
  }

  /** `${n}` for an integer `n`: a minus sign for negative numbers, then the digits. */
  function IntToString(n: int): (s: string)
    ensures IsCanonicalInt(s)
    ensures s[0] == '-' <==> n < 0
  {
    if n < 0 then
      var digits := NatToString(-n);
      assert ("-" + digits)[1..] == digits;
      "-" + digits
    else NatToString(n)
  }

  /** The number a string of decimal digits denotes. */
  function DigitsValue(s: string): nat
  {
    if |s| == 0 then 0
    else
      var c := s[|s| - 1];
      10 * DigitsValue(s[..|s| - 1]) + (if IsDigit(c) then c as int - '0' as int else 0)
  }

  /** Reads back what `IntToString` renders: an optional minus sign followed by digits. */
  function ParseDecimal(s: string): int
  {
    if |s| > 0 && s[0] == '-' then -(DigitsValue(s[1..]) as int) else DigitsValue(s)
  }

  lemma {:induction false} NatToStringRoundTrip(n: nat)
    ensures DigitsValue(NatToString(n)) == n
  {
    if n >= 10 {
      NatToStringRoundTrip(n / 10);
      var s := NatToString(n);
      assert s[..|s| - 1] == NatToString(n / 10);
    }
  }

  lemma IntToStringRoundTrip(n: int)
    ensures ParseDecimal(IntToString(n)) == n
  {
    if n < 0 {
      NatToStringRoundTrip(-n);
      assert IntToString(n)[1..] == NatToString(-n);
    } else {
      NatToStringRoundTrip(n);
    }
  }

  /** Different integers render differently. */
  lemma IntToStringInjective(a: int, b: int)
    ensures IntToString(a) == IntToString(b) ==> a == b
  {
    IntToStringRoundTrip(a);
    IntToStringRoundTrip(b);
  }

  /** Digits with a non-zero first digit denote a positive number. */
  lemma {:induction false} LeadingNonZeroPositive(d: string)
    requires |d| > 0 && (forall i :: 0 <= i < |d| ==> IsDigit(d[i])) && d[0] != '0'
    ensures DigitsValue(d) > 0
  {
    if |d| > 1 {
      var front := d[..|d| - 1];
      assert front[0] == d[0];
      LeadingNonZeroPositive(front);
    }
  }

  /** Canonical digits are the rendering of the number they denote. */
  lemma {:induction false} CanonicalDigitsRoundTrip(d: string)
    requires IsCanonicalDigits(d)
    ensures NatToString(DigitsValue(d)) == d
  {
    var c := d[|d| - 1];
    var cv := c as int - '0' as int;
    assert DigitChar(cv) == c;
    if |d| > 1 {
      var front := d[..|d| - 1];
      assert front[0] == d[0];
      assert IsCanonicalDigits(front);
      CanonicalDigitsRoundTrip(front);
      LeadingNonZeroPositive(front);
      var v := DigitsValue(front);
      var n := DigitsValue(d);
      assert n == 10 * v + cv;
      assert n / 10 == v && n % 10 == cv;
      assert d == front + [c];
    }
  }

  /** A string in JavaScript's rendering of integers is the rendering of the integer it denotes:
      together with `IntToStringRoundTrip`, the canonical rendering of `n` is exactly
      `IntToString(n)`. */
  lemma CanonicalIntRoundTrip(s: string)
    requires IsCanonicalInt(s)
    ensures IntToString(ParseDecimal(s)) == s
  {
    if |s| > 0 && s[0] == '-' {
      var rest := s[1..];
      CanonicalDigitsRoundTrip(rest);
      LeadingNonZeroPositive(rest);
      assert s == "-" + rest;
    } else {
      CanonicalDigitsRoundTrip(s);
    }
  }
}
