/**
 Decimal rendering of an integer, as C# string interpolation renders an `int`
 (`$"{n}"`): an optional leading minus sign followed by the digits of the
 magnitude with no leading zeros. `Parse` is its inverse; the round trip makes
 the rendering injective, which is what keeps cache keys of distinct players
 apart.
 */
module Decimal {

  predicate IsDigit(c: char) {
    '0' <= c <= '9'
  }

  function DigitChar(d: nat): (c: char)
    requires d < 10
    ensures IsDigit(c)
  {
    "0123456789"[d]
  }

  function DigitValue(c: char): nat
    requires IsDigit(c)
  {
    (c - '0') as nat
  }

  lemma DigitRoundTrip(d: nat)
    requires d < 10
    ensures DigitValue(DigitChar(d)) == d
  {
  }

  /** The digits of `n`, most significant first: no leading zero, except
      that zero itself is "0". */
  function FormatNat(n: nat): (s: string)
    ensures |s| > 0
    ensures forall i | 0 <= i < |s| :: IsDigit(s[i])
    ensures s[0] == '0' <==> n == 0
    ensures n == 0 ==> s == "0"
    decreases n
  {
    if n < 10 then [DigitChar(n)] else FormatNat(n / 10) + [DigitChar(n % 10)]
  }

  /** The rendering of an int: a minus sign exactly for a negative value,
      then the digits of the magnitude without a leading zero. */
  function Format(n: int): (s: string)
    ensures |s| > 0
    ensures s[0] == '-' <==> n < 0
    ensures n < 0 ==> |s| > 1 && AllDigits(s[1..]) && s[1] != '0'
    ensures n >= 0 ==> AllDigits(s) && (s[0] == '0' <==> n == 0)
    ensures n == 0 ==> s == "0"
  {
    if n < 0 then "-" + FormatNat(-n) else FormatNat(n)
  }

  /** The number a string of digits denotes. */
  function ParseNat(s: string): nat
    requires forall i | 0 <= i < |s| :: IsDigit(s[i])
  {
    if |s| == 0 then 0 else ParseNat(s[..|s| - 1]) * 10 + DigitValue(s[|s| - 1])
  }

  predicate AllDigits(s: string) {
    forall i | 0 <= i < |s| :: IsDigit(s[i])
  }

  /** Reads back a rendering produced by `Format`. Only its own renderings
      are ever parsed in this model; any other string reads as 0. */
  function Parse(s: string): int
  {
    if |s| > 0 && s[0] == '-' && AllDigits(s[1..]) then
      0 - ParseNat(s[1..])
    else if AllDigits(s) then
      ParseNat(s)
    else
      0
  }

  lemma {:induction false} ParseFormatNat(n: nat)
    ensures ParseNat(FormatNat(n)) == n
    decreases n
  {
    if n < 10 {
      DigitRoundTrip(n);
    } else {
      var s := FormatNat(n);
      assert s[..|s| - 1] == FormatNat(n / 10);
      ParseFormatNat(n / 10);
      DigitRoundTrip(n % 10);
    }
  }

  lemma ParseFormat(n: int)
    ensures Parse(Format(n)) == n
  {
    if n < 0 {
      var digits := FormatNat(-n);
      var s := "-" + digits;
      assert s[1..] == digits;
      assert AllDigits(s[1..]);
      ParseFormatNat(-n);
      assert Parse(s) == 0 - ParseNat(digits);
    } else {
      var s := FormatNat(n);
      assert AllDigits(s);
      assert s[0] != '-';
      ParseFormatNat(n);
    }
  }

  /** Distinct integers render to distinct strings. */
  lemma FormatInjective(a: int, b: int)
    requires Format(a) == Format(b)
    ensures a == b
  {
    ParseFormat(a);
    ParseFormat(b);
  }
}
