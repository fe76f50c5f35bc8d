/**
 * Decimal text of Java integral values: what Long.toString / String.valueOf
 * produce and what Long.parseLong accepts (ASCII digits, an optional sign).
 */
module Decimal {
  import opened Wrappers

  const LongMin: int := -0x8000_0000_0000_0000
  const LongMax: int := 0x7FFF_FFFF_FFFF_FFFF

  predicate IsDigit(c: char) {
    '0' <= c <= '9'
  }

  predicate AllDigits(s: string) {
    forall i :: 0 <= i < |s| ==> IsDigit(s[i])
  }

  function DigitChar(d: nat): (c: char)
    requires d < 10
    ensures IsDigit(c)
  {
    (48 + d) as char
  }

  function DigitValue(c: char): (d: nat)
    requires IsDigit(c)
    ensures d < 10
  {
    (c as int) - 48
  }

  /** Decimal digits of n, most significant first, without leading zeros. */
  function NatToString(n: nat): (s: string)
    ensures |s| > 0 && AllDigits(s)
    ensures |s| > 1 ==> s[0] != '0'
  {
    if n < 10 then [DigitChar(n)] else NatToString(n / 10) + [DigitChar(n % 10)]
  }

  /** Long.toString: a leading '-' for negative values. */
  function IntToString(n: int): string {
    if n < 0 then "-" + NatToString(-n) else NatToString(n)
  }

  function ParseNat(s: string): nat
    requires AllDigits(s)
  {
    if s == [] then 0 else ParseNat(s[..|s| - 1]) * 10 + DigitValue(s[|s| - 1])
  }

  /** The integer a decimal text denotes: an optional '+' or '-' and at least one digit. */
  function ParseDecimal(s: string): Option<int> {
    if |s| == 0 then None
    else if s[0] == '-' || s[0] == '+' then
      if |s| > 1 && AllDigits(s[1..]) then
        var magnitude: int := ParseNat(s[1..]);
        Some(if s[0] == '-' then -magnitude else magnitude)
      else None
    else if AllDigits(s) then Some(ParseNat(s))
    else None
  }

  /** Long.parseLong: a decimal text whose value fits in 64 bits; anything else is a NumberFormatException. */
  function ParseLong(s: string): (r: Option<int>)
    ensures r.Some? ==> LongMin <= r.value <= LongMax && ParseDecimal(s) == r
    ensures ParseDecimal(s).Some? && LongMin <= ParseDecimal(s).value <= LongMax ==> r == ParseDecimal(s)
  {
    match ParseDecimal(s)
    case Some(n) => if LongMin <= n <= LongMax then Some(n) else None
    case None => None
  }

  lemma {:induction false} NatRoundTrip(n: nat)
    ensures ParseNat(NatToString(n)) == n
  {
    if n >= 10 {
      var s := NatToString(n);
      assert s[..|s| - 1] == NatToString(n / 10);
      NatRoundTrip(n / 10);
    }
  }

  /** Parsing the decimal text of any integer gives the integer back. */
  lemma IntRoundTrip(n: int)
    ensures ParseDecimal(IntToString(n)) == Some(n)
  {
    if n < 0 {
      var s := IntToString(n);
      assert s[1..] == NatToString(-n);
      NatRoundTrip(-n);
    } else {
      var s := NatToString(n);
      assert s[0] != '-' && s[0] != '+' by { assert IsDigit(s[0]); }
      NatRoundTrip(n);
    }
  }

  /** Distinct integers have distinct decimal texts. */
  lemma IntToStringInjective(m: int, n: int)
    requires IntToString(m) == IntToString(n)
    ensures m == n
  {
    IntRoundTrip(m);
    IntRoundTrip(n);
  }

  /** Long.parseLong reads back the text Long.toString gives for every 64-bit value. */
  lemma LongRoundTrip(n: int)
    requires LongMin <= n <= LongMax
    ensures ParseLong(IntToString(n)) == Some(n)
  {
    IntRoundTrip(n);
  }
}
