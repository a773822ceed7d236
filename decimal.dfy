/**
 * Decimal text of 32-bit integers, as Java writes an int into a string and
 * as Integer.parseInt reads one back (ASCII digits only).
 */
module Decimal {
  import opened Wrappers
  import opened JavaInt

  predicate IsDigit(c: char) {
    '0' <= c <= '9'
  }

  function DigitChar(d: nat): (c: char)
    requires d < 10
    ensures IsDigit(c) && c as int - '0' as int == d
  {
    (d + '0' as int) as char
  }

  function DigitValue(c: char): (d: nat)
    requires IsDigit(c)
    ensures d < 10 && DigitChar(d) == c
  {
    c as int - '0' as int
  }

  predicate AllDigits(s: string) {
    forall k :: 0 <= k < |s| ==> IsDigit(s[k])
  }

  /** The value of a string of digits, most significant first. */
  function DigitsValue(s: string): nat
    requires AllDigits(s)
  {
    if s == [] then 0 else DigitsValue(s[..|s| - 1]) * 10 + DigitValue(s[|s| - 1])
  }

  /** The shortest decimal digits of a natural number. */
  function NatToString(n: nat): (s: string)
    ensures |s| > 0 && AllDigits(s)
    ensures |s| > 1 ==> s[0] != '0'
  {
    if n < 10 then [DigitChar(n)] else NatToString(n / 10) + [DigitChar(n % 10)]
  }

  /** Integer.toString: a minus sign for negative numbers, then the digits. */
  function IntToString(n: int): string {
    if n < 0 then "-" + NatToString(-n) else NatToString(n)
  }

  lemma {:induction false} NatToStringValue(n: nat)
    ensures DigitsValue(NatToString(n)) == n
  {
    if n >= 10 {
      NatToStringValue(n / 10);
      var s := NatToString(n);
      assert s[..|s| - 1] == NatToString(n / 10);
    }
  }

  /** The value of a non-empty run of ASCII digits; None when it is empty or holds anything else. */
  function DigitsOf(s: string): Option<nat> {
    if |s| == 0 || !IsDigit(s[|s| - 1]) then None
    else if |s| == 1 then Some(DigitValue(s[0]))
    else match DigitsOf(s[..|s| - 1])
      case None => None
      case Some(v) => Some(v * 10 + DigitValue(s[|s| - 1]))
  }

  lemma {:induction false} DigitsOfValue(s: string)
    ensures DigitsOf(s).Some? <==> |s| > 0 && AllDigits(s)
    ensures DigitsOf(s).Some? ==> DigitsOf(s).value == DigitsValue(s)
  {
    if |s| > 1 {
      var front := s[..|s| - 1];
      DigitsOfValue(front);
      if !AllDigits(front) {
        var k :| 0 <= k < |front| && !IsDigit(front[k]);
        assert s[k] == front[k];
      }
    } else if |s| == 1 {
      assert s[..0] == [];
    }
  }

  /**
   * An optional sign, at least one digit and nothing else, with a value
   * between lo and hi; None where Java throws NumberFormatException.
   */
  function ParseBounded(s: string, lo: int, hi: int): (r: Option<int>)
    ensures r.Some? ==> lo <= r.value <= hi
  {
    if |s| == 0 then None
    else
      var negative := s[0] == '-';
      var digits := if s[0] == '-' || s[0] == '+' then s[1..] else s;
      match DigitsOf(digits)
      case None => None
      case Some(digitsValue) =>
        var magnitude: int := digitsValue;
        var v := if negative then -magnitude else magnitude;
        if lo <= v <= hi then Some(v) else None
  }

  /** Integer.parseInt. */
  function ParseInt(s: string): (r: Option<int>)
    ensures r.Some? ==> InRange(r.value)
  {
    ParseBounded(s, MIN_INT, MAX_INT)
  }

  /** Long.parseLong. */
  function ParseLong(s: string): (r: Option<int>)
    ensures r.Some? ==> -0x8000_0000_0000_0000 <= r.value < 0x8000_0000_0000_0000
  {
    ParseBounded(s, -0x8000_0000_0000_0000, 0x7fff_ffff_ffff_ffff)
  }

  /** Reading back what Java writes for an int gives the int. */
  lemma IntToStringRoundTrip(n: int)
    requires InRange(n)
    ensures ParseInt(IntToString(n)) == Some(n)
  {
    if n < 0 {
      NatToStringValue(-n);
      assert IntToString(n)[1..] == NatToString(-n);
      DigitsOfValue(NatToString(-n));
    } else {
      NatToStringValue(n);
      DigitsOfValue(NatToString(n));
    }
  }

  /** Text that parses has no character besides a leading sign and digits. */
  lemma ParseAccepts(s: string, lo: int, hi: int)
    requires ParseBounded(s, lo, hi).Some?
    ensures |s| > 0 && (IsDigit(s[0]) || s[0] == '-' || s[0] == '+')
    ensures forall k :: 1 <= k < |s| ==> IsDigit(s[k])
    ensures IsDigit(s[|s| - 1])
  {
    var digits := if s[0] == '-' || s[0] == '+' then s[1..] else s;
    DigitsOfValue(digits);
    forall k | 1 <= k < |s| ensures IsDigit(s[k]) {
      if s[0] == '-' || s[0] == '+' {
        assert s[k] == digits[k - 1];
      }
    }
  }
}
