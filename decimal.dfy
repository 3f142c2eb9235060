/** Decimal rendering of integers, as Python's `str` on an `int` produces it
    (used to build the proof-of-work guess), with its parsing inverse. */
module Decimal {

  function DigitChar(d: nat): char
    requires d < 10
  {
    ('0' as int + d) as char
  }

  function DigitValue(c: char): nat
  {
    if '0' <= c <= '9' then (c as int - '0' as int) as nat else 0
  }

  /** Digits of a natural number, most significant first, no leading zeros. */
  function NatString(n: nat): string
    decreases n
  {
    if n < 10 then [DigitChar(n)] else NatString(n / 10) + [DigitChar(n % 10)]
  }

  /** `str(n)`: a minus sign for negative numbers, then the digits. */
  function DecimalString(n: int): string
  {
    if n < 0 then "-" + NatString(-n) else NatString(n)
  }

  function ParseNat(s: string): nat
    decreases |s|
  {
    if s == [] then 0 else ParseNat(s[..|s| - 1]) * 10 + DigitValue(s[|s| - 1])
  }

  function ParseDecimal(s: string): int
  {
    if |s| > 0 && s[0] == '-' then -(ParseNat(s[1..]) as int) else ParseNat(s)
  }

  lemma {:induction false} NatStringRoundTrip(n: nat)
    ensures |NatString(n)| > 0 && '0' <= NatString(n)[0] <= '9'
    ensures ParseNat(NatString(n)) == n
    decreases n
  {
    var q, d := n / 10, n % 10;
    if n >= 10 {
      NatStringRoundTrip(q);
      var prefix := NatString(q);
      var s := prefix + [DigitChar(d)];
      assert NatString(n) == s;
      assert s[..|s| - 1] == prefix;
      assert DigitValue(s[|s| - 1]) == d;
      assert ParseNat(s) == ParseNat(prefix) * 10 + d;
      assert q * 10 + d == n;
    } else {
      assert NatString(n) == [DigitChar(n)];
    }
  }

  /** A minus sign in front of digits negates their value. */
  lemma ParseNegative(digits: string)
    ensures ParseDecimal("-" + digits) == -(ParseNat(digits) as int)
  {
    var s := "-" + digits;
    assert s[1..] == digits;
  }

  /** Text that does not start with a minus sign is read as a natural number. */
  lemma ParseUnsigned(digits: string)
    requires |digits| > 0 && digits[0] != '-'
    ensures ParseDecimal(digits) == ParseNat(digits)
  {
  }

  /** `int(str(n)) == n`: the rendering loses nothing. */
  lemma {:induction false} DecimalRoundTrip(n: int)
    ensures ParseDecimal(DecimalString(n)) == n
  {
    if n < 0 {
      var magnitude: nat := -n;
      var digits := NatString(magnitude);
      assert DecimalString(n) == "-" + digits;
      NatStringRoundTrip(magnitude);
      ParseNegative(digits);
    } else {
      var digits := NatString(n);
      assert DecimalString(n) == digits;
      NatStringRoundTrip(n);
      ParseUnsigned(digits);
    }
  }

  /** Distinct integers render differently. */
  lemma DecimalInjective(m: int, n: int)
    requires DecimalString(m) == DecimalString(n)
    ensures m == n
  {
    DecimalRoundTrip(m);
    DecimalRoundTrip(n);
  }
}
