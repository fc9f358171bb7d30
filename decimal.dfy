/** Decimal numerals: the text JavaScript gives a non-negative integer when it is
    concatenated to a string, and the fixed-width, zero-padded fields of an ISO timestamp. */
module Decimal {

  predicate IsDigit(c: char) {
    '0' <= c <= '9'
  }

  predicate AllDigits(s: string) {
    forall i :: 0 <= i < |s| ==> IsDigit(s[i])
  }

  function DigitChar(d: nat): (c: char)
    requires d < 10
    ensures IsDigit(c) && DigitValue(c) == d
  {
    ('0' as int + d) as char
  }

  function DigitValue(c: char): (d: nat)
    requires IsDigit(c)
    ensures d < 10
  {
    c as int - '0' as int
  }

  /** The number a string of digits denotes. */
  function Value(s: string): nat
    requires AllDigits(s)
  {
    if s == [] then 0 else 10 * Value(s[..|s| - 1]) + DigitValue(s[|s| - 1])
  }

  function Pow10(k: nat): (p: nat)
    ensures p >= 1
  {
    if k == 0 then 1 else 10 * Pow10(k - 1)
  }

  /** The shortest decimal numeral of `n`: what `String(n)` gives for an integer below 10^21. */
  function Numeral(n: nat): (s: string)
    ensures |s| >= 1 && AllDigits(s)
    ensures s[0] == '0' ==> s == "0"
    ensures Value(s) == n
  {
    if n < 10 then [DigitChar(n)] else Numeral(n / 10) + [DigitChar(n % 10)]
  }

  /** `n` written with exactly `width` digits, padded on the left with zeros. */
  function Padded(n: nat, width: nat): (s: string)
    requires n < Pow10(width)
    ensures |s| == width && AllDigits(s)
    ensures Value(s) == n
  {
    if width == 0 then []
    else
      assert n / 10 < Pow10(width - 1);
      Padded(n / 10, width - 1) + [DigitChar(n % 10)]
  }

  /** The length of the longest prefix of `s` made of digits. */
  function DigitPrefixLength(s: string): (k: nat)
    ensures k <= |s| && AllDigits(s[..k])
    ensures k < |s| ==> !IsDigit(s[k])
  {
    if s == [] || !IsDigit(s[0]) then 0
    else
      var k := 1 + DigitPrefixLength(s[1..]);
      assert s[..k] == [s[0]] + s[1..][..k - 1];
      k
  }

  /** The digits of a numeral followed by text that does not start with a digit are
      exactly the numeral. */
  lemma {:induction false} DigitPrefixOfNumeral(d: string, rest: string)
    requires |d| >= 1 && AllDigits(d)
    requires rest == [] || !IsDigit(rest[0])
    ensures DigitPrefixLength(d + rest) == |d|
  {
    assert (d + rest)[1..] == d[1..] + rest;
    if |d| > 1 {
      DigitPrefixOfNumeral(d[1..], rest);
    }
  }
}
