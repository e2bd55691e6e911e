/**
 * Decimal rendering and parsing of integers, as Python's `str(int)`,
 * `f"{n:02}"` and `int(digits)` do them. Shared by the formatting helpers,
 * the duration mask and the time validator.
 */
module Text {

  predicate IsDigit(c: char) {
    '0' <= c <= '9'
  }

  predicate AllDigits(s: string) {
    forall i :: 0 <= i < |s| ==> IsDigit(s[i])
  }

  function DigitChar(d: nat): (c: char)
    requires d < 10
    ensures IsDigit(c)
  {
    ['0', '1', '2', '3', '4', '5', '6', '7', '8', '9'][d]
  }

  function DigitValue(c: char): (d: nat)
    requires IsDigit(c)
    ensures d < 10
  {
    (c as int - '0' as int) as nat
  }

  /** Python's `int(s)` on a string of decimal digits (leading zeros allowed). */
  function ParseDigits(s: string): (n: nat)
    requires AllDigits(s)
  {
    if s == [] then 0 else ParseDigits(s[..|s| - 1]) * 10 + DigitValue(s[|s| - 1])
  }

  /** Python's `str(n)` for a non-negative integer. */
  function NatToString(n: nat): (r: string)
    ensures |r| > 0 && AllDigits(r)
    ensures ParseDigits(r) == n
    ensures (n < 10) == (|r| == 1)
  {
    if n < 10 then [DigitChar(n)]
    else
      var r := NatToString(n / 10) + [DigitChar(n % 10)];
      assert r[..|r| - 1] == NatToString(n / 10);
      r
  }

  /** Python's `str(i)`: a minus sign before the digits of a negative number. */
  function IntToString(i: int): (r: string)
    ensures |r| > 0 && ' ' !in r
    ensures i >= 0 ==> r == NatToString(i)
    ensures i < 0 ==> r[0] == '-' && r[1..] == NatToString(-i)
  {
    if i < 0 then "-" + NatToString(-i) else NatToString(i)
  }

  /** Python's `f"{i:02}"`: at least two characters, zero-filled after any sign. */
  function Pad2(i: int): (r: string)
    ensures |r| >= 2
    ensures 0 <= i ==> AllDigits(r) && ParseDigits(r) == i
    ensures 0 <= i < 100 ==> |r| == 2
  {
    if 0 <= i < 10 then
      var r := ['0', DigitChar(i)];
      assert r[..1] == ['0'] && ParseDigits(r[..1]) == 0;
      r
    else IntToString(i)
  }
}
