/**
 * Decimal rendering of the clock's integer fields: `Number.prototype.toString`
 * on a non-negative integer, `String.prototype.padStart` with a one-character
 * fill, and `padNumber` (script.js:21-23), which combines the two.
 */
module Decimal {

  predicate IsDigit(c: char) {
    '0' <= c <= '9'
  }

  predicate AllDigits(s: string) {
    forall i :: 0 <= i < |s| ==> IsDigit(s[i])
  }

  function DigitChar(d: nat): (c: char)
    requires d < 10
    ensures IsDigit(c) && c as int - '0' as int == d
  {
    ('0' as int + d) as char
  }

  function DigitValue(c: char): (d: nat)
    requires IsDigit(c)
    ensures d < 10 && DigitChar(d) == c
  {
    c as int - '0' as int
  }

  /** The value of a string of decimal digits, most significant first. */
  function ParseDigits(s: string): nat
    requires AllDigits(s)
  {
    if s == [] then 0 else ParseDigits(s[..|s| - 1]) * 10 + DigitValue(s[|s| - 1])
  }

  /**
   * `n.toString()` for a non-negative integer: its shortest decimal spelling,
   * which is a single digit exactly when n < 10 and never starts with a zero
   * unless it is "0" itself.
   */
  function NatToString(n: nat): (s: string)
    ensures AllDigits(s)
    ensures |s| >= 1
    ensures |s| == 1 <==> n < 10
    ensures n > 0 ==> s[0] != '0'
  {
    if n < 10 then [DigitChar(n)] else NatToString(n / 10) + [DigitChar(n % 10)]
  }

  /** Reading the decimal spelling back gives the number. */
  lemma {:induction false} ParseNatToString(n: nat)
    ensures ParseDigits(NatToString(n)) == n
  {
    if n >= 10 {
      var s := NatToString(n);
      assert s[..|s| - 1] == NatToString(n / 10);
      ParseNatToString(n / 10);
    }
  }

  /** The spelling is unique: two numbers with the same decimal string are equal. */
  lemma NatToStringInjective(m: nat, n: nat)
    requires NatToString(m) == NatToString(n)
    ensures m == n
  {
    ParseNatToString(m);
    ParseNatToString(n);
  }

  /** `k` copies of the character `c`. */
  function Repeat(c: char, k: nat): (r: string)
    ensures |r| == k
    ensures forall i :: 0 <= i < k ==> r[i] == c
  {
    if k == 0 then [] else [c] + Repeat(c, k - 1)
  }

  /**
   * `s.padStart(target, fill)` with a one-character fill: copies of `fill` are
   * put in front of `s`, one at a time, until it is `target` characters long;
   * a string that is already that long is returned unchanged.
   */
  function PadStart(s: string, target: nat, fill: char): (r: string)
    ensures |s| >= target ==> r == s
    ensures |s| < target ==> r == Repeat(fill, target - |s|) + s
    decreases target - |s|
  {
    if |s| >= target then s
    else
      var r := PadStart([fill] + s, target, fill);
      assert Repeat(fill, target - |s| - 1) + ([fill] + s) == Repeat(fill, target - |s|) + s;
      r
  }

  /** Leading zeros do not change the value of a digit string. */
  lemma {:induction false} ParseLeadingZero(s: string)
    requires AllDigits(s)
    ensures AllDigits(['0'] + s) && ParseDigits(['0'] + s) == ParseDigits(s)
  {
    var t := ['0'] + s;
    if s != [] {
      assert t[..|t| - 1] == ['0'] + s[..|s| - 1];
      ParseLeadingZero(s[..|s| - 1]);
    }
  }

  /**
   * `padNumber(num)`: `num.toString().padStart(2, '0')` (script.js:21-23).
   * Numbers below 10 gain one leading zero and larger ones are spelled as
   * they are, so the result is at least two digits long.
   */
  function PadNumber(n: nat): (s: string)
    ensures n < 10 ==> s == ['0', DigitChar(n)]
    ensures n >= 10 ==> s == NatToString(n)
    ensures |s| >= 2 && AllDigits(s)
  {
    var digits := NatToString(n);
    assert |digits| >= 2 || digits == [DigitChar(n)];
    var r := PadStart(digits, 2, '0');
    assert |digits| < 2 ==> r == PadStart(['0'] + digits, 2, '0') && ['0'] + digits == ['0', DigitChar(n)];
    r
  }

  /** Padding loses nothing: the padded string reads back as the number it was made from. */
  lemma PadNumberRoundTrip(n: nat)
    ensures ParseDigits(PadNumber(n)) == n
  {
    ParseNatToString(n);
    if n < 10 {
      ParseLeadingZero(NatToString(n));
      assert PadNumber(n) == ['0'] + NatToString(n);
    }
  }

  /**
   * For the values a clock shows (below 100), the padded string is the tens
   * digit followed by the units digit.
   */
  lemma PadNumberTwoDigits(n: nat)
    requires n < 100
    ensures PadNumber(n) == [DigitChar(n / 10), DigitChar(n % 10)]
  {
    if n < 10 {
      assert n / 10 == 0 && n % 10 == n;
      assert DigitChar(0) == '0';
    } else {
      assert NatToString(n) == NatToString(n / 10) + [DigitChar(n % 10)];
      assert NatToString(n / 10) == [DigitChar(n / 10)];
    }
  }

  /** Two-character results are exactly the numbers below 100. */
  lemma PadNumberLength(n: nat)
    ensures |PadNumber(n)| == 2 <==> n < 100
  {
  }
}
