/** Python's decimal rendering of integers: `str(n)`, f-string `{n}`, and the
    zero-padded `'%.5d' % n`. */
module Decimal {

  predicate IsDigit(c: char) {
    '0' <= c <= '9'
  }

  predicate AllDigits(s: string) {
    forall i :: 0 <= i < |s| ==> IsDigit(s[i])
  }

  function DigitChar(d: nat): (c: char)
    requires d < 10
    ensures IsDigit(c) && c as int - '0' as int == d
  {
    ('0' as int + d) as char
  }

  /** The number a string of decimal digits denotes; leading zeros are allowed. */
  function ValueOf(s: string): nat
    requires AllDigits(s)
    decreases |s|
  {
    if s == [] then 0 else ValueOf(s[..|s| - 1]) * 10 + (s[|s| - 1] as int - '0' as int)
  }

  /** The decimal digits of n, with no leading zero: `str(n)` for n >= 0. */
  function Digits(n: nat): (s: string)
    ensures |s| >= 1 && AllDigits(s) && ValueOf(s) == n
    ensures |s| > 1 ==> s[0] != '0'
    decreases n
  {
    if n < 10 then [DigitChar(n)]
    else
      var front := Digits(n / 10);
      var s := front + [DigitChar(n % 10)];
      assert s[..|s| - 1] == front;
      assert |front| == 1 ==> ValueOf(front) == front[0] as int - '0' as int by {
        if |front| == 1 { assert front[..0] == []; }
      }
      s
  }

  /** `str(n)` for any integer: a minus sign before the digits of a negative number. */
  function FormatInt(n: int): (s: string)
    ensures |s| >= 1 && (s[0] == '-' <==> n < 0)
    ensures n >= 0 ==> AllDigits(s) && ValueOf(s) == n
    ensures n < 0 ==> AllDigits(s[1..]) && ValueOf(s[1..]) == -n
  {
    if n < 0 then
      var s := "-" + Digits(-n);
      assert s[1..] == Digits(-n);
      s
    else Digits(n)
  }

  /** Different integers are rendered differently. */
  lemma FormatIntInjective(a: int, b: int)
    requires FormatInt(a) == FormatInt(b)
    ensures a == b
  {
    var s := FormatInt(a);
    if a < 0 {
      assert b < 0;
      assert ValueOf(s[1..]) == -a == -b;
    } else {
      assert b >= 0;
      assert ValueOf(s) == a == b;
    }
  }

  function Zeros(k: nat): (s: string)
    ensures |s| == k && forall i :: 0 <= i < k ==> s[i] == '0'
  {
    seq(k, i => '0')
  }

  /** `s` left-padded with zeros to at least `width` characters. */
  function ZeroPad(s: string, width: nat): string {
    if |s| >= width then s else Zeros(width - |s|) + s
  }

  function Max(a: int, b: int): int {
    if a >= b then a else b
  }

  lemma {:induction false} ZerosValue(k: nat)
    ensures AllDigits(Zeros(k)) && ValueOf(Zeros(k)) == 0
  {
    if k > 0 {
      assert Zeros(k)[..k - 1] == Zeros(k - 1);
      ZerosValue(k - 1);
    }
  }

  /** Leading zeros do not change the value of a digit string. */
  lemma {:induction false} LeadingZeros(k: nat, s: string)
    requires AllDigits(s)
    ensures AllDigits(Zeros(k) + s) && ValueOf(Zeros(k) + s) == ValueOf(s)
    decreases |s|
  {
    var t := Zeros(k) + s;
    if s == [] {
      assert t == Zeros(k);
      ZerosValue(k);
    } else {
      var front := s[..|s| - 1];
      assert t[..|t| - 1] == Zeros(k) + front;
      LeadingZeros(k, front);
    }
  }

  lemma PaddedValue(s: string, width: nat)
    requires AllDigits(s)
    ensures AllDigits(ZeroPad(s, width)) && ValueOf(ZeroPad(s, width)) == ValueOf(s)
    ensures |ZeroPad(s, width)| == Max(width, |s|)
  {
    if |s| < width { LeadingZeros(width - |s|, s); }
  }

  /** Python's `'%.<width>d' % n`: the sign, then the digits of |n| zero-padded to at least `width`. */
  function FormatPadded(n: int, width: nat): (s: string)
    ensures n >= 0 ==> AllDigits(s) && ValueOf(s) == n && |s| == Max(width, |Digits(n)|)
    ensures n < 0 ==> |s| >= 2 && s[0] == '-' && AllDigits(s[1..]) && ValueOf(s[1..]) == -n
                      && |s| == 1 + Max(width, |Digits(-n)|)
  {
    if n < 0 then
      var d := Digits(-n);
      PaddedValue(d, width);
      var s := "-" + ZeroPad(d, width);
      assert s[1..] == ZeroPad(d, width);
      s
    else
      var d := Digits(n);
      PaddedValue(d, width);
      ZeroPad(d, width)
  }

  function Pow10(k: nat): nat {
    if k == 0 then 1 else 10 * Pow10(k - 1)
  }

  /** A number below 10^k has at most k digits. */
  lemma {:induction false} DigitsLength(n: nat, k: nat)
    requires 1 <= k && n < Pow10(k)
    ensures |Digits(n)| <= k
    decreases k
  {
    if n >= 10 {
      assert k > 1;
      assert n / 10 < Pow10(k - 1);
      DigitsLength(n / 10, k - 1);
    }
  }
}
