/**
 * Decimal text of non-negative integers: what `std::stoi` reads from a
 * digit-only string and what an `ostream` writes for an `int`.
 * Machine-int overflow (`std::out_of_range`) is not modelled: values are `nat`.
 */
module Decimal {

  predicate IsDigit(c: char) {
    '0' <= c <= '9'
  }

  predicate AllDigits(s: string) {
    forall i :: 0 <= i < |s| ==> IsDigit(s[i])
  }

  /** At most one character, or a first character other than '0'. */
  predicate NoLeadingZero(s: string) {
    |s| <= 1 || s[0] != '0'
  }

  function DigitValue(c: char): (d: nat)
    requires IsDigit(c)
    ensures d < 10
  {
    (c as int) - ('0' as int)
  }

  function DigitChar(d: nat): (c: char)
    requires d < 10
    ensures IsDigit(c) && DigitValue(c) == d
  {
    (('0' as int) + d) as char
  }

  /** The number a digit string denotes, most significant digit first. */
  function Value(s: string): nat
    requires AllDigits(s)
    decreases |s|
  {
    if |s| == 0 then 0 else Value(s[..|s| - 1]) * 10 + DigitValue(s[|s| - 1])
  }

  /** The canonical decimal text of `n`. */
  function ToDecimal(n: nat): (s: string)
    ensures |s| > 0 && AllDigits(s)
    ensures s[0] == '0' <==> n == 0
    ensures NoLeadingZero(s)
    ensures Value(s) == n
  {
    if n < 10 then [DigitChar(n)]
    else
      var p := ToDecimal(n / 10);
      var s := p + [DigitChar(n % 10)];
      assert s[..|s| - 1] == p;
      s
  }

  lemma {:induction false} ValuePositive(s: string)
    requires AllDigits(s) && |s| > 0 && s[0] != '0'
    ensures Value(s) > 0
    decreases |s|
  {
    if |s| > 1 {
      var p := s[..|s| - 1];
      assert p[0] == s[0];
      ValuePositive(p);
    }
  }

  /** Canonical digit text is exactly the rendering of its value. */
  lemma {:induction false} ToDecimalOfValue(s: string)
    requires |s| > 0 && AllDigits(s) && NoLeadingZero(s)
    ensures ToDecimal(Value(s)) == s
    decreases |s|
  {
    if |s| > 1 {
      var p := s[..|s| - 1];
      assert p[0] == s[0];
      ValuePositive(p);
      ToDecimalOfValue(p);
      var n := Value(s);
      assert n / 10 == Value(p) && n % 10 == DigitValue(s[|s| - 1]);
      assert DigitChar(n % 10) == s[|s| - 1];
      assert s == p + [s[|s| - 1]];
    }
  }

  /** Two canonical digit texts with the same value are the same text. */
  lemma ValueInjective(a: string, b: string)
    requires |a| > 0 && AllDigits(a) && NoLeadingZero(a)
    requires |b| > 0 && AllDigits(b) && NoLeadingZero(b)
    ensures Value(a) == Value(b) <==> a == b
  {
    ToDecimalOfValue(a);
    ToDecimalOfValue(b);
  }
}
