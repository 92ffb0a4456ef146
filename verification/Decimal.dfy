/** Decimal notation: digit strings, the numbers they denote, and the shortest notation of a number. */
module Decimal {
  predicate IsDigit(c: char) {
    '0' <= c <= '9'
  }

  predicate AllDigits(s: string) {
    forall i :: 0 <= i < |s| ==> IsDigit(s[i])
  }

  function DigitOf(c: char): (d: nat)
    requires IsDigit(c)
    ensures d < 10
  {
    (c - '0') as nat
  }

  function CharOf(d: nat): (c: char)
    requires d < 10
    ensures IsDigit(c) && DigitOf(c) == d
  {
    '0' + d as char
  }

  const DIGITS: string := "0123456789"

  /** The digits are the ten characters in their order. */
  lemma DigitsAre(c: char, d: nat)
    requires d < 10
    ensures IsDigit(c) <==> c in DIGITS
    ensures CharOf(d) == DIGITS[d] && DigitOf(DIGITS[d]) == d
  {
  }

  /** The number a digit string denotes, most significant digit first. */
  function Number(s: string): nat
    requires AllDigits(s)
  {
    if s == "" then 0 else 10 * Number(s[..|s| - 1]) + DigitOf(s[|s| - 1])
  }

  function Power10(k: nat): (p: nat)
    ensures p > 0
  {
    if k == 0 then 1 else 10 * Power10(k - 1)
  }

  lemma MoveTen(x: int, p: int)
    ensures x * (10 * p) == 10 * (x * p)
  {
  }

  lemma {:induction false} NumberOfConcat(x: string, y: string)
    requires AllDigits(x) && AllDigits(y)
    ensures AllDigits(x + y) && Number(x + y) == Number(x) * Power10(|y|) + Number(y)
  {
    if y == "" {
      assert x + y == x;
    } else {
      var front := y[..|y| - 1];
      hide DigitOf;
      NumberOfConcat(x, front);
      assert (x + y)[..|x + y| - 1] == x + front;
      assert (x + y)[|x + y| - 1] == y[|y| - 1];
      MoveTen(Number(x), Power10(|front|));
    }
  }

  lemma {:induction false} NumberIsBounded(s: string)
    requires AllDigits(s)
    ensures Number(s) < Power10(|s|)
  {
    if s != "" {
      NumberIsBounded(s[..|s| - 1]);
    }
  }

  /** Replacing one digit moves the number by its weight. */
  lemma {:induction false} NumberAfterChange(s: string, k: nat, c: char)
    requires AllDigits(s) && k < |s| && IsDigit(c)
    ensures AllDigits(s[k := c])
    ensures Number(s[k := c]) - Number(s) == (DigitOf(c) - DigitOf(s[k])) * Power10(|s| - 1 - k)
  {
    var front, last := s[..|s| - 1], |s| - 1;
    if k == last {
      assert s[k := c][..last] == front;
    } else {
      NumberAfterChange(front, k, c);
      assert s[k := c][..last] == front[k := c];
      MoveTen(DigitOf(c) - DigitOf(s[k]), Power10(|front| - 1 - k));
    }
  }

  /** The shortest notation. */
  function ToDecimal(n: nat): (s: string)
    ensures |s| > 0 && AllDigits(s) && Number(s) == n
  {
    if n < 10 then [CharOf(n)] else
      var front, last := ToDecimal(n / 10), [CharOf(n % 10)];
      assert (front + last)[..|front|] == front;
      front + last
  }

  predicate NoLeadingZero(s: string) {
    |s| > 0 && (s[0] == '0' ==> |s| == 1)
  }

  lemma {:induction false} ToDecimalIsShortest(n: nat)
    ensures NoLeadingZero(ToDecimal(n))
    ensures n > 0 ==> ToDecimal(n)[0] != '0'
  {
    if n >= 10 {
      ToDecimalIsShortest(n / 10);
    }
  }

  lemma {:induction false} PositiveWithoutLeadingZero(s: string)
    requires AllDigits(s) && |s| > 0 && s[0] != '0'
    ensures Number(s) > 0
  {
    if |s| > 1 {
      PositiveWithoutLeadingZero(s[..|s| - 1]);
    }
  }

  lemma CharOfDigit(c: char)
    requires IsDigit(c)
    ensures CharOf(DigitOf(c)) == c
  {
  }

  lemma ToDecimalOf(n: nat, d: nat)
    requires n > 0 && d < 10
    ensures ToDecimal(10 * n + d) == ToDecimal(n) + [CharOf(d)]
  {
    hide CharOf;
    assert (10 * n + d) / 10 == n && (10 * n + d) % 10 == d;
  }

  /** Only one digit string without leading zeros denotes a number. */
  lemma {:induction false} ShortestIsUnique(s: string)
    requires AllDigits(s) && NoLeadingZero(s)
    ensures ToDecimal(Number(s)) == s
  {
    hide DigitOf, CharOf, Number, ToDecimal;
    var front, last := s[..|s| - 1], s[|s| - 1];
    if |s| == 1 {
      OneDigit(s);
    } else {
      PositiveWithoutLeadingZero(front);
      ShortestIsUnique(front);
      LastDigit(s);
      ToDecimalOf(Number(front), DigitOf(last));
      CharOfDigit(last);
      assert s == front + [last];
    }
  }

  lemma OneDigit(s: string)
    requires AllDigits(s) && |s| == 1
    ensures ToDecimal(Number(s)) == s
  {
    hide DigitOf, CharOf;
    assert s[..0] == "";
    CharOfDigit(s[0]);
  }

  lemma LastDigit(s: string)
    requires AllDigits(s) && s != ""
    ensures Number(s) == 10 * Number(s[..|s| - 1]) + DigitOf(s[|s| - 1])
  {
    hide DigitOf;
  }

  /** `{:02}` of a number below one hundred. */
  function TwoDigits(n: nat): (s: string)
    requires n < 100
    ensures |s| == 2 && AllDigits(s) && Number(s) == n
  {
    var s := [CharOf(n / 10), CharOf(n % 10)];
    assert s[..1] == [s[0]] && s[..1][..0] == "";
    assert Number(s[..1]) == DigitOf(s[0]);
    s
  }

  lemma TwoDigitsIsUnique(s: string)
    requires AllDigits(s) && |s| == 2
    ensures Number(s) < 100 && TwoDigits(Number(s)) == s
  {
    assert s[..1] == [s[0]] && s[..1][..0] == "";
    assert Number(s[..1]) == DigitOf(s[0]);
  }
}
