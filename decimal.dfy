/** Base-10 rendering of integers, as `strconv.Itoa`, `strconv.FormatInt(_, 10)`,
    `strconv.FormatUint(_, 10)` and `fmt`'s `%v` produce it, and its inverse. */
module Decimal {

  predicate IsDigit(c: char) { '0' <= c <= '9' }

  predicate AllDigits(s: string) { forall i :: 0 <= i < |s| ==> IsDigit(s[i]) }

  function DigitValue(c: char): nat
    requires IsDigit(c)
  {
    c as int - '0' as int
  }

  function Digit(d: nat): (c: char)
    requires d < 10
    ensures IsDigit(c) && DigitValue(c) == d
  {
    (d + '0' as int) as char
  }

  function Pow10(k: nat): (p: nat)
    ensures p >= 1
  {
    if k == 0 then 1 else 10 * Pow10(k - 1)
  }

  /** The decimal digits of `n`, most significant first, without leading zeros. */
  function FormatNat(n: nat): (s: string)
    ensures |s| >= 1 && AllDigits(s)
    ensures s[0] == '0' ==> n == 0
    decreases n
  {
    if n < 10 then [Digit(n)] else FormatNat(n / 10) + [Digit(n % 10)]
  }

  /** The number a string of decimal digits denotes. */
  function Value(s: string): nat
    requires AllDigits(s)
    decreases |s|
  {
    if s == [] then 0 else Value(s[..|s| - 1]) * 10 + DigitValue(s[|s| - 1])
  }

  /** Reading back a rendered natural number gives the number. */
  lemma {:induction false} ValueOfFormatNat(n: nat)
    ensures Value(FormatNat(n)) == n
    decreases n
  {
    if n >= 10 {
      var s := FormatNat(n);
      assert s[..|s| - 1] == FormatNat(n / 10);
      ValueOfFormatNat(n / 10);
    }
  }

  /** A string of k digits denotes a number below 10^k. */
  lemma {:induction false} ValueBound(s: string)
    requires AllDigits(s)
    ensures Value(s) < Pow10(|s|)
    decreases |s|
  {
    if s != [] {
      ValueBound(s[..|s| - 1]);
    }
  }

  /** The leading digit of a digit string weighs 10^(length of the rest). */
  lemma {:induction false} ValueLeading(c: char, t: string)
    requires IsDigit(c) && AllDigits(t)
    ensures AllDigits([c] + t)
    ensures Value([c] + t) == DigitValue(c) * Pow10(|t|) + Value(t)
    decreases |t|
  {
    var s := [c] + t;
    assert AllDigits(s) by {
      forall i | 0 <= i < |s| ensures IsDigit(s[i]) {
        if i > 0 { assert s[i] == t[i - 1]; }
      }
    }
    if t != [] {
      var t' := t[..|t| - 1];
      assert s[..|s| - 1] == [c] + t';
      ValueLeading(c, t');
      var a, p, v, d := DigitValue(c), Pow10(|t'|), Value(t'), DigitValue(t[|t| - 1]);
      assert Value(s) == Value([c] + t') * 10 + d;
      assert Value(t) == v * 10 + d;
      assert Pow10(|t|) == p * 10;
      ShiftDigit(a, p, v, d);
    }
  }

  /** Appending a digit to a number with a leading part multiplies both parts by ten. */
  lemma ShiftDigit(a: int, p: int, v: int, d: int)
    ensures (a * p + v) * 10 + d == a * (p * 10) + (v * 10 + d)
  {
  }

  /** A number with k digits renders to exactly k characters. */
  lemma {:induction false} FormatNatLength(n: nat, k: nat)
    requires 1 <= k && Pow10(k - 1) <= n < Pow10(k)
    ensures |FormatNat(n)| == k
    decreases k
  {
    if k > 1 {
      assert Pow10(k - 1) == 10 * Pow10(k - 2);
      assert Pow10(k) == 10 * Pow10(k - 1);
      assert n >= 10;
      FormatNatLength(n / 10, k - 1);
    } else {
      assert n < 10;
    }
  }

  /** `strconv.FormatInt(i, 10)`: a minus sign before the digits of a negative number. */
  function FormatInt(i: int): (s: string)
    ensures |s| >= 1
  {
    if i < 0 then "-" + FormatNat(-i) else FormatNat(i)
  }

  predicate IsIntText(s: string)
  {
    (|s| >= 2 && s[0] == '-' && AllDigits(s[1..])) || AllDigits(s)
  }

  /** The integer a decimal text with an optional minus sign denotes. */
  function ParseInt(s: string): int
    requires IsIntText(s)
  {
    if |s| >= 2 && s[0] == '-' && AllDigits(s[1..]) then -(Value(s[1..]) as int) else Value(s)
  }

  /** `FormatInt` loses nothing: parsing its text gives the integer back, so distinct integers
      render to distinct texts. */
  lemma FormatIntRoundTrip(i: int)
    ensures IsIntText(FormatInt(i)) && ParseInt(FormatInt(i)) == i
  {
    var s := FormatInt(i);
    if i < 0 {
      assert s[1..] == FormatNat(-i);
      ValueOfFormatNat(-i);
    } else {
      ValueOfFormatNat(i);
      assert !IsDigit('-');
    }
  }
}
