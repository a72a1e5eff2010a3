/** Decimal spelling of non-negative integers, as Python's `str(n)` writes it,
    and the value of a digit string. */
module Decimal {

  predicate IsDigit(c: char)
  {
    '0' <= c <= '9'
  }

  predicate AllDigits(s: string)
  {
    forall i :: 0 <= i < |s| ==> IsDigit(s[i])
  }

  function DigitChar(d: nat): (c: char)
    requires d < 10
    ensures IsDigit(c)
  {
    ('0' as int + d) as char
  }

  function DigitValue(c: char): (d: nat)
    requires IsDigit(c)
    ensures d < 10 && DigitChar(d) == c
  {
    c as int - '0' as int
  }

  function Pow10(k: nat): (p: nat)
    ensures p >= 1
  {
    if k == 0 then 1 else 10 * Pow10(k - 1)
  }

  /** `str(n)` for `n >= 0`: most significant digit first, no leading zero. */
  function Digits(n: nat): (s: string)
    ensures s != [] && AllDigits(s)
  {
    if n < 10 then [DigitChar(n)] else Digits(n / 10) + [DigitChar(n % 10)]
  }

  /** The number a digit string denotes. */
  function Value(s: string): (v: nat)
    requires AllDigits(s)
  {
    if s == [] then 0 else 10 * Value(s[..|s| - 1]) + DigitValue(s[|s| - 1])
  }

  /** Reading back a rendered number gives the number. */
  lemma {:induction false} ValueOfDigits(n: nat)
    ensures Value(Digits(n)) == n
  {
    if n >= 10 {
      var s := Digits(n);
      assert s[..|s| - 1] == Digits(n / 10);
      ValueOfDigits(n / 10);
    }
  }

  /** A number between 10^(k-1) and 10^k - 1 is written with exactly k digits. */
  lemma {:induction false} DigitsLength(n: nat, k: nat)
    requires k >= 1 && Pow10(k - 1) <= n < Pow10(k)
    ensures |Digits(n)| == k
  {
    if k >= 2 {
      assert Pow10(k - 1) == 10 * Pow10(k - 2);
    }
    if n >= 10 {
      DigitsLength(n / 10, k - 1);
    }
  }

  /** Two digit strings of the same length with the same value are equal. */
  lemma {:induction false} ValueInjective(s: string, u: string)
    requires AllDigits(s) && AllDigits(u) && |s| == |u| && Value(s) == Value(u)
    ensures s == u
  {
    if s != [] {
      var p, q := s[..|s| - 1], u[..|u| - 1];
      var d, e := DigitValue(s[|s| - 1]), DigitValue(u[|u| - 1]);
      assert 10 * Value(p) + d == 10 * Value(q) + e;
      assert d == e && Value(p) == Value(q);
      ValueInjective(p, q);
      assert s == p + [s[|s| - 1]] && u == q + [u[|u| - 1]];
    }
  }
}
