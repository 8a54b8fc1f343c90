/**
 Decimal text of natural numbers: the rendering Python's `str(n)` and
 f-strings give a non-negative `int`, and the value `int(...)` reads back
 from a string of ASCII digits.
 */
module Decimal {

  predicate IsDigit(c: char) {
    '0' <= c <= '9'
  }

  predicate AllDigits(s: string) {
    forall i :: 0 <= i < |s| ==> IsDigit(s[i])
  }

  function DigitValue(c: char): nat
    requires IsDigit(c)
  {
    (c as int) - ('0' as int)
  }

  function DigitChar(d: nat): (c: char)
    requires d < 10
    ensures IsDigit(c) && DigitValue(c) == d
  {
    (('0' as int) + d) as char
  }

  /** The number a string of digits denotes, most significant digit first. */
  function Value(s: string): nat
    requires AllDigits(s)
    decreases |s|
  {
    if |s| == 0 then 0 else Value(s[..|s| - 1]) * 10 + DigitValue(s[|s| - 1])
  }

  /** `str(n)` for a non-negative integer: digits only, no leading zero. */
  function Show(n: nat): (s: string)
    ensures |s| >= 1 && AllDigits(s)
    ensures |s| == 1 || s[0] != '0'
    decreases n
  {
    if n < 10 then [DigitChar(n)] else Show(n / 10) + [DigitChar(n % 10)]
  }

  function Pow10(k: nat): (p: nat)
    ensures p >= 1
  {
    if k == 0 then 1 else 10 * Pow10(k - 1)
  }

  /** Reading back what `Show` renders gives the number itself. */
  lemma {:induction false} ValueOfShow(n: nat)
    ensures Value(Show(n)) == n
    decreases n
  {
    if n >= 10 {
      var s := Show(n);
      assert s[..|s| - 1] == Show(n / 10);
      ValueOfShow(n / 10);
    }
  }

  /** Distinct numbers have distinct decimal renderings. */
  lemma ShowInjective(m: nat, n: nat)
    ensures Show(m) == Show(n) ==> m == n
  {
    ValueOfShow(m);
    ValueOfShow(n);
  }

  /** The length of `Show(n)` is the number of decimal digits of `n`. */
  lemma {:induction false} ShowLength(n: nat)
    ensures n < Pow10(|Show(n)|)
    ensures n == 0 || Pow10(|Show(n)| - 1) <= n
    decreases n
  {
    if n >= 10 {
      ShowLength(n / 10);
    }
  }

  /** `Show(n)` has exactly `k` digits iff `n` lies in `[10^(k-1), 10^k)`, for `k >= 2`. */
  lemma ShowHasDigits(n: nat, k: nat)
    requires k >= 2
    ensures |Show(n)| == k <==> Pow10(k - 1) <= n < Pow10(k)
  {
    ShowLength(n);
    var len := |Show(n)|;
    if len < k {
      Pow10Monotone(len, k - 1);
    } else if len > k {
      Pow10Monotone(k, len - 1);
    }
  }

  lemma {:induction false} Pow10Monotone(i: nat, j: nat)
    requires i <= j
    ensures Pow10(i) <= Pow10(j)
    decreases j
  {
    if i < j {
      Pow10Monotone(i, j - 1);
    }
  }

}
