/** Powers of ten and decimal digit counts, the arithmetic every bignum layer rests on. */
module Decimal {

  function Pow10(n: nat): (p: int)
    ensures p >= 1
    ensures n > 0 ==> p >= 10
  {
    if n == 0 then 1 else 10 * Pow10(n - 1)
  }

  lemma {:induction false} Pow10Add(m: nat, n: nat)
    ensures Pow10(m + n) == Pow10(m) * Pow10(n)
  {
    if m > 0 {
      Pow10Add(m - 1, n);
      assert Pow10(m) * Pow10(n) == 10 * (Pow10(m - 1) * Pow10(n));
    }
  }

  lemma Pow10Mono(m: nat, n: nat)
    requires m <= n
    ensures Pow10(m) <= Pow10(n)
    ensures m < n ==> 10 * Pow10(m) <= Pow10(n)
  {
    Pow10Add(m, n - m);
    MulMono(Pow10(m), 1, Pow10(n - m));
    if m < n {
      MulMono(Pow10(m), 10, Pow10(n - m));
    }
  }

  /** Multiplying by a non-negative factor keeps order. */
  lemma MulMono(k: int, x: int, y: int)
    requires k >= 0 && x <= y
    ensures k * x <= k * y
  {
  }

  /** The number of decimal digits needed to write n; zero takes one. */
  function Digits(n: nat): (d: nat)
    ensures d >= 1
  {
    if n < 10 then 1 else 1 + Digits(n / 10)
  }

  lemma {:induction false} DigitsBounds(n: nat)
    ensures n < Pow10(Digits(n))
    ensures n > 0 ==> Pow10(Digits(n) - 1) <= n
  {
    if n >= 10 {
      DigitsBounds(n / 10);
    }
  }

  lemma {:induction false} DigitsTimesPow10(n: nat, k: nat)
    requires n > 0
    ensures n * Pow10(k) > 0
    ensures Digits(n * Pow10(k)) == Digits(n) + k
  {
    if k > 0 {
      DigitsTimesPow10(n, k - 1);
      assert n * Pow10(k) == 10 * (n * Pow10(k - 1));
    }
  }

  lemma {:induction false} DigitsMono(m: nat, n: nat)
    requires m <= n
    ensures Digits(m) <= Digits(n)
  {
    if m >= 10 {
      DigitsMono(m / 10, n / 10);
    }
  }
}
