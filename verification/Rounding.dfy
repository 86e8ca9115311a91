/** Truncation to a number of significant decimal digits, over plain integers. */
module Rounding {
  import opened Decimal

  function Max(x: int, y: int): int {
    if x >= y then x else y
  }

  function Min(x: int, y: int): int {
    if x <= y then x else y
  }

  function IntAbs(x: int): nat {
    if x < 0 then -x else x
  }

  /** How many low digits of x lie below its max-th significant digit. */
  function Excess(x: int, max: nat): nat {
    Max(0, Digits(IntAbs(x)) - max)
  }

  /** r differs from x by less than one unit of the max-th significant digit of x. */
  ghost predicate Close(r: int, x: int, max: nat) {
    IntAbs(r - x) < Pow10(Excess(x, max))
  }

  /** Closeness does not depend on the unit both numbers are counted in. */
  lemma CloseScaled(r: int, x: int, max: nat, k: nat)
    requires max >= 1 && Close(r, x, max)
    ensures Close(r * Pow10(k), x * Pow10(k), max)
  {
    var p, e := Pow10(k), Excess(x, max);
    if e == 0 {
      assert r == x;
    } else {
      hide Pow10;
      assert r * p - x * p == (r - x) * p;
      AbsScaled(r - x, p);
      AbsScaled(x, p);
      assert IntAbs(x) > 0;
      DigitsTimesPow10(IntAbs(x), k);
      assert Excess(x * p, max) == e + k;
      Pow10Add(e, k);
      MulLess(IntAbs(r - x), Pow10(e), p);
    }
  }

  lemma AbsScaled(x: int, p: int)
    requires p > 0
    ensures IntAbs(x * p) == IntAbs(x) * p
  {
    assert (-x) * p == -(x * p);
    assert x > 0 ==> x * p > 0;
    assert x < 0 ==> (-x) * p > 0;
  }

  lemma MulLess(x: int, y: int, p: int)
    requires x < y && p > 0
    ensures x * p < y * p
  {
    assert (y - x) * p > 0;
    assert (y - x) * p == y * p - x * p;
  }

  lemma CloseNegated(r: int, x: int, max: nat)
    requires Close(r, x, max)
    ensures Close(-r, -x, max)
  {
    assert IntAbs(-r - -x) == IntAbs(r - x) && IntAbs(-x) == IntAbs(x);
  }

  /** One more digit on the right. */
  lemma DigitsAppend(n: nat, d: nat)
    requires n > 0 && d <= 9
    ensures Digits(10 * n + d) == Digits(n) + 1
  {
  }

  /** x without its k lowest digits. */
  function Lead(x: nat, k: nat): (l: nat)
    decreases k
  {
    if k == 0 then x else Lead(x / 10, k - 1)
  }

  /** How many zero digits x ends in. */
  function Zeros(x: nat): nat {
    if x > 0 && x % 10 == 0 then 1 + Zeros(x / 10) else 0
  }

  /** The digits normalisation drops from a significand: those beyond max, then trailing zeroes. */
  function Dropped(x: nat, max: nat): nat {
    if x == 0 then 0 else Excess(x, max) + Zeros(Lead(x, Excess(x, max)))
  }

  lemma LeadNone(n: nat)
    ensures Lead(n, 0) == n
  {
  }

  lemma {:induction false} LeadLead(x: nat, j: nat, k: nat)
    ensures Lead(Lead(x, j), k) == Lead(x, j + k)
    decreases j
  {
    if j > 0 {
      LeadLead(x / 10, j - 1, k);
    }
  }

  lemma TensStep(x: nat, l: int, p: int)
    requires l * p <= x / 10 < l * p + p
    ensures l * (10 * p) <= x < l * (10 * p) + 10 * p
  {
    assert l * (10 * p) == 10 * (l * p);
  }

  lemma {:induction false} LeadBounds(x: nat, k: nat)
    ensures Lead(x, k) * Pow10(k) <= x < Lead(x, k) * Pow10(k) + Pow10(k)
    decreases k
  {
    if k > 0 {
      LeadBounds(x / 10, k - 1);
      TensStep(x, Lead(x, k), Pow10(k - 1));
    }
  }

  lemma {:induction false} LeadDigits(x: nat, k: nat)
    requires k < Digits(x) && x > 0
    ensures Lead(x, k) > 0 && Digits(Lead(x, k)) == Digits(x) - k
    decreases k
  {
    if k > 0 {
      LeadDigits(x / 10, k - 1);
    }
  }

  lemma {:induction false} ZerosExact(x: nat)
    requires x > 0
    ensures Lead(x, Zeros(x)) * Pow10(Zeros(x)) == x && Lead(x, Zeros(x)) % 10 != 0
    ensures Zeros(x) < Digits(x)
  {
    if x % 10 == 0 {
      ZerosExact(x / 10);
      var l, p := Lead(x, Zeros(x)), Pow10(Zeros(x) - 1);
      assert l * (10 * p) == 10 * (l * p);
    }
  }

  lemma Associate(x: int, y: int, z: int)
    ensures x * (y * z) == (x * y) * z
  {
  }

  /** What is left after dropping: at most max digits, no trailing zero, close below x. */
  lemma DroppedFacts(x: nat, max: nat)
    requires x > 0 && max >= 1
    ensures var k, e := Dropped(x, max), Excess(x, max);
            && Lead(x, k) > 0 && Lead(x, k) % 10 != 0
            && k >= e && k < Digits(x)
            && Digits(Lead(x, k)) == Digits(x) - k <= max
            && Lead(x, k) * Pow10(k) <= x < Lead(x, k) * Pow10(k) + Pow10(e)
  {
    hide Lead, Zeros, Digits, Pow10;
    var e := Excess(x, max);
    LeadDigits(x, e);
    var y := Lead(x, e);
    var z := Zeros(y);
    ZerosExact(y);
    LeadLead(x, e, z);
    LeadDigits(x, e + z);
    LeadBounds(x, e);
    Pow10Add(z, e);
    Associate(Lead(x, e + z), Pow10(z), Pow10(e));
  }

  /** Normalisation changes nothing that is already normal. */
  lemma DroppedNone(x: nat, max: nat)
    requires Digits(x) <= max && (x > 0 ==> x % 10 != 0)
    ensures Dropped(x, max) == 0
  {
  }
}
