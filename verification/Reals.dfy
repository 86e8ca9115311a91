/** Bignum reals: a sign flag, a decimal exponent and a non-negative significand. */
module Reals {
  import opened Decimal
  import opened Layouts
  import opened Segments
  import opened SegmentSteps
  import opened Integers
  import opened LongArithmetic
  import opened Rounding

  const BE_MAX := 0x7FFF_FFFF
  const BE_MIN := -0x8000_0000

  datatype Real = Real(neg: bool, inexact: bool, exp: int, sig: seq<int>)

  datatype Outcome = Ok(r: Real) | ExponentOverflow | ExponentUnderflow | NotANumber

  ghost predicate WellFormed(lay: Layout, r: Real) {
    CanonicalNat(r.sig, lay.Base()) && BE_MIN <= r.exp <= BE_MAX
  }

  /** The significand as a number. */
  ghost function Mag(lay: Layout, r: Real): nat
    requires lay.Valid() && CanonicalNat(r.sig, lay.Base())
  {
    BaseFacts(lay);
    NatNonNegative(r.sig, lay.Base());
    Nat(r.sig, lay.Base())
  }

  /** At most MAX_DIGITS digits, none of them a trailing zero, and zero written with exponent 0. */
  ghost predicate Normal(lay: Layout, r: Real)
    requires lay.Valid()
  {
    && WellFormed(lay, r)
    && Digits(Mag(lay, r)) <= lay.MaxDigits()
    && (if Mag(lay, r) == 0 then r.exp == 0 else Mag(lay, r) % 10 != 0)
  }

  ghost function Signed(lay: Layout, r: Real): int
    requires lay.Valid() && CanonicalNat(r.sig, lay.Base())
  {
    if r.neg then 0 - Mag(lay, r) else Mag(lay, r)
  }

  /** The number r stands for, counted in units of 10^lo. */
  ghost function Units(lay: Layout, r: Real, lo: int): int
    requires lay.Valid() && CanonicalNat(r.sig, lay.Base()) && lo <= r.exp
  {
    Signed(lay, r) * Pow10(r.exp - lo)
  }

  predicate ZeroP(r: Real) {
    |r.sig| == 1 && r.sig[0] == 0
  }

  predicate NegativeP(r: Real) {
    r.neg && !ZeroP(r)
  }

  lemma ZeroIs(lay: Layout, r: Real)
    requires lay.Valid() && CanonicalNat(r.sig, lay.Base())
    ensures ZeroP(r) <==> Mag(lay, r) == 0
    ensures NegativeP(r) <==> Signed(lay, r) < 0
  {
    BaseFacts(lay);
    ValueSign(r.sig, lay.Base());
  }

  // ----- digit counts -----

  lemma {:induction false} DigitsAbove(n: nat, low: nat, k: nat)
    requires n > 0 && low < Pow10(k)
    ensures n * Pow10(k) + low > 0 && Digits(n * Pow10(k) + low) == Digits(n) + k
    decreases k
  {
    if k > 0 {
      DigitsAbove(n, low / 10, k - 1);
      TenTimes(n, Pow10(k - 1));
      DigitsAppend(n * Pow10(k - 1) + low / 10, low % 10);
    }
  }

  lemma TenTimes(n: int, p: int)
    ensures n * (10 * p) == 10 * (n * p)
  {
  }

  lemma {:induction false} DigitsOfSegments(s: seq<int>, dpw: nat)
    requires dpw >= 1 && InBase(s, Pow10(dpw)) && s != [] && s[|s| - 1] > 0
    ensures Nat(s, Pow10(dpw)) > 0
    ensures Digits(Nat(s, Pow10(dpw))) == Digits(s[|s| - 1]) + (|s| - 1) * dpw
    decreases |s|
  {
    hide Digits, Pow10;
    var base := Pow10(dpw);
    NatFirst(s, base);
    if |s| > 1 {
      DigitsOfSegments(s[1..], dpw);
      DigitsAbove(Nat(s[1..], base), s[0], dpw);
    }
  }

  /** Count the top segment's digits by dividing by ten, and DPW for every other segment. */
  method CountDigits(lay: Layout, s: seq<int>) returns (d: nat)
    requires lay.Valid() && CanonicalNat(s, lay.Base()) && Nat(s, lay.Base()) >= 0
    ensures d == Digits(Nat(s, lay.Base()))
  {
    hide Nat, Pow10;
    BaseFacts(lay);
    var segs := |s| - 1;
    var v := s[segs];
    d := 0;
    while v != 0
      invariant 0 <= v && (v > 0 ==> Digits(s[segs]) == d + Digits(v))
      invariant v == 0 && s[segs] > 0 ==> d == Digits(s[segs])
      invariant s[segs] == 0 ==> d == 0 && v == 0
    {
      v := v / 10;
      d := d + 1;
    }
    if d == 0 {
      d := d + 1;
    }
    if s[segs] > 0 {
      DigitsOfSegments(s, lay.dpw);
    } else {
      ValueSign(s, lay.Base());
    }
    d := d + segs * lay.dpw;
  }

  // ----- normalisation -----

  /** What normalisation makes of a significand x at an exponent, as numbers. */
  ghost predicate NormalisedTo(lay: Layout, bn: Real, res: Outcome)
    requires lay.Valid() && WellFormed(lay, bn)
  {
    var x, max := Mag(lay, bn), lay.MaxDigits();
    if x > 0 && bn.exp + Dropped(x, max) > BE_MAX then res.ExponentOverflow?
    else
      && res.Ok? && res.r.neg == bn.neg && res.r.inexact == bn.inexact
      && CanonicalNat(res.r.sig, lay.Base())
      && Mag(lay, res.r) == Lead(x, Dropped(x, max))
      && res.r.exp == if x == 0 then 0 else bn.exp + Dropped(x, max)
  }

  /** Drop the digits beyond MAX_DIGITS. */
  method CutDigits(lay: Layout, bn: Real) returns (s: seq<int>, exp: int, over: bool)
    requires lay.Valid() && WellFormed(lay, bn)
    ensures CanonicalNat(s, lay.Base())
    ensures over <==> bn.exp + Excess(Mag(lay, bn), lay.MaxDigits()) > BE_MAX
    ensures !over ==> Nat(s, lay.Base()) == Lead(Mag(lay, bn), Excess(Mag(lay, bn), lay.MaxDigits()))
    ensures !over ==> exp == bn.exp + Excess(Mag(lay, bn), lay.MaxDigits())
  {
    hide Nat, Pow10, Digits;
    ghost var x := Mag(lay, bn);
    s, exp, over := bn.sig, bn.exp, false;
    var digits := CountDigits(lay, s);
    ghost var k := 0;
    while digits > lay.MaxDigits()
      invariant k <= Excess(x, lay.MaxDigits()) && digits == Digits(x) - k
      invariant CanonicalNat(s, lay.Base()) && Nat(s, lay.Base()) == Lead(x, k)
      invariant exp == bn.exp + k <= BE_MAX
    {
      var t, d := ShiftRight(lay, s);
      if exp == BE_MAX {
        over := true;
        return;
      }
      exp := exp + 1;
      LeadLead(x, k, 1);
      NextLead(Lead(x, k), Nat(t, lay.Base()), d);
      s, k, digits := t, k + 1, digits - 1;
    }
  }

  lemma NextLead(n: nat, t: int, d: int)
    requires n == 10 * t + d && 0 <= d <= 9
    ensures Lead(n, 1) == t && (d == 0 <==> n % 10 == 0)
  {
    assert Lead(n, 1) == Lead(n / 10, 0);
  }

  /** Remove trailing zeroes, raising the exponent. */
  method CutZeroes(lay: Layout, s0: seq<int>, exp0: int) returns (s: seq<int>, exp: int, over: bool)
    requires lay.Valid() && CanonicalNat(s0, lay.Base()) && Nat(s0, lay.Base()) >= 0 && exp0 <= BE_MAX
    ensures CanonicalNat(s, lay.Base())
    ensures over <==> exp0 + Zeros(Nat(s0, lay.Base())) > BE_MAX
    ensures !over ==> exp == exp0 + Zeros(Nat(s0, lay.Base()))
    ensures !over ==> Nat(s, lay.Base()) == Lead(Nat(s0, lay.Base()), Zeros(Nat(s0, lay.Base())))
  {
    hide Nat, Pow10;
    ghost var x := Nat(s0, lay.Base());
    s, exp, over := s0, exp0, false;
    ghost var k := 0;
    BaseFacts(lay);
    while !IsZero(s)
      invariant CanonicalNat(s, lay.Base()) && Nat(s, lay.Base()) >= 0 && Nat(s, lay.Base()) == Lead(x, k)
      invariant Zeros(x) == k + Zeros(Lead(x, k)) && exp == exp0 + k <= BE_MAX
      decreases Nat(s, lay.Base())
    {
      ValueSign(s, lay.Base());
      var t, d := ShiftRight(lay, s);
      NextLead(Lead(x, k), Nat(t, lay.Base()), d);
      if d != 0 {
        return;
      }
      if exp == BE_MAX {
        over := true;
        return;
      }
      exp := exp + 1;
      LeadLead(x, k, 1);
      s, k := t, k + 1;
    }
    ValueSign(s, lay.Base());
  }

  method Normalize(lay: Layout, bn: Real) returns (res: Outcome)
    requires lay.Valid() && WellFormed(lay, bn)
    ensures NormalisedTo(lay, bn, res)
  {
    hide Nat, Digits, Lead, Zeros;
    ghost var x := Mag(lay, bn);
    BaseFacts(lay);
    ValueSign(bn.sig, lay.Base());
    SmallExcess(x, lay.MaxDigits());
    var s, exp, over := CutDigits(lay, bn);
    if over {
      return ExponentOverflow;
    }
    LeadLead(x, Excess(x, lay.MaxDigits()), Zeros(Lead(x, Excess(x, lay.MaxDigits()))));
    var z, exp1, over1 := CutZeroes(lay, s, exp);
    if over1 {
      return ExponentOverflow;
    }
    ValueSign(z, lay.Base());
    if x > 0 {
      DroppedFacts(x, lay.MaxDigits());
    }
    if IsZero(z) {
      exp1 := 0;
    }
    res := Ok(Real(bn.neg, bn.inexact, exp1, z));
  }

  lemma SmallExcess(x: nat, max: nat)
    requires max >= 1
    ensures x == 0 ==> Excess(x, max) == 0 && Zeros(Lead(x, 0)) == 0 && Lead(x, 0) == 0
  {
  }
}
