/** Real division: scale the dividend, divide integers, normalise. */
module RealDivision {
  import opened Decimal
  import opened Layouts
  import opened Segments
  import opened Integers
  import opened LongArithmetic
  import opened Rounding
  import opened Reals
  import opened RealOrder
  import opened RealArithmetic

  /**
    r times y is within |y| * 10^e of x, where 10^e is the unit of the max-th significant digit of
    x / y: that is, r is less than one such unit away from the exact quotient.
   */
  ghost predicate CloseQuotient(r: int, x: int, y: int, max: nat) {
    y != 0 && IntAbs(r * y - x) < IntAbs(y) * Pow10(Excess(IntAbs(x) / IntAbs(y), max))
  }

  /** How far the dividend is scaled: its digits become MAX_DIGITS more than the divisor's. */
  ghost function Scaling(lay: Layout, a: Real, b: Real): int
    requires lay.Valid() && Normal(lay, a) && Normal(lay, b)
  {
    lay.MaxDigits() + Digits(Mag(lay, b)) - Digits(Mag(lay, a))
  }

  /** The exponent of the scaled integer quotient. */
  ghost function QuotientExp(lay: Layout, a: Real, b: Real): int
    requires lay.Valid() && Normal(lay, a) && Normal(lay, b)
  {
    a.exp - Scaling(lay, a, b) - b.exp
  }

  /** The scaled integer quotient. */
  ghost function IntegerQuotient(lay: Layout, a: Real, b: Real): nat
    requires lay.Valid() && Normal(lay, a) && Normal(lay, b) && Scaling(lay, a, b) >= 0 && Mag(lay, b) > 0
  {
    TimesOver(Mag(lay, a), Pow10(Scaling(lay, a, b)), Mag(lay, b))
  }

  function TimesOver(x: nat, p: nat, y: nat): nat
    requires y > 0
  {
    x * p / y
  }

  /** In every unit fine enough to hold the digit, r is that close to the exact quotient. */
  ghost predicate QuotientClose(lay: Layout, a: Real, b: Real, r: Real)
    requires lay.Valid() && Normal(lay, a) && Normal(lay, b) && WellFormed(lay, r)
  {
    Scaling(lay, a, b) >= 0 &&
    forall lo :: lo <= QuotientExp(lay, a, b) && lo <= r.exp ==>
                   CloseQuotient(Units(lay, r, lo), Signed(lay, a) * Pow10(a.exp - b.exp - lo), Signed(lay, b), lay.MaxDigits())
  }

  /** The one exponent subtraction the tri-state guard lets wrap around. */
  ghost predicate ExponentWraps(lay: Layout, a: Real, b: Real)
    requires lay.Valid() && Normal(lay, a) && Normal(lay, b)
  {
    a.exp == Scaling(lay, a, b) && b.exp == BE_MIN
  }

  // ----- integer facts -----

  lemma DivAtLeast(x: nat, d: int, q: int)
    requires d > 0 && q * d <= x
    ensures x / d >= q
  {
    var f := x / d;
    assert x == d * f + x % d;
    assert (q - f - 1) * d == q * d - f * d - d;
    assert q > f ==> (q - f - 1) * d >= 0;
  }

  /** Dropping low digits of the integer quotient costs less than one unit per divisor. */
  lemma QuotientError(x: int, y: int, q: int, rem: int, r0: int, unit: int)
    requires y > 0 && x == q * y + rem && 0 <= rem < y && r0 <= q < r0 + unit
    ensures 0 <= x - r0 * y < y * unit
  {
    var d := q - r0;
    Distribute(y, q, r0);
    MulMono(y, 0, d);
    MulMono(y, d + 1, unit);
    DistributeOne(d, y);
  }

  lemma Distribute(k: int, x: int, y: int)
    ensures k * (x - y) == k * x - k * y
  {
  }

  lemma ScaleInequality(e: int, y: int, unit: int, p: int)
    requires e < y * unit && p > 0
    ensures e * p < y * (unit * p)
  {
    MulLess(e, y * unit, p);
    Associate(y, unit, p);
  }

  lemma ErrorScaled(x: nat, y: nat, r0: nat, e: nat, k: nat)
    requires 0 <= x - r0 * y < y * Pow10(e)
    ensures 0 <= x * Pow10(k) - (r0 * Pow10(k)) * y < y * Pow10(e + k)
  {
    hide *;
    var p := Pow10(k);
    Pow10Add(e, k);
    ScaleInequality(x - r0 * y, y, Pow10(e), p);
    MulMono(p, 0, x - r0 * y);
    Distribute(p, x, r0 * y);
    Associate(p, r0, y);
  }

  lemma DigitsScaled(x: nat, y: nat, q: nat, k: nat)
    requires y > 0 && q * y <= x && q > 0
    ensures x * Pow10(k) >= 0 && Digits(x * Pow10(k) / y) >= Digits(q) + k
  {
    hide *;
    var p := Pow10(k);
    MulMono(p, q * y, x);
    assert (q * p) * y == p * (q * y);
    DivAtLeast(x * p, y, q * p);
    DigitsTimesPow10(q, k);
    DigitsMono(q * p, x * p / y);
  }

  /** The core estimate: a truncated, cut-down quotient r0 is close in every smaller unit. */
  lemma QuotientCloseCore(x: nat, y: nat, q: nat, rem: nat, r0: nat, max: nat, k: nat)
    requires y > 0 && max >= 1 && x == q * y + rem && rem < y && Digits(q) >= max && q > 0
    requires r0 <= q < r0 + Pow10(Excess(q, max))
    ensures CloseQuotient(r0 * Pow10(k), x * Pow10(k), y, max)
  {
    hide *;
    var e := Digits(q) - max;
    ExcessIs(q, max);
    QuotientError(x, y, q, rem, r0, Pow10(e));
    ErrorScaled(x, y, r0, e, k);
    DigitsScaled(x, y, q, k);
    CloseQuotientFrom(r0 * Pow10(k), x * Pow10(k), y, max, e + k);
  }

  lemma ExcessIs(q: nat, max: nat)
    requires Digits(q) >= max
    ensures Excess(q, max) == Digits(q) - max
  {
  }

  lemma CloseQuotientFrom(r: int, x: nat, y: nat, max: nat, e: nat)
    requires y > 0 && 0 <= x - r * y < y * Pow10(e) && Digits(x / y) >= max + e
    ensures CloseQuotient(r, x, y, max)
  {
    Pow10Mono(e, Excess(x / y, max));
    MulMono(y, Pow10(e), Pow10(Excess(x / y, max)));
  }

  lemma CloseQuotientSigns(r: int, x: int, y: int, max: nat)
    requires CloseQuotient(r, x, y, max)
    ensures CloseQuotient(-r, -x, y, max)
    ensures CloseQuotient(-r, x, -y, max)
    ensures CloseQuotient(r, -x, -y, max)
  {
    assert (-r) * y == -(r * y) && (-r) * (-y) == r * y && r * (-y) == -(r * y);
    assert IntAbs(-r * y - -x) == IntAbs(r * y - x);
  }

  /** The quotient has at least as many digits as the dividend has more than the divisor. */
  lemma QuotientDigits(x: nat, y: nat, q: nat, rem: nat, max: nat)
    requires y > 0 && x == q * y + rem && rem < y && max >= 1 && Digits(x) == Digits(y) + max
    ensures Digits(q) >= max && q > 0
  {
    hide *;
    if Digits(q) < max || q == 0 {
      SmallDigitsOr(q, max - 1);
      SmallDigits(y, Digits(y));
      Pow10Add(max - 1, Digits(y));
      MulMono(y, q + 1, Pow10(max - 1));
      MulMono(Pow10(max - 1), y, Pow10(Digits(y)));
      DistributeOne(q, y);
      LargeDigits(x, Digits(x) - 1);
    }
  }

  lemma SmallDigitsOr(q: nat, n: nat)
    requires Digits(q) <= n || q == 0
    ensures q < Pow10(n)
  {
    if q > 0 {
      SmallDigits(q, n);
    }
  }

  lemma DistributeOne(q: int, y: int)
    ensures y * (q + 1) == q * y + y
  {
  }

  // ----- the operation -----

  /** Scale the dividend up to MAX_DIGITS more digits than the divisor, lowering its exponent. */
  method ScaleDividend(lay: Layout, a: Real, b: Real) returns (s: seq<int>, expa: int, under: bool)
    requires lay.Valid() && Normal(lay, a) && Normal(lay, b)
    ensures under <==> a.exp - Scaling(lay, a, b) < BE_MIN
    ensures Scaling(lay, a, b) >= 1
    ensures !under ==> CanonicalNat(s, lay.Base()) && Nat(s, lay.Base()) == Mag(lay, a) * Pow10(Scaling(lay, a, b))
    ensures !under ==> expa == a.exp - Scaling(lay, a, b)
  {
    hide Nat, Digits, Pow10;
    DigitsPositive(Mag(lay, b));
    PowZero();
    s, expa, under := a.sig, a.exp, false;
    var nd := CountDigits(lay, a.sig);
    var db := CountDigits(lay, b.sig);
    var dd := lay.MaxDigits() + db;
    ghost var k := 0;
    while nd < dd
      invariant k <= Scaling(lay, a, b) && nd == Digits(Mag(lay, a)) + k && expa == a.exp - k >= BE_MIN
      invariant CanonicalNat(s, lay.Base()) && Nat(s, lay.Base()) == Mag(lay, a) * Pow10(k)
    {
      s := ShiftLeft(lay, s, 0);
      PowNext(k);
      TenTimes(Mag(lay, a), Pow10(k));
      nd := nd + 1;
      if expa == BE_MIN {
        under := true;
        return;
      }
      expa, k := expa - 1, k + 1;
    }
  }

  lemma DigitsPositive(n: nat)
    ensures Digits(n) >= 1
  {
  }

  lemma PowNext(k: nat)
    ensures Pow10(k + 1) == 10 * Pow10(k)
  {
  }

  /** The tri-state guard before expa -= expb, with the subtraction done in 32 bits. */
  method GuardedDifference(expa: int, expb: int) returns (exp: int, overflow: int)
    requires BE_MIN <= expa <= BE_MAX && BE_MIN <= expb <= BE_MAX
    ensures BE_MIN <= exp <= BE_MAX
    ensures overflow == -1 <==> expa - expb < BE_MIN
    ensures overflow == 1 <==> expa - expb > BE_MAX && !(expa == 0 && expb == BE_MIN)
    ensures overflow == 0 || overflow == 1 || overflow == -1
    ensures overflow == 0 && !(expa == 0 && expb == BE_MIN) ==> exp == expa - expb
    ensures expa == 0 && expb == BE_MIN ==> exp == BE_MIN
  {
    exp, overflow := expa, 0;
    if expb > 0 {
      if expa < 0 && expb > IntAbs(BE_MIN - expa) {
        overflow := -1;
      } else {
        exp := Wrap32(expa - expb);
      }
    } else if expb < 0 {
      if expa > 0 && IntAbs(expb) > BE_MAX - expa {
        overflow := 1;
      } else {
        exp := Wrap32(expa - expb);
      }
    }
  }

  /** What the integer division of the scaled significands establishes. */
  ghost predicate Divided(lay: Layout, a: Real, b: Real, bn: Real, rem: int)
    requires lay.Valid() && Normal(lay, a) && Normal(lay, b) && Scaling(lay, a, b) >= 0
  {
    && WellFormed(lay, bn) && bn.neg == (a.neg != b.neg) && Mag(lay, b) > 0 && Mag(lay, a) > 0
    && Mag(lay, a) * Pow10(Scaling(lay, a, b)) == Mag(lay, bn) * Mag(lay, b) + rem && 0 <= rem < Mag(lay, b)
    && bn.exp == if ExponentWraps(lay, a, b) then BE_MIN else QuotientExp(lay, a, b)
  }

  lemma QuotientLarge(lay: Layout, a: Real, b: Real, bn: Real, rem: int)
    requires lay.Valid() && Normal(lay, a) && Normal(lay, b) && Scaling(lay, a, b) >= 0 && Divided(lay, a, b, bn, rem)
    ensures Digits(Mag(lay, bn)) >= lay.MaxDigits() && Mag(lay, bn) > 0
  {
    hide Nat, Digits, Pow10;
    BaseFacts(lay);
    DigitsTimesPow10(Mag(lay, a), Scaling(lay, a, b));
    QuotientDigits(Mag(lay, a) * Pow10(Scaling(lay, a, b)), Mag(lay, b), Mag(lay, bn), rem, lay.MaxDigits());
  }

  lemma SignsOf(lay: Layout, r: Real)
    requires lay.Valid() && CanonicalNat(r.sig, lay.Base())
    ensures Signed(lay, r) == if r.neg then -(Mag(lay, r) as int) else Mag(lay, r)
  {
  }

  lemma NegatedProduct(x: int, p: int)
    ensures (-x) * p == -(x * p)
  {
  }

  /** Without a wrapped exponent the result is close in the unit 10^lo. */
  lemma CloseAt(lay: Layout, a: Real, b: Real, bn: Real, rem: int, res: Outcome, lo: int)
    requires lay.Valid() && Normal(lay, a) && Normal(lay, b) && Scaling(lay, a, b) >= 0 && Divided(lay, a, b, bn, rem)
    requires !ExponentWraps(lay, a, b) && NormalisedTo(lay, bn, res) && res.Ok?
    requires lo <= bn.exp && lo <= res.r.exp
    ensures CloseQuotient(Units(lay, res.r, lo), Signed(lay, a) * Pow10(a.exp - b.exp - lo), Signed(lay, b), lay.MaxDigits())
  {
    hide Nat, Digits, Pow10, CloseQuotient, NormalisedTo, Signed;
    BaseFacts(lay);
    QuotientLarge(lay, a, b, bn, rem);
    NormalisedIsNormal(lay, bn, res);
    NormalisedSign(lay, bn, res);
    var k, e, j := Scaling(lay, a, b), bn.exp - lo, res.r.exp - bn.exp;
    var x, y, q, m := Mag(lay, a) * Pow10(k), Mag(lay, b), Mag(lay, bn), Mag(lay, res.r);
    Pow10Add(k, e);
    Associate(Mag(lay, a), Pow10(k), Pow10(e));
    Pow10Add(j, e);
    Associate(m, Pow10(j), Pow10(e));
    QuotientCloseCore(x, y, q, rem, m * Pow10(j), lay.MaxDigits(), e);
    CloseQuotientSigns(m * Pow10(j + e), x * Pow10(e), y, lay.MaxDigits());
    SignedUnits(lay, res.r, lo);
    SignsOf(lay, a);
    SignsOf(lay, b);
    NegatedProduct(Mag(lay, a), Pow10(a.exp - b.exp - lo));
    assert a.exp - b.exp - lo == k + e;
  }

  lemma NormalisedSign(lay: Layout, bn: Real, res: Outcome)
    requires lay.Valid() && WellFormed(lay, bn) && NormalisedTo(lay, bn, res) && res.Ok?
    ensures res.r.neg == bn.neg
  {
  }

  // ----- the wrapped exponent -----

  lemma UnitBelow(f: nat, max: nat)
    requires max >= 2 && f > 0
    ensures 10 * Pow10(Excess(f, max)) <= f || Excess(f, max) == 0
  {
    DigitsBounds(f);
    if Excess(f, max) > 0 {
      Pow10Mono(Excess(f, max), Digits(f) - 1);
    }
  }

  lemma DivTimes(x: nat, y: int)
    requires y > 0
    ensures 0 <= x / y && x / y * y <= x
  {
    DivAtLeast(x, y, 0);
  }

  lemma ManyTimesOver(x: int, y: int, q: int, r0: int, p: int, f: int, u: int)
    requires y > 0 && q >= 1 && q * y <= x && r0 <= q && p >= 2 && f * y <= x * p
    requires 10 * u <= f || u == 1
    ensures x * p - r0 * y >= y * u
  {
    MulMono(y, r0, q);
    MulMono(y, 1, q);
    MulMono(x, 2, p);
    if 10 * u <= f {
      MulMono(y, 10 * u, f);
      TenTimes(y, u);
    }
  }

  /** A quotient counted in units p times too small is nowhere near. */
  lemma NotCloseCore(x: nat, y: nat, q: nat, r0: nat, max: nat, p: int)
    requires y > 0 && max >= 2 && q >= 1 && q * y <= x && r0 <= q && p >= 2 && x * p >= 1
    ensures !CloseQuotient(r0, x * p, y, max)
  {
    hide Pow10, Digits, Excess;
    var f := x * p / y;
    DivTimes(x * p, y);
    PowZero();
    if f > 0 {
      UnitBelow(f, max);
    } else {
      SmallQuotient(x, y, q, p);
    }
    ManyTimesOver(x, y, q, r0, p, f, Pow10(Excess(f, max)));
  }

  lemma SmallQuotient(x: nat, y: nat, q: nat, p: int)
    requires y > 0 && q >= 1 && q * y <= x && p >= 2 && x * p >= 0
    ensures x * p / y > 0
  {
    assert (q - 1) * y >= 0 && (q - 1) * y == q * y - y;
    assert x * (p - 1) >= 0 && x * (p - 1) == x * p - x;
    DivAtLeast(x * p, y, 1);
  }

  lemma NotCloseWhenWrapped(lay: Layout, a: Real, b: Real, bn: Real, rem: int, res: Outcome)
    requires lay.Valid() && Normal(lay, a) && Normal(lay, b) && Scaling(lay, a, b) >= 0 && Divided(lay, a, b, bn, rem)
    requires ExponentWraps(lay, a, b) && NormalisedTo(lay, bn, res) && res.Ok? && Normal(lay, res.r)
    ensures !QuotientClose(lay, a, b, res.r)
  {
    hide Nat, Digits, Pow10, CloseQuotient, NormalisedTo, Signed;
    BaseFacts(lay);
    QuotientLarge(lay, a, b, bn, rem);
    NormalisedIsNormal(lay, bn, res);
    NormalisedSign(lay, bn, res);
    var lo := BE_MIN;
    var k, e, j := Scaling(lay, a, b), QuotientExp(lay, a, b) - lo, res.r.exp - bn.exp;
    var x, y, q, m := Mag(lay, a) * Pow10(k), Mag(lay, b), Mag(lay, bn), Mag(lay, res.r);
    Pow10Add(k, e);
    Associate(Mag(lay, a), Pow10(k), Pow10(e));
    PowTwo(e);
    PositiveProduct(x, y, q, Pow10(e));
    NotCloseCore(x, y, q, m * Pow10(j), lay.MaxDigits(), Pow10(e));
    SignedUnits(lay, res.r, lo);
    SignsOf(lay, a);
    SignsOf(lay, b);
    NegatedProduct(Mag(lay, a), Pow10(a.exp - b.exp - lo));
    assert a.exp - b.exp - lo == k + e;
    var u, v := Units(lay, res.r, lo), Signed(lay, a) * Pow10(a.exp - b.exp - lo);
    if CloseQuotient(u, v, Signed(lay, b), lay.MaxDigits()) {
      CloseQuotientSigns(u, v, Signed(lay, b), lay.MaxDigits());
    }
  }

  lemma PowTwo(e: nat)
    requires e >= 1
    ensures Pow10(e) >= 2
  {
  }

  lemma PositiveProduct(x: int, y: int, q: int, p: int)
    requires y > 0 && q >= 1 && q * y <= x && p >= 2
    ensures x * p >= 1
  {
    assert (q - 1) * y >= 0 && (q - 1) * y == q * y - y;
    assert x * (p - 1) >= 0 && x * (p - 1) == x * p - x;
  }

  // ----- division -----

  /** Only a wrapped exponent is exempt, and that one cannot overflow any more. */
  lemma QuotientOverflows(lay: Layout, a: Real, b: Real, bn: Real, rem: int)
    requires lay.Valid() && Normal(lay, a) && Normal(lay, b) && Scaling(lay, a, b) >= 0 && Divided(lay, a, b, bn, rem)
    ensures Mag(lay, bn) > 0 && Mag(lay, bn) == IntegerQuotient(lay, a, b)
    ensures ExponentWraps(lay, a, b) ==> bn.exp + Dropped(Mag(lay, bn), lay.MaxDigits()) <= BE_MAX
  {
    hide Nat, Digits, Pow10, Dropped;
    QuotientLarge(lay, a, b, bn, rem);
    var x, y, q := Mag(lay, a) * Pow10(Scaling(lay, a, b)), Mag(lay, b), Mag(lay, bn);
    QuotientIs(x, y, q, rem);
    if ExponentWraps(lay, a, b) {
      BaseFacts(lay);
      DroppedFacts(q, lay.MaxDigits());
      DigitsScaledBy(lay, a, b);
      DigitsMono(q, x);
    }
  }

  lemma QuotientIs(x: nat, y: nat, q: nat, rem: int)
    requires y > 0 && x == q * y + rem && 0 <= rem < y
    ensures q == x / y && q <= x
  {
    DivAtLeast(x, y, q);
    DivTimes(x, y);
    DigitBound(x / y, y, x, q);
    MulMono(q, 1, y);
  }

  /** The scaled dividend has MAX_DIGITS more digits than the divisor. */
  lemma DigitsScaledBy(lay: Layout, a: Real, b: Real)
    requires lay.Valid() && Normal(lay, a) && Normal(lay, b) && Mag(lay, a) > 0 && Scaling(lay, a, b) >= 0
    ensures Digits(Mag(lay, a) * Pow10(Scaling(lay, a, b))) == Digits(Mag(lay, b)) + lay.MaxDigits()
  {
    hide Nat, Digits, Pow10;
    DigitsTimesPow10(Mag(lay, a), Scaling(lay, a, b));
  }

  lemma QuotientNotZero(lay: Layout, a: Real, b: Real)
    requires lay.Valid() && Normal(lay, a) && Normal(lay, b) && Mag(lay, a) > 0 && Mag(lay, b) > 0 && Scaling(lay, a, b) >= 0
    ensures IntegerQuotient(lay, a, b) > 0
  {
    hide Nat, Digits, Pow10;
    BaseFacts(lay);
    DigitsScaledBy(lay, a, b);
    var x, y := Mag(lay, a) * Pow10(Scaling(lay, a, b)), Mag(lay, b);
    if x < y {
      DigitsMono(x, y);
    }
    DivAtLeast(x, y, 1);
  }

  /** What dividing promises. */
  ghost predicate QuotientOf(lay: Layout, a: Real, b: Real, res: Outcome)
    requires lay.Valid() && Normal(lay, a) && Normal(lay, b)
  {
    && (Mag(lay, a) == 0 ==> res == Ok(Real(false, false, 0, [0])))
    && (res.NotANumber? <==> Mag(lay, a) > 0 && Mag(lay, b) == 0)
    && (res.ExponentUnderflow? <==>
        && Mag(lay, a) > 0 && Mag(lay, b) > 0
        && (a.exp - Scaling(lay, a, b) < BE_MIN || QuotientExp(lay, a, b) < BE_MIN))
    && (res.ExponentOverflow? <==>
        && Mag(lay, a) > 0 && Mag(lay, b) > 0
        && a.exp - Scaling(lay, a, b) >= BE_MIN && QuotientExp(lay, a, b) >= BE_MIN && !ExponentWraps(lay, a, b)
        && TooLarge(lay, IntegerQuotient(lay, a, b), QuotientExp(lay, a, b)))
    && (res.Ok? ==> !res.r.inexact)
    && (res.Ok? && Mag(lay, a) > 0 ==>
        && Normal(lay, res.r)
        && (QuotientClose(lay, a, b, res.r) <==> !ExponentWraps(lay, a, b)))
  }

  method RealDivide(lay: Layout, a: Real, b: Real) returns (res: Outcome)
    requires lay.Valid() && Normal(lay, a) && Normal(lay, b)
    ensures QuotientOf(lay, a, b, res)
  {
    hide Nat, Digits, Pow10, QuotientClose, NormalisedTo;
    ZeroIs(lay, a);
    ZeroIs(lay, b);
    if ZeroP(a) {
      return Ok(Real(false, false, 0, [0]));
    }
    if ZeroP(b) {
      return NotANumber;
    }
    var neg := NegativeP(a) != NegativeP(b);
    var s, expa, under := ScaleDividend(lay, a, b);
    if under {
      return ExponentUnderflow;
    }
    QuotientNotZero(lay, a, b);
    var exp, overflow := GuardedDifference(expa, b.exp);
    if overflow == -1 {
      return ExponentUnderflow;
    } else if overflow == 1 {
      return ExponentOverflow;
    }
    SigIsInt(lay, b);
    SigIsInt(lay, a.(sig := s));
    var d := Divide(lay, s, b.sig);
    var bn := Real(neg, false, exp, d.div);
    QuotientIsDivided(lay, a, b, s, d, bn);
    res := Normalize(lay, bn);
    NormalisedWhich(lay, bn, res);
    QuotientOverflows(lay, a, b, bn, Val(lay, d.mod));
    if res.Ok? {
      DividedClose(lay, a, b, bn, Val(lay, d.mod), res);
    }
  }

  lemma TruncatedNonNegative(x: int, y: int, q: int, r: int)
    requires Truncated(x, y, q, r) && x >= 0 && y > 0
    ensures x == q * y + r && 0 <= r < y && q >= 0
  {
    if q < 0 {
      MulMono(y, q, -1);
    }
  }

  lemma QuotientIsDivided(lay: Layout, a: Real, b: Real, s: seq<int>, d: DivideResult, bn: Real)
    requires lay.Valid() && Normal(lay, a) && Normal(lay, b) && Scaling(lay, a, b) >= 0
    requires Mag(lay, a) > 0 && Mag(lay, b) > 0 && CanonicalNat(s, lay.Base())
    requires Int(lay, s) && Val(lay, s) == Mag(lay, a) * Pow10(Scaling(lay, a, b))
    requires d.Quotient? && Int(lay, d.div) && Int(lay, d.mod)
    requires Truncated(Val(lay, s), Mag(lay, b), Val(lay, d.div), Val(lay, d.mod))
    requires bn.sig == d.div && bn.neg == (a.neg != b.neg) && BE_MIN <= bn.exp <= BE_MAX
    requires bn.exp == if ExponentWraps(lay, a, b) then BE_MIN else QuotientExp(lay, a, b)
    ensures Divided(lay, a, b, bn, Val(lay, d.mod))
  {
    hide Nat, Digits, Pow10, Truncated;
    BaseFacts(lay);
    MulMono(Pow10(Scaling(lay, a, b)), 0, Mag(lay, a));
    PowAtLeastOne(Scaling(lay, a, b));
    TruncatedNonNegative(Val(lay, s), Mag(lay, b), Val(lay, d.div), Val(lay, d.mod));
    ValueSign(d.div, lay.Base());
  }

  lemma PowAtLeastOne(n: nat)
    ensures Pow10(n) >= 1
  {
  }

  /** The quotient is close exactly when the exponent subtraction did not wrap around. */
  lemma DividedClose(lay: Layout, a: Real, b: Real, bn: Real, rem: int, res: Outcome)
    requires lay.Valid() && Normal(lay, a) && Normal(lay, b) && Scaling(lay, a, b) >= 0 && Divided(lay, a, b, bn, rem)
    requires NormalisedTo(lay, bn, res) && res.Ok?
    ensures Normal(lay, res.r)
    ensures QuotientClose(lay, a, b, res.r) <==> !ExponentWraps(lay, a, b)
  {
    hide Nat, Digits, Pow10, CloseQuotient, NormalisedTo;
    NormalisedIsNormal(lay, bn, res);
    if ExponentWraps(lay, a, b) {
      NotCloseWhenWrapped(lay, a, b, bn, rem, res);
    } else {
      forall lo | lo <= QuotientExp(lay, a, b) && lo <= res.r.exp
        ensures CloseQuotient(Units(lay, res.r, lo), Signed(lay, a) * Pow10(a.exp - b.exp - lo), Signed(lay, b), lay.MaxDigits())
      {
        CloseAt(lay, a, b, bn, rem, res, lo);
      }
    }
  }

  /** A pair of Normal reals, 1e18 and 1e-2147483648, that meets the exception. */
  lemma WrapWitness()
    ensures var a, b := Real(false, false, 18, [1]), Real(false, false, BE_MIN, [1]);
            LP64.Valid() && Normal(LP64, a) && Normal(LP64, b) && ExponentWraps(LP64, a, b)
  {
    BothLayoutsValid();
    var a, b := Real(false, false, 18, [1]), Real(false, false, BE_MIN, [1]);
    BaseFacts(LP64);
    assert Nat([1], LP64.Base()) == 1 + LP64.Base() * Nat([], LP64.Base());
    assert Digits(1) == 1;
  }
}
