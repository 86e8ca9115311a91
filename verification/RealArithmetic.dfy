/** Real addition, multiplication and division: Normal results within one unit of the last kept digit. */
module RealArithmetic {
  import opened Decimal
  import opened Layouts
  import opened Segments
  import opened Integers
  import opened LongArithmetic
  import opened Rounding
  import opened Reals
  import opened Options
  import opened RealOrder

  // ----- addition -----

  /** In every unit, r is within one unit of the MAX_DIGITS-th significant digit of the exact sum. */
  ghost predicate SumClose(lay: Layout, a: Real, b: Real, r: Real)
    requires lay.Valid() && WellFormed(lay, a) && WellFormed(lay, b) && WellFormed(lay, r)
  {
    forall lo :: lo <= a.exp && lo <= b.exp && lo <= r.exp ==>
                   Close(Units(lay, r, lo), Units(lay, a, lo) + Units(lay, b, lo), lay.MaxDigits())
  }

  lemma CloseSelf(x: int, max: nat)
    ensures Close(x, x, max)
  {
  }

  lemma SumWithZero(lay: Layout, a: Real, b: Real)
    requires lay.Valid() && Normal(lay, a) && Normal(lay, b) && Mag(lay, a) == 0
    ensures SumClose(lay, a, b, b) && SumClose(lay, b, a, b)
  {
    forall lo | lo <= a.exp && lo <= b.exp
      ensures Close(Units(lay, b, lo), Units(lay, a, lo) + Units(lay, b, lo), lay.MaxDigits())
    {
      hide Close;
      SignedUnits(lay, a, lo);
      CloseSelf(Units(lay, b, lo), lay.MaxDigits());
    }
  }

  /** |x| stays close to |x + y| when y has at most max digits and x more than twice as many. */
  lemma FarApart(x: int, y: int, max: nat)
    requires max >= 1 && Digits(IntAbs(y)) <= max && Digits(IntAbs(x)) > 2 * max
    ensures Close(x, x + y, max)
  {
    hide *;
    var n := 2 * max - 1;
    LargeDigits(IntAbs(x), n + 1);
    SmallDigits(IntAbs(y), max);
    Pow10Mono(n, n + 1);
    Pow10Mono(max, n);
    SumStaysLarge(x, y, Pow10(n));
    DigitsAtLeast(IntAbs(x + y), 2 * max);
    CloseWithin(x, x + y, max, max);
  }

  lemma LargeDigits(x: nat, n: nat)
    requires Digits(x) > n >= 1
    ensures x >= Pow10(n)
  {
    DigitsBounds(x);
    Pow10Mono(n, Digits(x) - 1);
  }

  lemma SmallDigits(x: nat, n: nat)
    requires Digits(x) <= n
    ensures x < Pow10(n)
  {
    DigitsBounds(x);
    Pow10Mono(Digits(x), n);
  }

  lemma SumStaysLarge(x: int, y: int, p: int)
    requires p >= 1 && IntAbs(x) >= 10 * p && IntAbs(y) < p
    ensures IntAbs(x + y) >= p && IntAbs(x - (x + y)) == IntAbs(y)
  {
  }

  lemma CloseWithin(r: int, x: int, max: nat, e: nat)
    requires IntAbs(r - x) < Pow10(e) && Digits(IntAbs(x)) >= max + e
    ensures Close(r, x, max)
  {
    Pow10Mono(e, Excess(x, max));
  }

  lemma DigitsAtLeast(s: nat, n: nat)
    requires n >= 1 && s >= Pow10(n - 1)
    ensures Digits(s) >= n
  {
    hide Digits;
    DigitsBounds(s);
    if Digits(s) < n {
      Pow10Mono(Digits(s), n - 1);
    }
  }

  /** The larger of two numbers too far apart to scale stands for their sum. */
  lemma LargerIsSum(lay: Layout, a: Real, b: Real)
    requires lay.Valid() && Normal(lay, a) && Normal(lay, b) && Mag(lay, a) > 0 && Mag(lay, b) > 0
    requires a.exp < b.exp && NoRoom(Digits(Mag(lay, b)), b.exp, a.exp, 2 * lay.MaxDigits())
    ensures SumClose(lay, a, b, b) && SumClose(lay, b, a, b)
    ensures Digits(Mag(lay, a)) + a.exp < Digits(Mag(lay, b)) + b.exp
  {
    hide Digits, Nat, Pow10, Units, Close;
    WrapBelow(b.exp - a.exp);
    BaseFacts(lay);
    forall lo | lo <= a.exp
      ensures Close(Units(lay, b, lo), Units(lay, b, lo) + Units(lay, a, lo), lay.MaxDigits())
    {
      FarApartUnits(lay, a, b, lo);
    }
  }

  lemma FarApartUnits(lay: Layout, a: Real, b: Real, lo: int)
    requires lay.Valid() && Normal(lay, a) && Normal(lay, b) && Mag(lay, b) > 0 && lo <= a.exp < b.exp
    requires Digits(Mag(lay, b)) + b.exp > 2 * lay.MaxDigits() + a.exp
    ensures Close(Units(lay, b, lo), Units(lay, b, lo) + Units(lay, a, lo), lay.MaxDigits())
  {
    hide Digits, Mag, Pow10, Close, Units;
    BaseFacts(lay);
    UnitsLower(lay, b, a.exp, lo);
    UnitsLower(lay, a, a.exp, lo);
    var x, y := Units(lay, b, a.exp), Units(lay, a, a.exp);
    SignedUnits(lay, b, a.exp);
    SignedUnits(lay, a, a.exp);
    PowZero();
    DigitsTimesPow10(Mag(lay, b), b.exp - a.exp);
    FarApart(x, y, lay.MaxDigits());
    CloseScaled(x, x + y, lay.MaxDigits(), a.exp - lo);
    AddUp(x, y, Pow10(a.exp - lo));
  }

  lemma WrapBelow(x: int)
    requires x >= 0
    ensures Wrap32(x) <= x
  {
  }

  /** A signed sum of significands at one exponent, as a real before normalisation. */
  lemma ExactSum(lay: Layout, a: Real, b: Real, a1: Real, b1: Real, bn: Real, res: Outcome)
    requires lay.Valid() && WellFormed(lay, a) && WellFormed(lay, b) && WellFormed(lay, bn)
    requires (a1 == a || ScaledTo(lay, a, b.exp, a1)) && (b1 == b || ScaledTo(lay, b, a.exp, b1))
    requires WellFormed(lay, a1) && WellFormed(lay, b1) && bn.exp == a1.exp == b1.exp
    requires Signed(lay, bn) == Signed(lay, a1) + Signed(lay, b1)
    requires NormalisedTo(lay, bn, res) && res.Ok?
    ensures Normal(lay, res.r) && SumClose(lay, a, b, res.r)
  {
    hide Nat;
    NormalisedIsNormal(lay, bn, res);
    forall lo | lo <= a.exp && lo <= b.exp && lo <= res.r.exp
      ensures Close(Units(lay, res.r, lo), Units(lay, a, lo) + Units(lay, b, lo), lay.MaxDigits())
    {
      hide Close, NormalisedTo;
      if a1 != a {
        ScaledSame(lay, a, b.exp, a1, lo);
      }
      if b1 != b {
        ScaledSame(lay, b, a.exp, b1, lo);
      }
      AddUp(Signed(lay, a1), Signed(lay, b1), Pow10(bn.exp - lo));
      NormalisedClose(lay, bn, res, lo);
    }
  }

  lemma AddUp(x: int, y: int, p: int)
    ensures (x + y) * p == x * p + y * p
  {
  }

  /** The significand as a signed integer. */
  method SignedSig(lay: Layout, r: Real) returns (i: seq<int>)
    requires lay.Valid() && WellFormed(lay, r)
    ensures Int(lay, i) && Val(lay, i) == Signed(lay, r)
  {
    BaseFacts(lay);
    ValueSign(r.sig, lay.Base());
    ZeroIs(lay, r);
    i := if NegativeP(r) then Negate(r.sig) else r.sig;
  }

  lemma SumReal(lay: Layout, i: seq<int>, exp: int, bn: Real)
    requires lay.Valid() && Int(lay, i) && BE_MIN <= exp <= BE_MAX
    requires bn == Real(Negative(i), false, exp, Abs(i))
    ensures WellFormed(lay, bn) && Signed(lay, bn) == Val(lay, i)
  {
    BaseFacts(lay);
    ValueSign(i, lay.Base());
  }

  function RealAbs(r: Real): Real {
    if NegativeP(r) then r.(neg := false) else r
  }

  /** The numbers cannot be scaled to one exponent within twice MAX_DIGITS digits. */
  ghost predicate TooFar(lay: Layout, a: Real, b: Real)
    requires lay.Valid() && Normal(lay, a) && Normal(lay, b)
  {
    || (a.exp < b.exp && NoRoom(Digits(Mag(lay, b)), b.exp, a.exp, 2 * lay.MaxDigits()))
    || (b.exp < a.exp && NoRoom(Digits(Mag(lay, a)), a.exp, b.exp, 2 * lay.MaxDigits()))
  }

  /** A number of that many units of 10^lo has an exponent too large once it is normalised. */
  ghost predicate TooLarge(lay: Layout, units: int, lo: int) {
    units != 0 && lo + Dropped(IntAbs(units), lay.MaxDigits()) > BE_MAX
  }

  lemma SumOverflows(lay: Layout, a: Real, b: Real, a1: Real, b1: Real, bn: Real)
    requires lay.Valid() && Normal(lay, a) && Normal(lay, b) && WellFormed(lay, bn)
    requires (a1 == a || ScaledTo(lay, a, b.exp, a1)) && (b1 == b || ScaledTo(lay, b, a.exp, b1))
    requires WellFormed(lay, a1) && WellFormed(lay, b1) && bn.exp == a1.exp == b1.exp == Min(a.exp, b.exp)
    requires Signed(lay, bn) == Signed(lay, a1) + Signed(lay, b1)
    ensures var lo := Min(a.exp, b.exp);
      Mag(lay, bn) == IntAbs(Units(lay, a, lo) + Units(lay, b, lo))
  {
    hide Nat, ScaledTo, Digits;
    var lo := Min(a.exp, b.exp);
    if a1 != a {
      ScaledSame(lay, a, b.exp, a1, lo);
    }
    if b1 != b {
      ScaledSame(lay, b, a.exp, b1, lo);
    }
    assert Pow10(0) == 1;
  }

  /** A computed sum counts as exact; where an operand is returned, it keeps its own exactness. */
  ghost function SumInexact(lay: Layout, a: Real, b: Real): bool
    requires lay.Valid() && Normal(lay, a) && Normal(lay, b)
  {
    if Mag(lay, a) == 0 then b.inexact
    else if Mag(lay, b) == 0 then a.inexact
    else TooFar(lay, a, b) && if a.exp < b.exp then b.inexact else a.inexact
  }

  /** What adding promises: nearness, exactness, the operand returned when the two are far apart, and when it fails. */
  ghost predicate SumOf(lay: Layout, a: Real, b: Real, res: Outcome, far: bool)
    requires lay.Valid() && Normal(lay, a) && Normal(lay, b)
  {
    && (res.Ok? || res.ExponentOverflow?)
    && (far <==> Mag(lay, a) > 0 && Mag(lay, b) > 0 && TooFar(lay, a, b))
    && (far ==> res == Ok(if a.exp < b.exp then b else a))
    && (var lo := Min(a.exp, b.exp);
        res.ExponentOverflow? <==>
        Mag(lay, a) > 0 && Mag(lay, b) > 0 && !TooFar(lay, a, b) && TooLarge(lay, Units(lay, a, lo) + Units(lay, b, lo), lo))
    && (res.Ok? ==> Normal(lay, res.r) && SumClose(lay, a, b, res.r) && res.r.inexact == SumInexact(lay, a, b))
  }

  method RealAdd(lay: Layout, a: Real, b: Real) returns (res: Outcome, far: bool)
    requires lay.Valid() && Normal(lay, a) && Normal(lay, b)
    ensures SumOf(lay, a, b, res, far)
  {
    hide Nat, Digits, Pow10, SumClose, ScaledTo, NormalisedTo, NoRoom;
    ZeroIs(lay, a);
    ZeroIs(lay, b);
    if ZeroP(a) {
      SumWithZero(lay, a, b);
      return Ok(b), false;
    }
    if ZeroP(b) {
      SumWithZero(lay, b, a);
      return Ok(a), false;
    }
    var a1, b1 := Some(a), Some(b);
    if a.exp < b.exp {
      b1 := ScaleSignificand(lay, b, a.exp, 2 * lay.MaxDigits());
      if b1.Some? {
        ScaledExp(lay, b, a.exp, b1.value);
      }
    } else if a.exp > b.exp {
      a1 := ScaleSignificand(lay, a, b.exp, 2 * lay.MaxDigits());
      if a1.Some? {
        ScaledExp(lay, a, b.exp, a1.value);
      }
    }
    if a1.None? || b1.None? {
      res := ReturnLarger(lay, a, b);
      return res, true;
    }
    far := false;
    var x := SignedSig(lay, a1.value);
    var y := SignedSig(lay, b1.value);
    var i := Add(lay, x, y);
    var bn := Real(Negative(i), false, a1.value.exp, Abs(i));
    SumReal(lay, i, a1.value.exp, bn);
    res := Normalize(lay, bn);
    NormalisedWhich(lay, bn, res);
    SumOverflows(lay, a, b, a1.value, b1.value, bn);
    if res.Ok? {
      ExactSum(lay, a, b, a1.value, b1.value, bn, res);
    }
  }

  lemma ScaledExp(lay: Layout, r: Real, desired: int, s: Real)
    requires lay.Valid() && WellFormed(lay, r) && ScaledTo(lay, r, desired, s)
    ensures WellFormed(lay, s) && s.exp == Min(r.exp, desired)
  {
  }

  lemma NormalisedWhich(lay: Layout, bn: Real, res: Outcome)
    requires lay.Valid() && WellFormed(lay, bn) && NormalisedTo(lay, bn, res)
    ensures res.Ok? || res.ExponentOverflow?
    ensures res.ExponentOverflow? <==> Mag(lay, bn) > 0 && bn.exp + Dropped(Mag(lay, bn), lay.MaxDigits()) > BE_MAX
    ensures res.Ok? ==> res.r.inexact == bn.inexact
  {
  }

  /** Too far apart to scale even within twice MAX_DIGITS. */
  method ReturnLarger(lay: Layout, a: Real, b: Real) returns (res: Outcome)
    requires lay.Valid() && Normal(lay, a) && Normal(lay, b) && Mag(lay, a) > 0 && Mag(lay, b) > 0
    requires TooFar(lay, a, b)
    ensures res == Ok(if a.exp < b.exp then b else a) && SumClose(lay, a, b, res.r)
  {
    hide Nat, Digits, SumClose, NoRoom, Pow10;
    ghost var lo := Min(a.exp, b.exp);
    var x, y := RealAbs(a), RealAbs(b);
    ZeroIs(lay, a);
    ZeroIs(lay, b);
    SignedUnits(lay, x, lo);
    SignedUnits(lay, y, lo);
    if a.exp < b.exp {
      LargerIsSum(lay, a, b);
      PointsOrder(Mag(lay, a), a.exp, Mag(lay, b), b.exp, lo);
    } else {
      LargerIsSum(lay, b, a);
      PointsOrder(Mag(lay, b), b.exp, Mag(lay, a), a.exp, lo);
    }
    var less := RealLess(lay, x, y);
    return Ok(if less then b else a);
  }

  function RealNegate(r: Real): Real {
    r.(neg := !NegativeP(r))
  }

  /** Subtraction is addition of the negation. */
  method RealSubtract(lay: Layout, a: Real, b: Real) returns (res: Outcome, far: bool)
    requires lay.Valid() && Normal(lay, a) && Normal(lay, b)
    ensures res.Ok? || res.ExponentOverflow?
    ensures far <==> Mag(lay, a) > 0 && Mag(lay, b) > 0 && TooFar(lay, a, b)
    ensures far ==> res == Ok(if a.exp < b.exp then RealNegate(b) else a)
    ensures var lo := Min(a.exp, b.exp);
      res.ExponentOverflow? <==>
        Mag(lay, a) > 0 && Mag(lay, b) > 0 && !TooFar(lay, a, b) && TooLarge(lay, Units(lay, a, lo) - Units(lay, b, lo), lo)
    ensures res.Ok? ==> Normal(lay, res.r) && res.r.inexact == SumInexact(lay, a, b)
    ensures res.Ok? ==> forall lo :: lo <= a.exp && lo <= b.exp && lo <= res.r.exp ==>
              Close(Units(lay, res.r, lo), Units(lay, a, lo) - Units(lay, b, lo), lay.MaxDigits())
  {
    hide Nat, Digits, Pow10, Close, Normal, TooFar, TooLarge, Units;
    Negated(lay, b);
    SameDistance(lay, a, b);
    res, far := RealAdd(lay, a, RealNegate(b));
  }

  /** A negated real is the same but for its sign. */
  lemma Negated(lay: Layout, b: Real)
    requires lay.Valid() && Normal(lay, b)
    ensures Normal(lay, RealNegate(b)) && Mag(lay, RealNegate(b)) == Mag(lay, b) && RealNegate(b).exp == b.exp
    ensures forall lo :: lo <= b.exp ==> Units(lay, RealNegate(b), lo) == 0 - Units(lay, b, lo)
  {
    hide Nat, Digits, Pow10;
    ZeroIs(lay, b);
    forall lo | lo <= b.exp
      ensures Units(lay, RealNegate(b), lo) == 0 - Units(lay, b, lo)
    {
      NegatedUnits(Signed(lay, b), Signed(lay, RealNegate(b)), Pow10(b.exp - lo));
    }
  }

  lemma SameDistance(lay: Layout, a: Real, b: Real)
    requires lay.Valid() && Normal(lay, a) && Normal(lay, b) && Normal(lay, RealNegate(b)) && Mag(lay, RealNegate(b)) == Mag(lay, b)
    ensures TooFar(lay, a, RealNegate(b)) <==> TooFar(lay, a, b)
  {
    hide Nat, Digits, NoRoom;
  }

  lemma NegatedUnits(x: int, y: int, p: int)
    requires y == -x
    ensures y * p == -(x * p)
  {
  }

  // ----- multiplication -----

  /** In every unit, r is within one unit of the MAX_DIGITS-th significant digit of the exact product. */
  ghost predicate ProductClose(lay: Layout, a: Real, b: Real, r: Real)
    requires lay.Valid() && WellFormed(lay, a) && WellFormed(lay, b) && WellFormed(lay, r)
  {
    forall lo :: lo <= a.exp + b.exp && lo <= r.exp ==>
                   Close(Units(lay, r, lo), Signed(lay, a) * Signed(lay, b) * Pow10(a.exp + b.exp - lo), lay.MaxDigits())
  }

  /** The tri-state guard before expa += expb: no 32-bit overflow can happen past it. */
  method GuardedSum(expa: int, expb: int) returns (exp: int, overflow: int)
    requires BE_MIN <= expa <= BE_MAX && BE_MIN <= expb <= BE_MAX
    ensures overflow == if expa + expb > BE_MAX then 1 else if expa + expb < BE_MIN then -1 else 0
    ensures overflow == 0 ==> exp == expa + expb
  {
    exp, overflow := expa, 0;
    if expb > 0 {
      if expa > 0 && expb > BE_MAX - expa {
        overflow := 1;
      } else {
        exp := Wrap32(expa + expb);
      }
    } else if expb < 0 {
      if expa < 0 && IntAbs(expb) > IntAbs(BE_MIN - expa) {
        overflow := -1;
      } else {
        exp := Wrap32(expa + expb);
      }
    }
  }

  lemma ProductSigns(x: nat, nx: bool, y: nat, ny: bool)
    ensures (if nx then 0 - x else x) * (if ny then 0 - y else y) == if nx != ny then 0 - x * y else x * y
  {
    assert (0 - x) * y == 0 - x * y && x * (0 - y) == 0 - x * y && (0 - x) * (0 - y) == x * y;
  }

  /** The exact product, as a real before normalisation. */
  lemma ExactProduct(lay: Layout, a: Real, b: Real, bn: Real, res: Outcome)
    requires lay.Valid() && WellFormed(lay, a) && WellFormed(lay, b) && WellFormed(lay, bn)
    requires bn.exp == a.exp + b.exp && Signed(lay, bn) == Signed(lay, a) * Signed(lay, b)
    requires NormalisedTo(lay, bn, res) && res.Ok?
    ensures Normal(lay, res.r) && ProductClose(lay, a, b, res.r)
  {
    hide Nat, NormalisedTo;
    NormalisedIsNormal(lay, bn, res);
    forall lo | lo <= a.exp + b.exp && lo <= res.r.exp
      ensures Close(Units(lay, res.r, lo), Signed(lay, a) * Signed(lay, b) * Pow10(a.exp + b.exp - lo), lay.MaxDigits())
    {
      hide Close;
      NormalisedClose(lay, bn, res, lo);
    }
  }

  lemma ZeroProduct(lay: Layout, a: Real, b: Real, z: Real)
    requires lay.Valid() && Normal(lay, a) && Normal(lay, b) && Mag(lay, a) * Mag(lay, b) == 0
    requires Normal(lay, z) && Mag(lay, z) == 0
    ensures ProductClose(lay, a, b, z)
  {
    hide Nat;
    assert Signed(lay, a) * Signed(lay, b) == 0;
    forall lo | lo <= a.exp + b.exp && lo <= z.exp
      ensures Close(Units(lay, z, lo), Signed(lay, a) * Signed(lay, b) * Pow10(a.exp + b.exp - lo), lay.MaxDigits())
    {
      hide Close;
      SignedUnits(lay, z, lo);
      CloseSelf(0, lay.MaxDigits());
    }
  }

  /** What multiplying promises. */
  ghost predicate ProductOf(lay: Layout, a: Real, b: Real, res: Outcome)
    requires lay.Valid() && Normal(lay, a) && Normal(lay, b)
  {
    && (!res.NotANumber?)
    && (res.ExponentUnderflow? <==> Mag(lay, a) > 0 && Mag(lay, b) > 0 && a.exp + b.exp < BE_MIN)
    && (res.ExponentOverflow? <==>
        Mag(lay, a) > 0 && Mag(lay, b) > 0 && a.exp + b.exp >= BE_MIN && TooLarge(lay, Mag(lay, a) * Mag(lay, b), a.exp + b.exp))
    && (res.Ok? ==> Normal(lay, res.r) && ProductClose(lay, a, b, res.r))
    && (res.Ok? ==> res.r.inexact == if Mag(lay, a) == 0 then a.inexact else Mag(lay, b) == 0 && b.inexact)
  }

  method RealMultiply(lay: Layout, a: Real, b: Real) returns (res: Outcome)
    requires lay.Valid() && Normal(lay, a) && Normal(lay, b)
    ensures ProductOf(lay, a, b, res)
  {
    hide Nat, Digits, Pow10, ProductClose, NormalisedTo, Wrap32;
    ZeroIs(lay, a);
    ZeroIs(lay, b);
    if ZeroP(a) {
      ZeroProduct(lay, a, b, a);
      return Ok(a);
    }
    if ZeroP(b) {
      ZeroProduct(lay, a, b, b);
      return Ok(b);
    }
    var neg := NegativeP(a) != NegativeP(b);
    var exp, overflow := GuardedSum(a.exp, b.exp);
    if overflow == -1 {
      return ExponentUnderflow;
    } else if overflow == 1 {
      return ExponentOverflow;
    }
    SigIsInt(lay, a);
    SigIsInt(lay, b);
    var i := Multiply(lay, a.sig, b.sig);
    var bn := Real(neg, false, exp, i);
    IntIsSig(lay, i, bn, Mag(lay, a), Mag(lay, b));
    ProductSigns(Mag(lay, a), a.neg, Mag(lay, b), b.neg);
    res := Normalize(lay, bn);
    NormalisedWhich(lay, bn, res);
    if res.Ok? {
      ExactProduct(lay, a, b, bn, res);
    }
  }

  lemma SigIsInt(lay: Layout, r: Real)
    requires lay.Valid() && CanonicalNat(r.sig, lay.Base())
    ensures Int(lay, r.sig) && Val(lay, r.sig) == Mag(lay, r)
  {
  }

  lemma IntIsSig(lay: Layout, i: seq<int>, bn: Real, x: nat, y: nat)
    requires lay.Valid() && Int(lay, i) && Val(lay, i) == x * y && bn.sig == i
    ensures CanonicalNat(i, lay.Base()) && Mag(lay, bn) == x * y
  {
    assert x * y >= 0;
    BaseFacts(lay);
    ValueSign(i, lay.Base());
  }
}
