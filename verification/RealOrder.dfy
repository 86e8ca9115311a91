/** Normal forms of reals: what normalisation guarantees, uniqueness, equality and order. */
module RealOrder {
  import opened Decimal
  import opened Layouts
  import opened Segments
  import opened Integers
  import opened LongArithmetic
  import opened Rounding
  import opened Reals
  import opened Options

  /** Counting in a smaller unit multiplies the count. */
  lemma UnitsLower(lay: Layout, r: Real, lo: int, lo1: int)
    requires lay.Valid() && CanonicalNat(r.sig, lay.Base()) && lo1 <= lo <= r.exp
    ensures Units(lay, r, lo1) == Units(lay, r, lo) * Pow10(lo - lo1)
  {
    hide Nat;
    Pow10Add(r.exp - lo, lo - lo1);
    Associate(Signed(lay, r), Pow10(r.exp - lo), Pow10(lo - lo1));
  }

  ghost predicate SameValue(lay: Layout, a: Real, b: Real)
    requires lay.Valid() && WellFormed(lay, a) && WellFormed(lay, b)
  {
    var lo := Min(a.exp, b.exp);
    Units(lay, a, lo) == Units(lay, b, lo)
  }

  ghost predicate Less(lay: Layout, a: Real, b: Real)
    requires lay.Valid() && WellFormed(lay, a) && WellFormed(lay, b)
  {
    var lo := Min(a.exp, b.exp);
    Units(lay, a, lo) < Units(lay, b, lo)
  }

  lemma OrderScaled(x: int, y: int, p: int)
    requires p > 0
    ensures x < y <==> x * p < y * p
    ensures x == y <==> x * p == y * p
  {
    if x < y {
      MulLess(x, y, p);
    } else if y < x {
      MulLess(y, x, p);
    }
  }

  /** Order and equality of values are the same in every unit. */
  lemma OrderInAnyUnit(lay: Layout, a: Real, b: Real, lo: int)
    requires lay.Valid() && WellFormed(lay, a) && WellFormed(lay, b) && lo <= a.exp && lo <= b.exp
    ensures Less(lay, a, b) <==> Units(lay, a, lo) < Units(lay, b, lo)
    ensures SameValue(lay, a, b) <==> Units(lay, a, lo) == Units(lay, b, lo)
  {
    hide Units, Pow10;
    var m := Min(a.exp, b.exp);
    UnitsLower(lay, a, m, lo);
    UnitsLower(lay, b, m, lo);
    OrderScaled(Units(lay, a, m), Units(lay, b, m), Pow10(m - lo));
  }

  // ----- normalisation -----

  lemma CloseInUnits(x: nat, l: nat, k: nat, e: nat, max: nat)
    requires max >= 1 && Close(l * Pow10(k), x, max)
    ensures Close(l * Pow10(k + e), x * Pow10(e), max)
    ensures Close(-(l * Pow10(k + e)), -(x * Pow10(e)), max)
  {
    hide Close, Pow10;
    CloseScaled(l * Pow10(k), x, max, e);
    Pow10Add(k, e);
    Associate(l, Pow10(k), Pow10(e));
    CloseNegated(l * Pow10(k + e), x * Pow10(e), max);
  }

  /**
    Normalisation yields a Normal real that truncates the number towards zero, losing less than
    one unit of its MAX_DIGITS-th significant digit.
   */
  lemma NormalisedIsNormal(lay: Layout, bn: Real, res: Outcome)
    requires lay.Valid() && WellFormed(lay, bn) && NormalisedTo(lay, bn, res) && res.Ok?
    ensures Normal(lay, res.r)
    ensures Mag(lay, bn) == 0 <==> Mag(lay, res.r) == 0
    ensures Mag(lay, bn) > 0 ==>
              && res.r.exp >= bn.exp
              && Mag(lay, res.r) * Pow10(res.r.exp - bn.exp) <= Mag(lay, bn)
              && Mag(lay, bn) < Mag(lay, res.r) * Pow10(res.r.exp - bn.exp) + Pow10(Excess(Mag(lay, bn), lay.MaxDigits()))
  {
    hide Nat, Pow10, Digits, Zeros;
    BaseFacts(lay);
    var x := Mag(lay, bn);
    if x > 0 {
      DroppedFacts(x, lay.MaxDigits());
    } else {
      ZeroNormal(lay.MaxDigits());
    }
  }

  lemma ZeroNormal(max: nat)
    requires max >= 1
    ensures Digits(0) <= max && Dropped(0, max) == 0 && Lead(0, 0) == 0
  {
  }

  lemma NormalisedClose(lay: Layout, bn: Real, res: Outcome, lo: int)
    requires lay.Valid() && WellFormed(lay, bn) && NormalisedTo(lay, bn, res) && res.Ok?
    requires lo <= bn.exp && lo <= res.r.exp
    ensures Close(Units(lay, res.r, lo), Units(lay, bn, lo), lay.MaxDigits())
  {
    hide Nat, Pow10, Digits;
    NormalisedIsNormal(lay, bn, res);
    BaseFacts(lay);
    var x, max := Mag(lay, bn), lay.MaxDigits();
    if x > 0 {
      var k := res.r.exp - bn.exp;
      CloseInUnits(x, Mag(lay, res.r), k, bn.exp - lo, max);
    }
    SignedUnits(lay, bn, lo);
    SignedUnits(lay, res.r, lo);
  }

  /** Normalising a Normal real gives it back. */
  lemma NormaliseIdempotent(lay: Layout, r: Real, res: Outcome)
    requires lay.Valid() && Normal(lay, r) && NormalisedTo(lay, r, res)
    ensures res == Ok(r)
  {
    BaseFacts(lay);
    DroppedNone(Mag(lay, r), lay.MaxDigits());
    CanonicalNatUnique(res.r.sig, r.sig, lay.Base());
  }

  // ----- uniqueness and equality -----

  lemma TrailingZero(m: int, n: int, k: nat)
    requires m * Pow10(k) == n && n % 10 != 0
    ensures k == 0
  {
    if k > 0 {
      TenTimes(m, Pow10(k - 1));
    }
  }

  /** Equal magnitudes without trailing zeroes sit at equal exponents. */
  lemma SameMagnitude(ma: nat, ea: int, mb: nat, eb: int, lo: int)
    requires lo <= ea && lo <= eb && ma % 10 != 0 && mb % 10 != 0
    requires ma * Pow10(ea - lo) == mb * Pow10(eb - lo)
    ensures ea == eb && ma == mb
  {
    hide Pow10;
    var m := Min(ea, eb);
    Pow10Add(ea - m, m - lo);
    Pow10Add(eb - m, m - lo);
    Associate(ma, Pow10(ea - m), Pow10(m - lo));
    Associate(mb, Pow10(eb - m), Pow10(m - lo));
    OrderScaled(ma * Pow10(ea - m), mb * Pow10(eb - m), Pow10(m - lo));
    PowZero();
    if ea >= eb {
      TrailingZero(ma, mb, ea - eb);
    } else {
      TrailingZero(mb, ma, eb - ea);
    }
  }

  lemma PowZero()
    ensures Pow10(0) == 1
  {
  }

  lemma SignedUnits(lay: Layout, r: Real, lo: int)
    requires lay.Valid() && CanonicalNat(r.sig, lay.Base()) && lo <= r.exp
    ensures Units(lay, r, lo) == if r.neg then -(Mag(lay, r) * Pow10(r.exp - lo)) else Mag(lay, r) * Pow10(r.exp - lo)
    ensures Mag(lay, r) > 0 ==> Mag(lay, r) * Pow10(r.exp - lo) > 0
    ensures Mag(lay, r) == 0 ==> Units(lay, r, lo) == 0
  {
    var m, p := Mag(lay, r), Pow10(r.exp - lo);
    assert (0 - m) * p == -(m * p);
    MulMono(p, 1, if m > 0 then m else 1);
  }

  /** Normal forms are unique: the same value means the same exponent, segments and sign. */
  lemma NormalUnique(lay: Layout, a: Real, b: Real)
    requires lay.Valid() && Normal(lay, a) && Normal(lay, b)
    ensures SameValue(lay, a, b) <==> a.exp == b.exp && a.sig == b.sig && NegativeP(a) == NegativeP(b)
  {
    hide Nat, Pow10, Digits;
    BaseFacts(lay);
    ZeroIs(lay, a);
    ZeroIs(lay, b);
    var lo := Min(a.exp, b.exp);
    SignedUnits(lay, a, lo);
    SignedUnits(lay, b, lo);
    if SameValue(lay, a, b) {
      if Mag(lay, a) == 0 || Mag(lay, b) == 0 {
        assert Mag(lay, a) == Mag(lay, b);
      } else {
        SameMagnitude(Mag(lay, a), a.exp, Mag(lay, b), b.exp, lo);
      }
      CanonicalNatUnique(a.sig, b.sig, lay.Base());
    }
  }

  /** real_equal_p on reals: same value and same exactness. */
  method RealEqual(lay: Layout, a: Real, b: Real) returns (eq: bool)
    requires lay.Valid() && Normal(lay, a) && Normal(lay, b)
    ensures eq <==> SameValue(lay, a, b) && a.inexact == b.inexact
  {
    hide SameValue;
    NormalUnique(lay, a, b);
    if a.inexact != b.inexact {
      return false;
    }
    if a.exp != b.exp {
      return false;
    }
    if ZeroP(a) && ZeroP(b) {
      assert a.sig == b.sig;
      return true;
    }
    if NegativeP(a) != NegativeP(b) {
      return false;
    }
    if |a.sig| != |b.sig| {
      return false;
    }
    var k := DifferAt(a.sig, b.sig);
    if k < 0 {
      assert a.sig == b.sig;
      return true;
    }
    return false;
  }

  // ----- scaling -----

  /** Two's-complement reduction of an exponent computation to 32 bits. */
  function Wrap32(x: int): (r: int)
    ensures -0x8000_0000 <= r < 0x8000_0000 && (x - r) % 0x1_0000_0000 == 0
  {
    (x + 0x8000_0000) % 0x1_0000_0000 - 0x8000_0000
  }

  /** The test by which scaling refuses: not enough room for the extra digits. */
  ghost predicate NoRoom(digits: nat, exp: int, desired: int, max: int) {
    max - digits < Wrap32(exp - desired)
  }

  ghost predicate ScaledTo(lay: Layout, r: Real, desired: int, s: Real)
    requires lay.Valid() && WellFormed(lay, r)
  {
    && WellFormed(lay, s) && s.neg == r.neg && s.inexact == r.inexact
    && s.exp == Min(r.exp, desired)
    && Mag(lay, s) == Mag(lay, r) * Pow10(r.exp - s.exp)
  }

  method ScaleSignificand(lay: Layout, bn: Real, desired: int, max: int) returns (res: Option<Real>)
    requires lay.Valid() && WellFormed(lay, bn) && BE_MIN <= desired <= BE_MAX
    ensures res.None? <==> NoRoom(Digits(Mag(lay, bn)), bn.exp, desired, max)
    ensures res.Some? ==> ScaledTo(lay, bn, desired, res.value)
  {
    hide Nat, Digits, Wrap32;
    BaseFacts(lay);
    NatNonNegative(bn.sig, lay.Base());
    var digits := CountDigits(lay, bn.sig);
    if max - digits < Wrap32(bn.exp - desired) {
      return None;
    }
    var s, exp := bn.sig, bn.exp;
    while exp > desired
      invariant Min(bn.exp, desired) <= exp <= bn.exp && CanonicalNat(s, lay.Base())
      invariant Nat(s, lay.Base()) == Mag(lay, bn) * Pow10(bn.exp - exp)
    {
      s := ShiftLeft(lay, s, 0);
      TenTimes(Mag(lay, bn), Pow10(bn.exp - exp));
      exp := exp - 1;
    }
    res := Some(Real(bn.neg, bn.inexact, exp, s));
  }

  lemma ScaledSame(lay: Layout, r: Real, desired: int, s: Real, lo: int)
    requires lay.Valid() && WellFormed(lay, r) && ScaledTo(lay, r, desired, s) && lo <= s.exp
    ensures Units(lay, s, lo) == Units(lay, r, lo)
  {
    hide Nat, Pow10;
    SignedUnits(lay, r, lo);
    SignedUnits(lay, s, lo);
    Pow10Add(r.exp - s.exp, s.exp - lo);
    Associate(Mag(lay, r), Pow10(r.exp - s.exp), Pow10(s.exp - lo));
  }

  // ----- order -----

  /** A decimal point further to the right means a larger magnitude. */
  lemma PointsOrder(ma: nat, ea: int, mb: nat, eb: int, lo: int)
    requires lo <= ea && lo <= eb && ma > 0 && mb > 0
    requires Digits(ma) + ea < Digits(mb) + eb
    ensures ma * Pow10(ea - lo) < mb * Pow10(eb - lo)
  {
    hide Digits, Pow10;
    DigitsTimesPow10(ma, ea - lo);
    DigitsTimesPow10(mb, eb - lo);
    if mb * Pow10(eb - lo) <= ma * Pow10(ea - lo) {
      DigitsMono(mb * Pow10(eb - lo), ma * Pow10(ea - lo));
    }
  }

  lemma TopDigits(lay: Layout, s: seq<int>)
    requires lay.Valid() && CanonicalNat(s, lay.Base()) && Nat(s, lay.Base()) > 0
    ensures (|s| - 1) * lay.dpw < Digits(Nat(s, lay.Base())) <= |s| * lay.dpw
  {
    hide Nat, Digits, Pow10;
    BaseFacts(lay);
    ValueSign(s, lay.Base());
    DigitsOfSegments(s, lay.dpw);
    var top := s[|s| - 1];
    DigitsBounds(top);
    if Digits(top) > lay.dpw {
      Pow10Mono(lay.dpw, Digits(top) - 1);
    }
    assert (|s| - 1) * lay.dpw == |s| * lay.dpw - lay.dpw;
  }

  /** Equal digit counts force equal segment counts. */
  lemma EqualDigitsEqualSegments(lay: Layout, s: seq<int>, t: seq<int>)
    requires lay.Valid() && CanonicalNat(s, lay.Base()) && CanonicalNat(t, lay.Base())
    requires Nat(s, lay.Base()) > 0 && Nat(t, lay.Base()) > 0
    requires Digits(Nat(s, lay.Base())) == Digits(Nat(t, lay.Base()))
    ensures |s| == |t|
  {
    hide Nat, Digits, CanonicalNat;
    TopDigits(lay, s);
    TopDigits(lay, t);
    if |s| < |t| {
      MulMono(lay.dpw, |s|, |t| - 1);
    } else if |t| < |s| {
      MulMono(lay.dpw, |t|, |s| - 1);
    }
  }

  lemma WrapSmall(x: int)
    requires BE_MIN <= x <= BE_MAX
    ensures Wrap32(x) == x
  {
  }

  /** With decimal points aligned there is always room to scale within MAX_DIGITS. */
  lemma AlignedPointsHaveRoom(da: nat, ea: int, db: nat, eb: int, max: nat)
    requires 1 <= da <= max && 1 <= db <= max <= 0x7FFF_FFFF && da + ea == db + eb && ea < eb
    ensures !NoRoom(db, eb, ea, max)
  {
    WrapSmall(eb - ea);
  }

  /** What scaling one of two aligned numbers to the other's exponent leads to. */
  lemma AlignedScaled(lay: Layout, a: Real, b: Real, s: Real)
    requires lay.Valid() && WellFormed(lay, a) && WellFormed(lay, b) && Mag(lay, a) > 0 && Mag(lay, b) > 0
    requires Digits(Mag(lay, a)) + a.exp == Digits(Mag(lay, b)) + b.exp && a.exp <= b.exp
    requires ScaledTo(lay, b, a.exp, s)
    ensures s.exp == a.exp && |s.sig| == |a.sig| && Mag(lay, s) > 0
    ensures SameValue(lay, b, s)
  {
    hide Nat, Digits, Pow10, Units;
    DigitsTimesPow10(Mag(lay, b), b.exp - a.exp);
    EqualDigitsEqualSegments(lay, a.sig, s.sig);
    ScaledSame(lay, b, a.exp, s, Min(b.exp, s.exp));
  }

  /** Numbers at one exponent with one sign are ordered by their significands. */
  lemma SameExponentOrder(lay: Layout, a: Real, b: Real)
    requires lay.Valid() && WellFormed(lay, a) && WellFormed(lay, b) && a.exp == b.exp && a.neg == b.neg
    ensures Less(lay, a, b) <==> if a.neg then Mag(lay, b) < Mag(lay, a) else Mag(lay, a) < Mag(lay, b)
  {
    hide Nat;
    PowZero();
  }

  method RealLess(lay: Layout, a: Real, b: Real) returns (lt: bool)
    requires lay.Valid() && Normal(lay, a) && Normal(lay, b)
    ensures lt <==> Less(lay, a, b)
  {
    hide Nat, Digits, Units, Pow10, ScaledTo, NoRoom;
    ZeroIs(lay, a);
    ZeroIs(lay, b);
    ghost var lo := Min(a.exp, b.exp);
    SignedUnits(lay, a, lo);
    SignedUnits(lay, b, lo);
    var na, nb := NegativeP(a), NegativeP(b);
    if na && !nb {
      return true;
    }
    if nb && !na {
      return false;
    }
    if !na && ZeroP(b) {
      return false;
    }
    if ZeroP(a) && !nb {
      return true;
    }
    var da := CountDigits(lay, a.sig);
    var db := CountDigits(lay, b.sig);
    if da + a.exp < db + b.exp {
      PointsOrder(Mag(lay, a), a.exp, Mag(lay, b), b.exp, lo);
      return !na;
    }
    if da + a.exp > db + b.exp {
      PointsOrder(Mag(lay, b), b.exp, Mag(lay, a), a.exp, lo);
      return na;
    }
    lt := AlignedLess(lay, a, b, na);
  }

  /** The last part of real_lt_p: decimal points aligned, so scale to one exponent and compare. */
  method AlignedLess(lay: Layout, a: Real, b: Real, na: bool) returns (lt: bool)
    requires lay.Valid() && Normal(lay, a) && Normal(lay, b)
    requires Mag(lay, a) > 0 && Mag(lay, b) > 0 && na == a.neg == b.neg
    requires Digits(Mag(lay, a)) + a.exp == Digits(Mag(lay, b)) + b.exp
    ensures lt <==> Less(lay, a, b)
  {
    hide Nat, Digits, Units, Pow10, ScaledTo, NoRoom, Less, SameValue;
    var rb := b;
    if a.exp < b.exp {
      AlignedPointsHaveRoom(Digits(Mag(lay, a)), a.exp, Digits(Mag(lay, b)), b.exp, lay.MaxDigits());
      var scaled := ScaleSignificand(lay, b, a.exp, lay.MaxDigits());
      rb := scaled.value;
      AlignedScaled(lay, a, b, rb);
      ScaledFlags(lay, b, a.exp, rb);
      LessSame(lay, a, b, a, rb);
    }
    var ra := a;
    if a.exp > rb.exp {
      AlignedPointsHaveRoom(Digits(Mag(lay, b)), b.exp, Digits(Mag(lay, a)), a.exp, lay.MaxDigits());
      var scaled := ScaleSignificand(lay, a, b.exp, lay.MaxDigits());
      ra := scaled.value;
      AlignedScaled(lay, b, a, ra);
      ScaledFlags(lay, a, b.exp, ra);
      LessSame(lay, a, b, ra, b);
    }
    if a.exp == b.exp {
      EqualDigitsEqualSegments(lay, a.sig, b.sig);
    }
    // The branches for unequal segment counts are never taken.
    assert |ra.sig| == |rb.sig| && ra.exp == rb.exp;
    SameExponentOrder(lay, ra, rb);
    var less, more := LessMagnitude(lay, ra.sig, rb.sig);
    lt := if na then more else less;
  }

  lemma ScaledFlags(lay: Layout, r: Real, desired: int, s: Real)
    requires lay.Valid() && WellFormed(lay, r) && ScaledTo(lay, r, desired, s)
    ensures WellFormed(lay, s) && s.neg == r.neg
  {
  }

  lemma LessSame(lay: Layout, a: Real, b: Real, a1: Real, b1: Real)
    requires lay.Valid() && WellFormed(lay, a) && WellFormed(lay, b) && WellFormed(lay, a1) && WellFormed(lay, b1)
    requires a1 == a || SameValue(lay, a, a1)
    requires b1 == b || SameValue(lay, b, b1)
    ensures Less(lay, a, b) <==> Less(lay, a1, b1)
  {
    hide Units, Less, SameValue;
    var lo := Min(Min(a.exp, b.exp), Min(a1.exp, b1.exp));
    OrderInAnyUnit(lay, a, b, lo);
    OrderInAnyUnit(lay, a1, b1, lo);
    OrderInAnyUnit(lay, a, a1, lo);
    OrderInAnyUnit(lay, b, b1, lo);
  }
}
