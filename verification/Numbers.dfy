/** Integers and reals together: an integer that meets a real is converted, which may cost it digits. */
module Numbers {

  import opened Decimal
  import opened Layouts
  import opened Segments
  import opened Integers
  import opened LongArithmetic
  import opened Rounding
  import opened Reals
  import opened RealOrder
  import opened RealArithmetic
  import opened RealDivision

  datatype Number = Whole(a: seq<int>) | Fractional(r: Real)

  // Conversion

  /** The integer as a real with all its digits. */
  function Unrounded(a: seq<int>): Real
    requires |a| >= 1
  {
    Real(Negative(a), false, 0, Abs(a))
  }

  /** A number as the operations get it; an integer's digits can be counted by an exponent. */
  ghost predicate Operand(lay: Layout, x: Number)
    requires lay.Valid()
  {
    match x
    case Whole(a) => Int(lay, a) && Digits(Mag(lay, Unrounded(a))) <= BE_MAX
    case Fractional(r) => Normal(lay, r)
  }

  /** The real that x is converted to. */
  ghost predicate StandsFor(lay: Layout, x: Number, r: Real)
    requires lay.Valid() && Operand(lay, x)
  {
    && Normal(lay, r)
    && match x
       case Whole(a) => NormalisedTo(lay, Unrounded(a), Ok(r))
       case Fractional(q) => r == q
  }

  /** First the digits beyond MAX_DIGITS go, then normalising does the rest, as if it had done all of it. */
  lemma CutThenNormal(x: nat, max: nat)
    requires max >= 1
    ensures var e := Excess(x, max);
      && Dropped(x, max) == e + Dropped(Lead(x, e), max)
      && Lead(x, Dropped(x, max)) == Lead(Lead(x, e), Dropped(Lead(x, e), max))
      && (x == 0 <==> Lead(x, e) == 0) && Dropped(x, max) <= Digits(x)
  {
    hide Lead, Zeros, Digits;
    var e := Excess(x, max);
    if x == 0 {
      SmallExcess(x, max);
    } else {
      DroppedFacts(x, max);
      LeadDigits(x, e);
      LeadLead(x, e, Zeros(Lead(x, e)));
      LeadNone(Lead(x, e));
    }
  }

  method ToReal(lay: Layout, a: seq<int>) returns (r: Real)
    requires lay.Valid() && Operand(lay, Whole(a))
    ensures StandsFor(lay, Whole(a), r)
  {
    hide Nat, Pow10, Digits, Lead, Dropped;
    BaseFacts(lay);
    var s, exp := CutInteger(lay, Abs(a));
    ghost var x := Mag(lay, Unrounded(a));
    CutThenNormal(x, lay.MaxDigits());
    var bn := Real(Negative(a), false, exp, s);
    var res := Normalize(lay, bn);
    r := res.r;
    NormalisedIsNormal(lay, bn, res);
  }

  /** Only more segments than a significand has are looked at. */
  method CutInteger(lay: Layout, u: seq<int>) returns (s: seq<int>, exp: nat)
    requires lay.Valid() && CanonicalNat(u, lay.Base())
    ensures var x := Mag(lay, Real(false, false, 0, u));
      CanonicalNat(s, lay.Base()) && exp == Excess(x, lay.MaxDigits()) && Nat(s, lay.Base()) == Lead(x, exp)
  {
    hide Nat, Pow10, Digits;
    BaseFacts(lay);
    ghost var x, max := Mag(lay, Real(false, false, 0, u)), lay.MaxDigits();
    s, exp := u, 0;
    LeadNone(x);
    if |u| > lay.sigSegments {
      var digits := CountDigits(lay, s);
      while digits > lay.MaxDigits()
        invariant exp <= Excess(x, max) && digits == Digits(x) - exp
        invariant CanonicalNat(s, lay.Base()) && Nat(s, lay.Base()) == Lead(x, exp)
      {
        var t, d := ShiftRight(lay, s);
        LeadLead(x, exp, 1);
        NextLead(Lead(x, exp), Nat(t, lay.Base()), d);
        s, exp, digits := t, exp + 1, digits - 1;
      }
    } else {
      FewSegments(lay, u);
    }
  }

  lemma FewSegments(lay: Layout, u: seq<int>)
    requires lay.Valid() && CanonicalNat(u, lay.Base()) && |u| <= lay.sigSegments
    ensures Excess(Mag(lay, Real(false, false, 0, u)), lay.MaxDigits()) == 0
  {
    hide Nat, Pow10, Digits;
    BaseFacts(lay);
    var x := Mag(lay, Real(false, false, 0, u));
    if x > 0 {
      TopDigits(lay, u);
      MulMono(lay.dpw, |u|, lay.sigSegments);
    } else {
      SmallExcess(x, lay.MaxDigits());
    }
  }

  // What conversion costs

  lemma {:induction false} ZerosOf(x: nat, l: nat, k: nat)
    requires x > 0 && x == l * Pow10(k)
    ensures Zeros(x) >= k && Lead(x, k) == l
    decreases k
  {
    if k > 0 {
      TenTimes(l, Pow10(k - 1));
      ZerosOf(x / 10, l, k - 1);
    }
  }

  lemma {:induction false} ZerosLead(x: nat, k: nat)
    requires x > 0 && k <= Zeros(x)
    ensures Zeros(Lead(x, k)) == Zeros(x) - k
    decreases k
  {
    if k > 0 {
      ZerosLead(x / 10, k - 1);
    }
  }

  /** No digit but zeros beyond the MAX_DIGITS-th. */
  ghost predicate Fits(lay: Layout, a: seq<int>)
    requires lay.Valid() && Int(lay, a)
  {
    var x := Mag(lay, Unrounded(a));
    Excess(x, lay.MaxDigits()) <= Zeros(x)
  }

  lemma KeepsAll(x: nat, max: nat)
    requires max >= 1 && x > 0
    ensures Lead(x, Dropped(x, max)) * Pow10(Dropped(x, max)) == x <==> Excess(x, max) <= Zeros(x)
  {
    hide Lead, Zeros, Digits, Pow10;
    var k, e := Dropped(x, max), Excess(x, max);
    DroppedFacts(x, max);
    if Lead(x, k) * Pow10(k) == x {
      ZerosOf(x, Lead(x, k), k);
    }
    if e <= Zeros(x) {
      ZerosLead(x, e);
      ZerosExact(x);
    }
  }

  /** The converted integer has the integer's value exactly when no digit but zeros is lost. */
  lemma ConversionExact(lay: Layout, a: seq<int>, r: Real)
    requires lay.Valid() && Operand(lay, Whole(a)) && StandsFor(lay, Whole(a), r)
    ensures r.exp >= 0 && (Units(lay, r, 0) == Val(lay, a) <==> Fits(lay, a))
  {
    hide Nat, Lead, Zeros, Digits, Pow10, Dropped;
    BaseFacts(lay);
    ValueSign(a, lay.Base());
    var x := Mag(lay, Unrounded(a));
    SignedUnits(lay, r, 0);
    if x > 0 {
      DroppedFacts(x, lay.MaxDigits());
      KeepsAll(x, lay.MaxDigits());
    } else {
      SmallExcess(x, lay.MaxDigits());
      ZeroNormal(lay.MaxDigits());
    }
  }

  // The operations

  /** An operand as a real. */
  method Converted(lay: Layout, x: Number) returns (r: Real)
    requires lay.Valid() && Operand(lay, x)
    ensures StandsFor(lay, x, r)
  {
    if x.Whole? {
      r := ToReal(lay, x.a);
    } else {
      r := x.r;
    }
  }

  /** Conversion has one result. */
  lemma OneReal(lay: Layout, x: Number, r: Real, q: Real)
    requires lay.Valid() && Operand(lay, x) && StandsFor(lay, x, r) && StandsFor(lay, x, q)
    ensures r == q
  {
    hide Nat, Digits, Dropped, Lead;
    BaseFacts(lay);
    CanonicalNatUnique(r.sig, q.sig, lay.Base());
  }

  method NumberEqual(lay: Layout, x: Number, y: Number) returns (eq: bool)
    requires lay.Valid() && Operand(lay, x) && Operand(lay, y)
    ensures x.Whole? && y.Whole? ==> (eq <==> Val(lay, x.a) == Val(lay, y.a))
    ensures !(x.Whole? && y.Whole?) ==> forall r, q :: StandsFor(lay, x, r) && StandsFor(lay, y, q) ==>
      (eq <==> SameValue(lay, r, q) && r.inexact == q.inexact)
  {
    hide StandsFor, Operand, SameValue;
    if x.Whole? && y.Whole? {
      WholeIsInt(lay, x);
      WholeIsInt(lay, y);
      eq := EqualP(lay, x.a, y.a);
    } else {
      var a := Converted(lay, x);
      var b := Converted(lay, y);
      OnlyThese(lay, x, y, a, b);
      eq := RealEqual(lay, a, b);
    }
  }

  lemma WholeIsInt(lay: Layout, x: Number)
    requires lay.Valid() && Operand(lay, x)
    ensures x.Whole? ==> Int(lay, x.a)
    ensures forall r :: StandsFor(lay, x, r) ==> Normal(lay, r)
  {
  }

  lemma OnlyThese(lay: Layout, x: Number, y: Number, a: Real, b: Real)
    requires lay.Valid() && Operand(lay, x) && Operand(lay, y) && StandsFor(lay, x, a) && StandsFor(lay, y, b)
    ensures Normal(lay, a) && Normal(lay, b)
    ensures forall r :: StandsFor(lay, x, r) ==> r == a
    ensures forall q :: StandsFor(lay, y, q) ==> q == b
  {
    forall r | StandsFor(lay, x, r)
      ensures r == a
    {
      OneReal(lay, x, r, a);
    }
    forall q | StandsFor(lay, y, q)
      ensures q == b
    {
      OneReal(lay, y, q, b);
    }
  }

  method NumberLess(lay: Layout, x: Number, y: Number) returns (lt: bool)
    requires lay.Valid() && Operand(lay, x) && Operand(lay, y)
    ensures x.Whole? && y.Whole? ==> (lt <==> Val(lay, x.a) < Val(lay, y.a))
    ensures !(x.Whole? && y.Whole?) ==> forall r, q :: StandsFor(lay, x, r) && StandsFor(lay, y, q) ==> (lt <==> Less(lay, r, q))
  {
    hide StandsFor, Operand, Less;
    WholeIsInt(lay, x);
    WholeIsInt(lay, y);
    if x.Whole? && y.Whole? {
      lt := LessThan(lay, x.a, y.a);
    } else {
      var a := Converted(lay, x);
      var b := Converted(lay, y);
      OnlyThese(lay, x, y, a, b);
      lt := RealLess(lay, a, b);
    }
  }

  datatype Answer = Answer(n: Number) | Failure(error: Outcome)

  /** The answer is the real that came out, exact or not as that is, or the failure. */
  ghost predicate IsAnswer(ans: Answer, res: Outcome) {
    match res
    case Ok(r) => ans.Answer? && ans.n.Fractional? && ans.n.r.inexact == r.inexact && ans.n.r.neg == r.neg && ans.n.r.exp == r.exp && ans.n.r.sig == r.sig
    case ExponentOverflow => ans.Failure? && ans.error.ExponentOverflow?
    case ExponentUnderflow => ans.Failure? && ans.error.ExponentUnderflow?
    case NotANumber => ans.Failure? && ans.error.NotANumber?
  }

  function AsAnswer(res: Outcome): (ans: Answer)
    ensures IsAnswer(ans, res)
  {
    if res.Ok? then Answer(Fractional(res.r)) else Failure(res)
  }

  /** Two integers have an exact sum; operands too far apart give back the larger one, unconverted. */
  ghost predicate Added(lay: Layout, x: Number, y: Number, r: Real, q: Real, ans: Answer)
    requires lay.Valid() && Normal(lay, r) && Normal(lay, q)
  {
    exists res, far :: SumOf(lay, r, q, res, far) && if far then ans == Answer(if r.exp < q.exp then y else x) else IsAnswer(ans, res)
  }

  method NumberAdd(lay: Layout, x: Number, y: Number) returns (ans: Answer)
    requires lay.Valid() && Operand(lay, x) && Operand(lay, y)
    ensures x.Whole? && y.Whole? ==> ans.Answer? && ans.n.Whole? && Int(lay, ans.n.a) && Val(lay, ans.n.a) == Val(lay, x.a) + Val(lay, y.a)
    ensures !(x.Whole? && y.Whole?) ==> forall r, q :: StandsFor(lay, x, r) && StandsFor(lay, y, q) ==> Added(lay, x, y, r, q, ans)
  {
    hide StandsFor, Operand, SumOf;
    WholeIsInt(lay, x);
    WholeIsInt(lay, y);
    if x.Whole? && y.Whole? {
      var s := Add(lay, x.a, y.a);
      return Answer(Whole(s));
    }
    var a := Converted(lay, x);
    var b := Converted(lay, y);
    OnlyThese(lay, x, y, a, b);
    var res, far := RealAdd(lay, a, b);
    ans := if far then Answer(if a.exp < b.exp then y else x) else AsAnswer(res);
    assert Added(lay, x, y, a, b, ans);
  }

  function Negation(x: Number): Number
    requires x.Whole? ==> |x.a| >= 1
  {
    match x
    case Whole(a) => Whole(Negate(a))
    case Fractional(r) => Fractional(RealNegate(r))
  }

  /** The negation is an operand, and what it is converted to has the negated value. */
  lemma NegationStands(lay: Layout, x: Number, r: Real, q: Real)
    requires lay.Valid() && Operand(lay, x) && StandsFor(lay, x, r)
    ensures Operand(lay, Negation(x))
    ensures StandsFor(lay, Negation(x), q) ==> q.exp == r.exp && Mag(lay, q) == Mag(lay, r)
    ensures StandsFor(lay, Negation(x), q) ==> forall lo :: lo <= r.exp ==> Units(lay, q, lo) == 0 - Units(lay, r, lo)
  {
    hide Nat, Digits, Pow10, Lead, Dropped;
    BaseFacts(lay);
    ZeroIs(lay, r);
    if x.Whole? {
      ValueSign(x.a, lay.Base());
      ValueSign(Negate(x.a), lay.Base());
      NormalisedIsNormal(lay, Unrounded(x.a), Ok(r));
    } else {
      Negated(lay, x.r);
    }
    if StandsFor(lay, Negation(x), q) {
      forall lo | lo <= r.exp
        ensures Units(lay, q, lo) == 0 - Units(lay, r, lo)
      {
        SignedUnits(lay, r, lo);
        SignedUnits(lay, q, lo);
        assert Mag(lay, r) > 0 ==> q.neg != r.neg;
      }
    }
  }

  method NumberSubtract(lay: Layout, x: Number, y: Number) returns (ans: Answer)
    requires lay.Valid() && Operand(lay, x) && Operand(lay, y)
    ensures x.Whole? && y.Whole? ==> ans.Answer? && ans.n.Whole? && Int(lay, ans.n.a) && Val(lay, ans.n.a) == Val(lay, x.a) - Val(lay, y.a)
    ensures Operand(lay, Negation(y))
    ensures !(x.Whole? && y.Whole?) ==> forall r, q :: StandsFor(lay, x, r) && StandsFor(lay, Negation(y), q) ==>
      Added(lay, x, Negation(y), r, q, ans)
  {
    hide StandsFor, Operand, Added;
    WholeIsInt(lay, x);
    WholeIsInt(lay, y);
    var b := Converted(lay, y);
    NegationStands(lay, y, b, b);
    if x.Whole? && y.Whole? {
      BaseFacts(lay);
      ValueSign(y.a, lay.Base());
    }
    ans := NumberAdd(lay, x, Negation(y));
  }

  method NumberMultiply(lay: Layout, x: Number, y: Number) returns (ans: Answer)
    requires lay.Valid() && Operand(lay, x) && Operand(lay, y)
    ensures x.Whole? && y.Whole? ==> ans.Answer? && ans.n.Whole? && Int(lay, ans.n.a) && Val(lay, ans.n.a) == Val(lay, x.a) * Val(lay, y.a)
    ensures !(x.Whole? && y.Whole?) ==> forall r, q :: StandsFor(lay, x, r) && StandsFor(lay, y, q) ==>
      exists res :: ProductOf(lay, r, q, res) && IsAnswer(ans, res)
  {
    hide StandsFor, Operand, ProductOf;
    WholeIsInt(lay, x);
    WholeIsInt(lay, y);
    if x.Whole? && y.Whole? {
      var s := Multiply(lay, x.a, y.a);
      return Answer(Whole(s));
    }
    var a := Converted(lay, x);
    var b := Converted(lay, y);
    OnlyThese(lay, x, y, a, b);
    var res := RealMultiply(lay, a, b);
    ans := AsAnswer(res);
  }

  /** Division is always of reals. */
  method NumberDivide(lay: Layout, x: Number, y: Number) returns (ans: Answer)
    requires lay.Valid() && Operand(lay, x) && Operand(lay, y)
    ensures forall r, q :: StandsFor(lay, x, r) && StandsFor(lay, y, q) ==> exists res :: QuotientOf(lay, r, q, res) && IsAnswer(ans, res)
  {
    hide StandsFor, Operand, QuotientOf;
    WholeIsInt(lay, x);
    WholeIsInt(lay, y);
    var a := Converted(lay, x);
    var b := Converted(lay, y);
    OnlyThese(lay, x, y, a, b);
    var res := RealDivide(lay, a, b);
    ans := AsAnswer(res);
  }

  // When a comparison with a real is right

  /** In a unit small enough for both, an integer and a real have the same value. */
  ghost predicate SameAs(lay: Layout, a: seq<int>, q: Real)
    requires lay.Valid() && Int(lay, a) && Normal(lay, q)
  {
    var lo := Min(0, q.exp);
    Val(lay, a) * Pow10(0 - lo) == Units(lay, q, lo)
  }

  /** An integer with the value of a normal real loses no digits when converted. */
  lemma SameFits(lay: Layout, a: seq<int>, q: Real)
    requires lay.Valid() && Int(lay, a) && Normal(lay, q) && SameAs(lay, a, q)
    ensures Fits(lay, a)
  {
    hide Nat, Digits, Pow10, Zeros;
    BaseFacts(lay);
    ValueSign(a, lay.Base());
    var x, m, lo := Mag(lay, Unrounded(a)), Mag(lay, q), Min(0, q.exp);
    SignedUnits(lay, q, lo);
    PowZero();
    if x == 0 {
      SmallExcess(x, lay.MaxDigits());
    } else if q.exp >= 0 {
      assert x == m * Pow10(q.exp);
      ZerosOf(x, m, q.exp);
      DigitsTimesPow10(m, q.exp);
    } else {
      MagnitudeOf(Val(lay, a), Pow10(0 - lo), x);
      TrailingZero(x, m, 0 - q.exp);
    }
  }

  lemma MagnitudeOf(v: int, p: int, x: nat)
    requires p > 0 && x == IntAbs(v)
    ensures IntAbs(v * p) == x * p
  {
    AbsScaled(v, p);
  }

  /** Comparing an integer with an exact real gives the right answer exactly when no digit is lost or the answer is no. */
  lemma EqualRight(lay: Layout, a: seq<int>, q: Real, r: Real)
    requires lay.Valid() && Operand(lay, Whole(a)) && Normal(lay, q) && StandsFor(lay, Whole(a), r)
    ensures (SameValue(lay, r, q) <==> SameAs(lay, a, q)) <==> Fits(lay, a) || !SameValue(lay, r, q)
  {
    hide Nat, Digits, Pow10, Zeros, SameValue, Fits, NormalisedTo;
    if Fits(lay, a) {
      ConversionExact(lay, a, r);
      var lo := Min(0, q.exp);
      UnitsLower(lay, r, 0, lo);
      OrderInAnyUnit(lay, r, q, lo);
    } else if SameAs(lay, a, q) {
      SameFits(lay, a, q);
    }
  }

  /** So equality with every real is decided rightly exactly when no digit is lost. */
  lemma AlwaysEqualRight(lay: Layout, a: seq<int>, r: Real)
    requires lay.Valid() && Operand(lay, Whole(a)) && StandsFor(lay, Whole(a), r)
    ensures (forall q :: Normal(lay, q) ==> (SameValue(lay, r, q) <==> SameAs(lay, a, q))) <==> Fits(lay, a)
  {
    hide Nat, Digits, Pow10, Zeros, SameValue, Fits, NormalisedTo, SameAs;
    forall q | Normal(lay, q)
      ensures (SameValue(lay, r, q) <==> SameAs(lay, a, q)) <==> Fits(lay, a) || !SameValue(lay, r, q)
    {
      EqualRight(lay, a, q, r);
    }
    ItselfSame(lay, r);
  }

  lemma ItselfSame(lay: Layout, r: Real)
    requires lay.Valid() && WellFormed(lay, r)
    ensures SameValue(lay, r, r)
  {
  }

  // When the order of an integer and a real is right

  /** No number of at most max digits lies between what is kept of x and x itself. */
  lemma NoneBetween(x: nat, max: nat, m: nat, e: nat)
    requires x > 0 && max >= 1 && m > 0 && Digits(m) <= max
    requires Lead(x, Dropped(x, max)) * Pow10(Dropped(x, max)) < m * Pow10(e)
    ensures x < m * Pow10(e)
  {
    hide Lead, Zeros, Digits, Pow10, Dropped;
    var k, u := Dropped(x, max), Excess(x, max);
    var l := Lead(x, k);
    DroppedFacts(x, max);
    if u == 0 {
      PowZero();
    } else {
      DigitsTimesPow10(l, k);
      DigitsTimesPow10(m, e);
      DigitsMono(l * Pow10(k), m * Pow10(e));
      Pow10Add(k - u, u);
      Associate(l, Pow10(k - u), Pow10(u));
      Pow10Add(e - u, u);
      Associate(m, Pow10(e - u), Pow10(u));
      StepUp(l * Pow10(k - u), m * Pow10(e - u), Pow10(u));
    }
  }

  lemma StepUp(a: int, b: int, p: int)
    requires p > 0 && a * p < b * p
    ensures a * p + p <= b * p
  {
    OrderScaled(a, b, p);
    MulMono(p, a + 1, b);
  }

  /** The same in a unit small enough for a real m * 10^e. */
  lemma Gap(x: nat, max: nat, m: nat, e: int, lo: int)
    requires max >= 1 && m > 0 && Digits(m) <= max && lo == Min(0, e)
    requires Lead(x, Dropped(x, max)) * Pow10(Dropped(x, max)) * Pow10(0 - lo) < m * Pow10(e - lo)
    ensures x * Pow10(0 - lo) < m * Pow10(e - lo)
  {
    hide Lead, Zeros, Digits, Pow10, Dropped;
    var k := Dropped(x, max);
    var l := Lead(x, k);
    PowZero();
    if x == 0 {
      ZeroNormal(max);
    } else if e >= 0 {
      NoneBetween(x, max, m, e);
    } else {
      DroppedFacts(x, max);
      Pow10Add(k, 0 - lo);
      Associate(l, Pow10(k), Pow10(0 - lo));
      DigitsTimesPow10(l, k + (0 - lo));
      DigitsMono(l * Pow10(k + (0 - lo)), m);
    }
  }

  /** The integer is below the real. */
  ghost predicate Below(lay: Layout, a: seq<int>, q: Real)
    requires lay.Valid() && Int(lay, a) && Normal(lay, q)
  {
    var lo := Min(0, q.exp);
    Val(lay, a) * Pow10(0 - lo) < Units(lay, q, lo)
  }

  /** The integer is above the real. */
  ghost predicate Above(lay: Layout, a: seq<int>, q: Real)
    requires lay.Valid() && Int(lay, a) && Normal(lay, q)
  {
    var lo := Min(0, q.exp);
    Units(lay, q, lo) < Val(lay, a) * Pow10(0 - lo)
  }

  /** In units of 10^lo: the converted integer, and the integer itself, which is no nearer to zero. */
  lemma ConvertedUnits(lay: Layout, a: seq<int>, r: Real, lo: int)
    requires lay.Valid() && Operand(lay, Whole(a)) && StandsFor(lay, Whole(a), r) && lo <= 0
    ensures var x, max := Mag(lay, Unrounded(a)), lay.MaxDigits();
      var kept := Lead(x, Dropped(x, max)) * Pow10(Dropped(x, max));
      && r.exp >= 0 && kept <= x && (kept == x <==> Fits(lay, a))
      && Val(lay, a) == (if Negative(a) then 0 - x else x)
      && Units(lay, r, lo) == (if Negative(a) then 0 - kept * Pow10(0 - lo) else kept * Pow10(0 - lo))
  {
    hide Nat, Lead, Zeros, Digits, Pow10, Dropped;
    BaseFacts(lay);
    ValueSign(a, lay.Base());
    var x, max := Mag(lay, Unrounded(a)), lay.MaxDigits();
    UnitsLower(lay, r, 0, lo) by {
      ConversionExact(lay, a, r);
    }
    SignedUnits(lay, r, 0);
    NegatedUnits(0 - Units(lay, r, 0), Units(lay, r, 0), Pow10(0 - lo));
    if x > 0 {
      DroppedFacts(x, max);
      KeepsAll(x, max);
    } else {
      SmallExcess(x, max);
      ZeroNormal(max);
    }
  }

  lemma MinusTimes(x: int, p: int)
    ensures (0 - x) * p == 0 - x * p
  {
  }

  /** The order, in whole units: kept and x scaled by p, and a number q that is not between them. */
  lemma OrderCore(kept: int, x: int, p: int, q: int)
    requires p > 0 && kept <= x && (kept * p < q ==> x * p < q)
    ensures x * p < q <==> kept * p < q
    ensures q < x * p <==> q < kept * p || (q == kept * p && kept != x)
  {
    MulMono(p, kept, x);
    OrderScaled(kept, x, p);
  }

  /** What is kept of an integer and the integer itself have no normal real between them. */
  lemma NotBetween(lay: Layout, a: seq<int>, q: Real, neg: bool)
    requires lay.Valid() && Operand(lay, Whole(a)) && Normal(lay, q)
    ensures var x, max, lo := Mag(lay, Unrounded(a)), lay.MaxDigits(), Min(0, q.exp);
      var kept, u := Lead(x, Dropped(x, max)) * Pow10(Dropped(x, max)), (if neg then 0 - Units(lay, q, lo) else Units(lay, q, lo));
      kept * Pow10(0 - lo) < u ==> x * Pow10(0 - lo) < u
  {
    hide Nat, Lead, Zeros, Digits, Pow10, Dropped;
    BaseFacts(lay);
    var x, max, lo := Mag(lay, Unrounded(a)), lay.MaxDigits(), Min(0, q.exp);
    var kept, u := Lead(x, Dropped(x, max)) * Pow10(Dropped(x, max)), (if neg then 0 - Units(lay, q, lo) else Units(lay, q, lo));
    SignedUnits(lay, q, lo);
    PowAtLeastOne(0 - lo);
    MulMono(Pow10(0 - lo), 0, kept);
    if kept * Pow10(0 - lo) < u {
      Gap(x, max, Mag(lay, q), q.exp, lo);
    }
  }

  /**
    The order of an integer and a real.  The comparison goes wrong only when the real is what the integer is
    converted to and a digit was lost: then it misses that the integer is further away from zero.
   */
  lemma OrderRight(lay: Layout, a: seq<int>, q: Real, r: Real)
    requires lay.Valid() && Operand(lay, Whole(a)) && Normal(lay, q) && StandsFor(lay, Whole(a), r)
    ensures Below(lay, a, q) <==> Less(lay, r, q) || (SameValue(lay, r, q) && !Fits(lay, a) && Negative(a))
    ensures Above(lay, a, q) <==> Less(lay, q, r) || (SameValue(lay, r, q) && !Fits(lay, a) && !Negative(a))
  {
    hide Nat, Lead, Zeros, Digits, Pow10, Dropped, Fits, Less, SameValue, Units, NormalisedTo;
    var x, max, lo := Mag(lay, Unrounded(a)), lay.MaxDigits(), Min(0, q.exp);
    var kept, p, u := Lead(x, Dropped(x, max)) * Pow10(Dropped(x, max)), Pow10(0 - lo), Units(lay, q, lo);
    ConvertedUnits(lay, a, r, lo);
    OrderInAnyUnit(lay, r, q, lo);
    OrderInAnyUnit(lay, q, r, lo);
    NotBetween(lay, a, q, Negative(a));
    PowAtLeastOne(0 - lo);
    MinusTimes(x, p);
    OrderCore(kept, x, p, if Negative(a) then 0 - u else u);
  }

  /** So an integer is rightly found below every real exactly when it loses no digit or is not negative. */
  lemma AlwaysBelowRight(lay: Layout, a: seq<int>, r: Real)
    requires lay.Valid() && Operand(lay, Whole(a)) && StandsFor(lay, Whole(a), r)
    ensures (forall q :: Normal(lay, q) ==> (Less(lay, r, q) <==> Below(lay, a, q))) <==> Fits(lay, a) || !Negative(a)
    ensures (forall q :: Normal(lay, q) ==> (Less(lay, q, r) <==> Above(lay, a, q))) <==> Fits(lay, a) || Negative(a)
  {
    hide Less, SameValue, Below, Above, Fits, NormalisedTo;
    forall q | Normal(lay, q)
      ensures Below(lay, a, q) <==> Less(lay, r, q) || (SameValue(lay, r, q) && !Fits(lay, a) && Negative(a))
      ensures Above(lay, a, q) <==> Less(lay, q, r) || (SameValue(lay, r, q) && !Fits(lay, a) && !Negative(a))
      ensures SameValue(lay, r, q) ==> !Less(lay, r, q) && !Less(lay, q, r)
    {
      OrderRight(lay, a, q, r);
      if SameValue(lay, r, q) {
        SameNotLess(lay, r, q);
      }
    }
    ItselfSame(lay, r);
  }

  lemma SameNotLess(lay: Layout, r: Real, q: Real)
    requires lay.Valid() && WellFormed(lay, r) && WellFormed(lay, q) && SameValue(lay, r, q)
    ensures !Less(lay, r, q) && !Less(lay, q, r)
  {
  }

  // How far off results are for the integer itself

  lemma AbsTriangle(x: int, y: int, z: int)
    ensures IntAbs(x - z) <= IntAbs(x - y) + IntAbs(y - z)
  {
  }

  /** Converting costs less than one unit of the integer's MAX_DIGITS-th digit. */
  lemma ConversionError(lay: Layout, a: seq<int>, r: Real, lo: int)
    requires lay.Valid() && Operand(lay, Whole(a)) && StandsFor(lay, Whole(a), r) && lo <= 0
    ensures r.exp >= 0
    ensures IntAbs(Units(lay, r, lo) - Val(lay, a) * Pow10(0 - lo)) < Pow10(Excess(Mag(lay, Unrounded(a)), lay.MaxDigits()) + (0 - lo))
  {
    hide Nat, Lead, Zeros, Digits, Pow10, Dropped, Units, NormalisedTo, Fits, Excess;
    BaseFacts(lay);
    var x, max, p := Mag(lay, Unrounded(a)), lay.MaxDigits(), Pow10(0 - lo);
    ConvertedUnits(lay, a, r, lo);
    KeptWithin(x, max);
    PowAtLeastOne(0 - lo);
    Pow10Add(Excess(x, max), 0 - lo);
    MinusTimes(x, p);
    ScaledGap(Lead(x, Dropped(x, max)) * Pow10(Dropped(x, max)), x, Pow10(Excess(x, max)), p);
  }

  lemma KeptWithin(x: nat, max: nat)
    requires max >= 1
    ensures var kept := Lead(x, Dropped(x, max)) * Pow10(Dropped(x, max)); kept <= x < kept + Pow10(Excess(x, max))
  {
    hide Lead, Zeros, Digits, Pow10, Dropped;
    PowAtLeastOne(Excess(x, max));
    if x > 0 {
      DroppedFacts(x, max);
    } else {
      ZeroNormal(max);
    }
  }

  lemma ScaledGap(kept: int, x: int, u: int, p: int)
    requires p > 0 && kept <= x < kept + u
    ensures 0 <= x * p - kept * p < u * p
  {
    MulMono(p, kept, x);
    MulLess(x, kept + u, p);
  }

  /** A sum of an integer and a real: off by less than a unit of the computed sum and one of the integer. */
  lemma MixedSumError(lay: Layout, a: seq<int>, q: Real, r: Real, s: Real, lo: int)
    requires lay.Valid() && Operand(lay, Whole(a)) && Normal(lay, q) && StandsFor(lay, Whole(a), r)
    requires WellFormed(lay, s) && SumClose(lay, r, q, s) && lo <= 0 && lo <= q.exp && lo <= s.exp
    ensures r.exp >= 0
    ensures IntAbs(Units(lay, s, lo) - (Val(lay, a) * Pow10(0 - lo) + Units(lay, q, lo)))
      < Pow10(Excess(Units(lay, r, lo) + Units(lay, q, lo), lay.MaxDigits())) + Pow10(Excess(Mag(lay, Unrounded(a)), lay.MaxDigits()) + (0 - lo))
  {
    hide Nat, Digits, Pow10, Units, NormalisedTo, Excess;
    ConversionError(lay, a, r, lo);
    AbsTriangle(Units(lay, s, lo), Units(lay, r, lo) + Units(lay, q, lo), Val(lay, a) * Pow10(0 - lo) + Units(lay, q, lo));
  }

  /** A product: off by less than a unit of the computed product and as many of the integer as the real says. */
  lemma MixedProductError(lay: Layout, a: seq<int>, q: Real, r: Real, s: Real, lo: int)
    requires lay.Valid() && Operand(lay, Whole(a)) && Normal(lay, q) && StandsFor(lay, Whole(a), r)
    requires WellFormed(lay, s) && ProductClose(lay, r, q, s) && lo <= q.exp && lo <= s.exp
    ensures r.exp >= 0
    ensures var exact, computed := Val(lay, a) * Units(lay, q, lo), Units(lay, r, 0) * Units(lay, q, lo);
      IntAbs(Units(lay, s, lo) - exact) < Pow10(Excess(computed, lay.MaxDigits()))
        + IntAbs(Units(lay, q, lo)) * Pow10(Excess(Mag(lay, Unrounded(a)), lay.MaxDigits()))
  {
    hide Nat, Digits, Pow10, NormalisedTo, Excess;
    ConversionError(lay, a, r, 0);
    PowZero();
    var x, y, z, w := Signed(lay, r), Signed(lay, q), Pow10(r.exp), Pow10(q.exp - lo);
    Pow10Add(r.exp, q.exp - lo);
    Regrouped(x, y, z, w);
    AbsTriangle(Units(lay, s, lo), Units(lay, r, 0) * Units(lay, q, lo), Val(lay, a) * Units(lay, q, lo));
    AbsFactor(Units(lay, r, 0), Val(lay, a), Units(lay, q, lo), Pow10(Excess(Mag(lay, Unrounded(a)), lay.MaxDigits())));
  }

  /** A quotient of an integer, multiplied out: off by less than a unit of the computed quotient and one of the integer. */
  lemma MixedQuotientError(lay: Layout, a: seq<int>, q: Real, r: Real, s: Real, lo: int)
    requires lay.Valid() && Operand(lay, Whole(a)) && Normal(lay, q) && StandsFor(lay, Whole(a), r)
    requires WellFormed(lay, s) && QuotientClose(lay, r, q, s) && lo <= QuotientExp(lay, r, q) && lo <= s.exp && lo <= 0 - q.exp
    ensures r.exp >= 0 && Signed(lay, q) != 0
    ensures var y, p := Signed(lay, q), Pow10(0 - q.exp - lo);
      IntAbs(Units(lay, s, lo) * y - Val(lay, a) * p)
        < IntAbs(y) * Pow10(Excess(IntAbs(Units(lay, r, 0) * p) / IntAbs(y), lay.MaxDigits()))
        + IntAbs(p) * Pow10(Excess(Mag(lay, Unrounded(a)), lay.MaxDigits()))
  {
    hide Nat, Digits, Pow10, NormalisedTo, Excess;
    ConversionError(lay, a, r, 0);
    PowZero();
    var y, p := Signed(lay, q), Pow10(0 - q.exp - lo);
    Pow10Add(r.exp, 0 - q.exp - lo);
    Associate(Signed(lay, r), Pow10(r.exp), p);
    assert CloseQuotient(Units(lay, s, lo), Signed(lay, r) * Pow10(r.exp - q.exp - lo), y, lay.MaxDigits());
    AbsTriangle(Units(lay, s, lo) * y, Units(lay, r, 0) * p, Val(lay, a) * p);
    AbsFactor(Units(lay, r, 0), Val(lay, a), p, Pow10(Excess(Mag(lay, Unrounded(a)), lay.MaxDigits())));
  }

  lemma Regrouped(x: int, y: int, z: int, w: int)
    ensures x * y * (z * w) == (x * z) * (y * w)
  {
  }

  lemma AbsFactor(x: int, y: int, z: int, bound: int)
    requires IntAbs(x - y) < bound
    ensures IntAbs(x * z - y * z) <= IntAbs(z) * bound
  {
    assert x * z - y * z == (x - y) * z;
    AbsProduct(x - y, z);
    MulMono(IntAbs(z), IntAbs(x - y), bound);
  }

  lemma AbsProduct(x: int, y: int)
    ensures IntAbs(x * y) == IntAbs(y) * IntAbs(x)
  {
  }

  /** One more than a power of ten, cut to the digits of that power. */
  lemma PowerPlusOne(max: nat)
    requires max >= 1
    ensures var x := Pow10(max) + 1;
      Excess(x, max) == 1 && Zeros(x) == 0 && Dropped(x, max) == max && Lead(x, max) == 1 && Digits(x) == max + 1
  {
    hide Digits, Lead;
    var x, y := Pow10(max) + 1, Pow10(max - 1);
    assert Digits(1) == 1 by { OneDigitOne(); }
    DigitsAbove(1, 1, max);
    DigitsAbove(1, 0, max - 1);
    NextLead(x, y, 1);
    ZerosOf(y, 1, max - 1);
    ZerosExact(y);
    LeadLead(x, 1, max - 1);
  }

  lemma OneDigitOne()
    ensures Digits(1) == 1
  {
  }

  lemma SmallNats(base: int)
    ensures Nat([1], base) == 1 && Nat([1, 1], base) == base + 1
  {
    assert [1, 1][1..] == [1] && [1][1..] == [];
  }

  /** One more than 10^18 is converted to 1e18, and so compares equal to it. */
  lemma DigitLost()
    ensures var a, q := [1, 1], Real(false, false, 18, [1]);
      && LP64.Valid() && Operand(LP64, Whole(a)) && Normal(LP64, q)
      && StandsFor(LP64, Whole(a), q) && !Fits(LP64, a)
  {
    hide Nat, Pow10, Digits, Lead, Zeros, Dropped;
    BothLayoutsValid();
    BaseFacts(LP64);
    SmallNats(LP64.Base());
    PowerPlusOne(18);
    OneDigitOne();
    assert Abs([1, 1]) == [1, 1];
  }
}
