/** Shifts by a decimal digit, shift-and-add multiplication and long division. */
module LongArithmetic {
  import opened Decimal
  import opened Layouts
  import opened Segments
  import opened SegmentSteps
  import opened Integers
  import opened Rounding

  // ----- shifts -----

  /** The digits a left shift may take in: one decimal digit, or ten into an empty quotient. */
  predicate Fills(s: seq<int>, fill: nat) {
    fill <= 9 || (s == [0] && fill == 10)
  }

  lemma ShlPosition(x: int, carry: int, base: int)
    requires base >= 10 && base % 10 == 0 && 0 <= x < base
    ensures 0 <= x / (base / 10) <= 9 && 0 <= x % (base / 10) * 10 <= base - 10
    ensures ChainAt(10 * x + 0 * 0, x % (base / 10) * 10 + carry, carry, x / (base / 10), base)
    ensures ChainAt(10 * x + 0 * 0, x * 10 + carry, carry, 0, base)
  {
    SplitSegment(x, base);
  }

  /** Multiply by ten segment by segment, from the least significant, with a digit carried in. */
  method ShlLoop(lay: Layout, base: int, s: seq<int>, fill: nat) returns (r: seq<int>, ghost c: seq<int>)
    requires base >= 100 && base % 10 == 0 && 2 * base <= lay.word && CanonicalNat(s, base) && Fills(s, fill)
    ensures CanonicalNat(r, base) && |r| >= |s|
    ensures Carries(10, s, 0, [], r, c, |r|, base) && c[0] == fill && c[|r|] == 0
  {
    hide ChainAt, Carries;
    var ra := new Bsa(|s|);
    var carry: nat := fill;
    c := [fill];
    CarriesNone(10, s, 0, [], ra.ae, fill, base);
    var ai := 0;
    while ai < |s|
      invariant ai <= |s| == |ra.ae| && |c| == ai + 1 && c[0] == fill && c[ai] == carry
      invariant carry <= 9 || (ai == 0 && Fills(s, carry))
      invariant InBase(ra.ae, base)
      invariant ai == |s| > 1 && carry == 0 ==> ra.ae[ai - 1] > 0
      invariant Carries(10, s, 0, [], ra.ae, c, ai, base)
    {
      var i := s[ai];
      ShlPosition(i, carry, base);
      var r: int;
      if i >= base / 10 {
        var out := i / (base / 10);
        r := lay.Word(i % (base / 10) * 10);
        r := lay.Word(r + carry);
        carry := out;
        QuotientPositive(i, base / 10);
      } else {
        r := lay.Word(i * 10 + carry);
        carry := 0;
      }
      ghost var before := ra.ae;
      var ok := ra.Set(r, ai);
      assert ok;
      CarriesExtend(10, s, 0, [], before, c, ai, base, r, carry, ra.ae);
      ai, c := ai + 1, c + [carry];
    }
    if carry != 0 {
      ghost var before := ra.ae;
      var ok := ra.Set(carry, ai);
      assert ok;
      CarryOut(carry, base);
      CarriesExtend(10, s, 0, [], before, c, ai, base, carry, 0, ra.ae);
      c := c + [0];
    }
    r := ra.ae;
  }

  lemma QuotientPositive(x: int, d: int)
    requires x >= d > 0
    ensures x / d > 0
  {
  }

  lemma CarryOut(carry: int, base: int)
    ensures ChainAt(10 * 0 + 0 * 0, carry, carry, 0, base)
  {
  }

  method ShiftLeft(lay: Layout, s: seq<int>, fill: nat) returns (r: seq<int>)
    requires lay.Valid() && CanonicalNat(s, lay.Base()) && Fills(s, fill)
    ensures CanonicalNat(r, lay.Base())
    ensures Nat(r, lay.Base()) == 10 * Nat(s, lay.Base()) + fill
  {
    BaseFacts(lay);
    ghost var c;
    r, c := ShlLoop(lay, lay.Base(), s, fill);
    CarriesValue(10, s, 0, [], r, c, lay.Base());
  }

  /** Divide by ten segment by segment, from the most significant, each digit dropped into the next. */
  method ShrLoop(lay: Layout, base: int, s: seq<int>) returns (ra: Bsa, carry: int)
    requires base >= 100 && base % 10 == 0 && 2 * base <= lay.word && InBase(s, base) && s != []
    ensures fresh(ra) && |ra.ae| == |s| && carry == s[0] % 10
    ensures forall k :: 0 <= k < |s| ==> ra.ae[k] == ShrDigit(s, k, base)
  {
    hide ShrDigit;
    ra := new Bsa(|s|);
    carry := 0;
    var ai := |s| - 1;
    while ai >= 0
      invariant -1 <= ai < |s| == |ra.ae| && fresh(ra)
      invariant carry == At(s, ai + 1) % 10
      invariant forall k :: ai < k < |s| ==> ra.ae[k] == ShrDigit(s, k, base)
    {
      var i := s[ai];
      var c := i % 10;
      var r := i / 10;
      ShrDigitRange(i, carry, base);
      r := lay.Word(r + carry * (base / 10));
      ShrDigitIs(s, ai, base);
      carry := c;
      var ok := ra.Set(r, ai);
      assert ok;
      ai := ai - 1;
    }
  }

  lemma ShrDigitIs(s: seq<int>, k: nat, base: int)
    requires k < |s|
    ensures ShrDigit(s, k, base) == s[k] / 10 + At(s, k + 1) % 10 * (base / 10)
  {
  }

  /** The right shift leaves segments in base, and at most one zero on top. */
  lemma ShrShape(s: seq<int>, r: seq<int>, base: int)
    requires base >= 100 && base % 10 == 0 && CanonicalNat(s, base) && |r| == |s|
    requires forall k :: 0 <= k < |s| ==> r[k] == ShrDigit(s, k, base)
    ensures InBase(r, base)
    ensures |s| > 1 && r[|s| - 1] == 0 ==> r[|s| - 2] > 0
  {
    forall k | 0 <= k < |s|
      ensures 0 <= r[k] < base
    {
      ShrDigitRange(s[k], At(s, k + 1) % 10, base);
    }
    if |s| > 1 && r[|s| - 1] == 0 {
      assert r[|s| - 1] == ShrDigit(s, |s| - 1, base);
      assert r[|s| - 2] == ShrDigit(s, |s| - 2, base);
      ShrDigitRange(s[|s| - 2], s[|s| - 1] % 10, base);
    }
  }

  method ShiftRight(lay: Layout, s: seq<int>) returns (r: seq<int>, digit: int)
    requires lay.Valid() && CanonicalNat(s, lay.Base())
    ensures CanonicalNat(r, lay.Base()) && 0 <= digit <= 9
    ensures Nat(s, lay.Base()) == 10 * Nat(r, lay.Base()) + digit
  {
    hide Nat;
    ghost var base := lay.Base();
    BaseFacts(lay);
    var ra;
    ra, digit := ShrLoop(lay, lay.Base(), s);
    ShrChain(s, ra.ae, base);
    ShrShape(s, ra.ae, base);
    if |s| > 1 {
      var v := ra.ae[|s| - 1];
      if v == 0 {
        assert ra.ae == ra.ae[..|s| - 1] + [0];
        NatDropLeadingZero(ra.ae[..|s| - 1], base);
        var ok := ra.Pop();
        assert ok;
      }
    }
    r := ra.ae;
  }

  // ----- multiplication -----

  lemma MultiplyStep(r: int, aa: int, i: int, ab: int, aa1: int)
    requires aa == 10 * aa1 + i
    ensures r + i * ab + aa1 * (10 * ab) == r + aa * ab
  {
  }

  lemma ProductSign(a: int, b: int, m: int)
    requires m == (if a < 0 then -a else a) * (if b < 0 then -b else b)
    ensures a * b == if (a < 0) != (b < 0) then -m else m
  {
  }

  /** r + i * ab by repeated addition. */
  method AddTimes(lay: Layout, r0: seq<int>, ab: seq<int>, n: int) returns (r: seq<int>)
    requires lay.Valid() && 0 <= n && CanonicalNat(r0, lay.Base()) && CanonicalNat(ab, lay.Base())
    ensures CanonicalNat(r, lay.Base())
    ensures Nat(r, lay.Base()) == Nat(r0, lay.Base()) + n * Nat(ab, lay.Base())
  {
    BaseFacts(lay);
    NatNonNegative(ab, lay.Base());
    r := r0;
    var i := n;
    while i > 0
      invariant 0 <= i <= n && CanonicalNat(r, lay.Base())
      invariant Nat(r, lay.Base()) == Nat(r0, lay.Base()) + (n - i) * Nat(ab, lay.Base())
    {
      assert (n - i + 1) * Nat(ab, lay.Base()) == (n - i) * Nat(ab, lay.Base()) + Nat(ab, lay.Base());
      r := AddUnsigned(lay, r, ab);
      i := i - 1;
    }
  }

  /** Shift one operand's digits out and the other left, adding as many times as each digit says. */
  method MultiplyUnsigned(lay: Layout, a: seq<int>, b: seq<int>) returns (r: seq<int>)
    requires lay.Valid() && CanonicalNat(a, lay.Base()) && CanonicalNat(b, lay.Base())
    ensures CanonicalNat(r, lay.Base()) && Nat(r, lay.Base()) == Nat(a, lay.Base()) * Nat(b, lay.Base())
  {
    ghost var base := lay.Base();
    BaseFacts(lay);
    var aa, ab := a, b;
    ghost var m := Nat(a, base) * Nat(b, base);
    r := [0];
    ValueSign(r, base);
    NatNonNegative(aa, base);
    while !IsZero(aa)
      invariant CanonicalNat(aa, base) && CanonicalNat(ab, base) && CanonicalNat(r, base)
      invariant Nat(aa, base) >= 0 && Nat(r, base) + Nat(aa, base) * Nat(ab, base) == m
      decreases Nat(aa, base)
    {
      ValueSign(aa, base);
      ghost var x, y, z := Nat(r, base), Nat(aa, base), Nat(ab, base);
      var i;
      aa, i := ShiftRight(lay, aa);
      NatNonNegative(aa, base);
      r := AddTimes(lay, r, ab, i);
      ab := ShiftLeft(lay, ab, 0);
      MultiplyStep(x, y, i, z, Nat(aa, base));
    }
    ValueSign(aa, base);
  }

  method Multiply(lay: Layout, a: seq<int>, b: seq<int>) returns (r: seq<int>)
    requires lay.Valid() && Int(lay, a) && Int(lay, b)
    ensures Int(lay, r) && Val(lay, r) == Val(lay, a) * Val(lay, b)
  {
    BaseFacts(lay);
    ValueSign(a, lay.Base());
    ValueSign(b, lay.Base());
    var neg := Negative(a) != Negative(b);
    r := MultiplyUnsigned(lay, Abs(a), Abs(b));
    ProductSign(Val(lay, a), Val(lay, b), Nat(r, lay.Base()));
    if neg {
      ValueSign(r, lay.Base());
      r := Negate(r);
    }
  }

  // ----- long division -----

  /**
    Scale the divisor by tens until the next scaling would reach the dividend: the result is
    b * 10^m and 10^m, with a no larger than ten times the scaled divisor.
   */
  method Equalize(lay: Layout, a: seq<int>, b: seq<int>) returns (sd: seq<int>, sf: seq<int>, ghost m: nat)
    requires lay.Valid() && CanonicalNat(a, lay.Base()) && CanonicalNat(b, lay.Base())
    requires Nat(b, lay.Base()) > 0
    ensures CanonicalNat(sd, lay.Base()) && CanonicalNat(sf, lay.Base())
    ensures Nat(sf, lay.Base()) == Pow10(m) && Nat(sd, lay.Base()) == Nat(b, lay.Base()) * Pow10(m)
    ensures Nat(a, lay.Base()) <= 10 * Nat(sd, lay.Base())
    ensures m > 0 ==> Nat(sd, lay.Base()) < Nat(a, lay.Base())
  {
    ghost var base := lay.Base();
    BaseFacts(lay);
    sd, sf, m := b, [1], 0;
    NatFirst([1], base);
    var rn, fn := sd, sf;
    ghost var n: nat := 0;
    var lt := LessThan(lay, rn, a);
    while lt
      invariant CanonicalNat(rn, base) && CanonicalNat(fn, base)
      invariant CanonicalNat(sd, base) && CanonicalNat(sf, base)
      invariant Nat(fn, base) == Pow10(n) && Nat(rn, base) == Nat(b, base) * Pow10(n)
      invariant Nat(sf, base) == Pow10(m) && Nat(sd, base) == Nat(b, base) * Pow10(m)
      invariant n == m == 0 || n == m + 1
      invariant n > 0 ==> Nat(sd, base) < Nat(a, base)
      invariant lt <==> Nat(rn, base) < Nat(a, base)
      decreases Nat(a, base) - Nat(rn, base)
    {
      sd, sf, m := rn, fn, n;
      ScaleUp(Nat(b, base), n);
      rn := ShiftLeft(lay, rn, 0);
      fn := ShiftLeft(lay, fn, 0);
      n := n + 1;
      lt := LessThan(lay, rn, a);
    }
    ScaleUp(Nat(b, base), m);
  }

  lemma ScaleUp(b: int, n: nat)
    requires b > 0
    ensures b * Pow10(n + 1) == 10 * (b * Pow10(n))
    ensures b * Pow10(n) > 0
  {
  }

  /**
    The quotient digit: how often the scaled divisor goes into the remainder, by repeated
    addition; also the largest multiple not above the remainder.
   */
  method QuotientDigit(lay: Layout, mod: seq<int>, sd: seq<int>) returns (digit: nat, c0: seq<int>)
    requires lay.Valid() && CanonicalNat(mod, lay.Base()) && CanonicalNat(sd, lay.Base())
    requires Nat(sd, lay.Base()) > 0
    ensures CanonicalNat(c0, lay.Base()) && Nat(c0, lay.Base()) == digit * Nat(sd, lay.Base())
    ensures Nat(c0, lay.Base()) <= Nat(mod, lay.Base()) < Nat(c0, lay.Base()) + Nat(sd, lay.Base())
  {
    ghost var base := lay.Base();
    BaseFacts(lay);
    ghost var d := Nat(sd, base);
    var c := [0];
    c0 := c;
    NatNonNegative(mod, base);
    NatFirst([0], base);
    var i: nat := 0;
    var less := LessThan(lay, mod, c);
    while !less
      invariant CanonicalNat(c, base) && CanonicalNat(c0, base)
      invariant Nat(c, base) == i * d && less == (Nat(mod, base) < Nat(c, base))
      invariant i > 0 ==> Nat(c0, base) == (i - 1) * d && Nat(c0, base) <= Nat(mod, base) && Nat(c, base) == Nat(c0, base) + d
      invariant less ==> i > 0
      decreases Nat(mod, base) - Nat(c, base) + d, if less then 0 else 1
    {
      c0 := c;
      assert (i + 1) * d == i * d + d;
      c := AddUnsigned(lay, c, sd);
      i := i + 1;
      less := LessThan(lay, mod, c);
    }
    digit := i - 1;
  }

  /**
    Where long division stands before the round that works at 10^m, and, for m == -1, where it
    ends. Only in the first round may the remainder be as large as ten scaled divisors.
   */
  ghost predicate Dividing(a: int, b: int, m: int, first: bool, div: int, mod: int, sd: int, sf: int) {
    if m >= 0 then
      && sf == Pow10(m) && sd == b * Pow10(m) && sd > 0
      && a == div * (10 * sd) + mod && 0 <= mod
      && (if first then mod <= 10 * sd && div == 0 else mod < 10 * sd)
    else
      m == -1 && sf == 0 && a == div * b + mod && 0 <= mod < b
  }

  lemma DigitBound(q: nat, d: int, mod: int, bound: nat)
    requires d > 0 && q * d <= mod && mod < (bound + 1) * d
    ensures q <= bound
  {
    assert (q - bound - 1) * d == q * d - (bound + 1) * d;
    assert q > bound ==> (q - bound - 1) * d >= 0;
  }

  lemma QuotientFits(a: int, b: int, m: nat, first: bool, div: int, mod: int, sd: int, sf: int, q: nat)
    requires Dividing(a, b, m, first, div, mod, sd, sf)
    requires q * sd <= mod < q * sd + sd
    ensures q <= 9 || (first && div == 0 && q == 10)
  {
    DigitBound(q, sd, mod, if first then 10 else 9);
  }

  lemma RoundValue(a: int, div: int, mod: int, sd: int, q: int)
    requires a == div * (10 * sd) + mod
    ensures a == (10 * div + q) * sd + (mod - q * sd)
  {
  }

  /** One round keeps dividend == quotient * scale + remainder is kept. */
  lemma DivisionRound(a: int, b: int, m: nat, first: bool, div: int, mod: int, sd: int, sf: int,
                      q: nat, sd1: int, x: int, sf1: int, y: int)
    requires b > 0 && Dividing(a, b, m, first, div, mod, sd, sf)
    requires q * sd <= mod < q * sd + sd
    requires sd == 10 * sd1 + x && 0 <= x <= 9
    requires sf == 10 * sf1 + y && 0 <= y <= 9
    ensures Dividing(a, b, m - 1, false, 10 * div + q, mod - q * sd, sd1, sf1)
  {
    RoundValue(a, div, mod, sd, q);
    if m > 0 {
      ScaleUp(b, m - 1);
    }
  }

  /** Long division of non-negative numbers by decimal scaling. */
  method DivideUnsigned(lay: Layout, aa: seq<int>, ab: seq<int>) returns (div: seq<int>, mod: seq<int>)
    requires lay.Valid() && CanonicalNat(aa, lay.Base()) && CanonicalNat(ab, lay.Base())
    requires Nat(ab, lay.Base()) > 0
    ensures CanonicalNat(div, lay.Base()) && CanonicalNat(mod, lay.Base())
    ensures Nat(aa, lay.Base()) == Nat(div, lay.Base()) * Nat(ab, lay.Base()) + Nat(mod, lay.Base())
    ensures 0 <= Nat(mod, lay.Base()) < Nat(ab, lay.Base())
  {
    hide Nat, Dividing;
    ghost var base := lay.Base();
    BaseFacts(lay);
    ghost var a, b := Nat(aa, base), Nat(ab, base);
    div, mod := [0], aa;
    ValueSign(div, base);
    NatNonNegative(aa, base);
    var sd, sf;
    ghost var m: int, first := 0, true;
    sd, sf, m := Equalize(lay, aa, ab);
    DividingStart(a, b, m, Nat(sd, base), Nat(sf, base));
    while !IsZero(sf)
      invariant CanonicalNat(div, base) && CanonicalNat(mod, base) && CanonicalNat(sd, base) && CanonicalNat(sf, base)
      invariant Dividing(a, b, m, first, Nat(div, base), Nat(mod, base), Nat(sd, base), Nat(sf, base))
      decreases m
    {
      ValueSign(sf, base);
      ghost var div0, mod0, sd0, sf0 := Nat(div, base), Nat(mod, base), Nat(sd, base), Nat(sf, base);
      DividingGoesOn(a, b, m, first, div0, mod0, sd0, sf0);
      var q, c0 := QuotientDigit(lay, mod, sd);
      QuotientFits(a, b, m, first, div0, mod0, sd0, sf0, q);
      ValueSign(div, base);
      div := ShiftLeft(lay, div, q);
      mod := SubtractUnsigned(lay, mod, c0);
      var x, y;
      sf, y := ShiftRight(lay, sf);
      sd, x := ShiftRight(lay, sd);
      DivisionRound(a, b, m, first, div0, mod0, sd0, sf0, q, Nat(sd, base), x, Nat(sf, base), y);
      m, first := m - 1, false;
    }
    ValueSign(sf, base);
    DividingEnd(a, b, m, first, Nat(div, base), Nat(mod, base), Nat(sd, base), Nat(sf, base));
  }

  lemma DividingStart(a: int, b: int, m: nat, sd: int, sf: int)
    requires b > 0 && a >= 0 && sf == Pow10(m) && sd == b * Pow10(m) && a <= 10 * sd
    ensures Dividing(a, b, m, true, 0, a, sd, sf)
  {
    ScaleUp(b, m);
  }

  lemma DividingGoesOn(a: int, b: int, m: int, first: bool, div: int, mod: int, sd: int, sf: int)
    requires Dividing(a, b, m, first, div, mod, sd, sf) && sf != 0
    ensures m >= 0 && sd > 0 && mod >= 0
  {
  }

  lemma DividingEnd(a: int, b: int, m: int, first: bool, div: int, mod: int, sd: int, sf: int)
    requires Dividing(a, b, m, first, div, mod, sd, sf) && sf == 0
    ensures a == div * b + mod && 0 <= mod < b
  {
  }

  /** Division that truncates: the remainder is zero or takes the dividend's sign. */
  ghost predicate Truncated(a: int, b: int, q: int, r: int) {
    && a == q * b + r
    && IntAbs(r) < IntAbs(b)
    && (r == 0 || (r < 0 <==> a < 0))
  }

  lemma SignedDivision(a: int, b: int, q: int, r: int)
    requires b != 0 && IntAbs(a) == q * IntAbs(b) + r && 0 <= r < IntAbs(b)
    ensures Truncated(a, b, if (a < 0) != (b < 0) then -q else q, if a < 0 then -r else r)
  {
    assert (-q) * b == -(q * b) && q * (-b) == -(q * b);
  }

  /** A non-negative number, or its negation, as a signed integer. */
  lemma SignedForm(s: seq<int>, neg: bool, base: int)
    requires base >= 2 && CanonicalNat(s, base)
    ensures var t := if neg then Negate(s) else s;
            Canonical(t, base) && Value(t, base) == if neg then -Nat(s, base) else Nat(s, base)
  {
    ValueSign(s, base);
  }

  lemma SignedResult(a: seq<int>, b: seq<int>, div: seq<int>, mod: seq<int>, base: int)
    requires base >= 2 && Canonical(a, base) && Canonical(b, base) && Value(b, base) != 0
    requires CanonicalNat(div, base) && CanonicalNat(mod, base)
    requires Nat(Abs(a), base) == Nat(div, base) * Nat(Abs(b), base) + Nat(mod, base)
    requires 0 <= Nat(mod, base) < Nat(Abs(b), base)
    ensures var q := if Negative(a) != Negative(b) then Negate(div) else div;
            var r := if Negative(a) then Negate(mod) else mod;
            Canonical(q, base) && Canonical(r, base) && Truncated(Value(a, base), Value(b, base), Value(q, base), Value(r, base))
  {
    hide *;
    ValueSign(a, base);
    ValueSign(b, base);
    SignedForm(div, Negative(a) != Negative(b), base);
    SignedForm(mod, Negative(a), base);
    AbsIs(Value(a, base));
    AbsIs(Value(b, base));
    SignedDivision(Value(a, base), Value(b, base), Nat(div, base), Nat(mod, base));
  }

  lemma AbsIs(x: int)
    ensures IntAbs(x) == if x < 0 then -x else x
  {
  }

  method Divide(lay: Layout, a: seq<int>, b: seq<int>) returns (r: DivideResult)
    requires lay.Valid() && Int(lay, a) && Int(lay, b)
    ensures r.DivideByZero? <==> Val(lay, b) == 0
    ensures r.Quotient? ==>
              && Int(lay, r.div) && Int(lay, r.mod)
              && Truncated(Val(lay, a), Val(lay, b), Val(lay, r.div), Val(lay, r.mod))
  {
    hide Nat, Truncated;
    ghost var base := lay.Base();
    BaseFacts(lay);
    ValueSign(b, base);
    if IsZero(b) {
      return DivideByZero;
    }
    var na := Negative(a);
    var neg := na != Negative(b);
    var aa, ab := Abs(a), Abs(b);
    var less := LessThan(lay, aa, ab);
    if less && na {
      ValueSign([0], base);
      ValueSign(aa, base);
      SignedResult(a, b, [0], aa, base);
      assert Negate(aa) == a;
      return Quotient([0], a);
    }
    var div, mod := DivideUnsigned(lay, aa, ab);
    SignedResult(a, b, div, mod, base);
    r := Quotient(if neg then Negate(div) else div, if na then Negate(mod) else mod);
  }
}
