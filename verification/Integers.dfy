/** Bignum integers: sign-and-magnitude decimal arithmetic on segment arrays. */
module Integers {
  import opened Layouts
  import opened Segments
  import opened SegmentSteps

  datatype DivideResult = Quotient(div: seq<int>, mod: seq<int>) | DivideByZero

  ghost predicate Int(lay: Layout, s: seq<int>) {
    Canonical(s, lay.Base())
  }

  ghost function Val(lay: Layout, s: seq<int>): int
    requires |s| >= 1
  {
    Value(s, lay.Base())
  }

  // ----- comparison -----

  predicate IsZero(s: seq<int>) {
    |s| == 1 && s[0] == 0
  }

  /** Walk two arrays of one length from the top to the first segment that differs. */
  method DifferAt(a: seq<int>, b: seq<int>) returns (k: int)
    requires |a| == |b|
    ensures -1 <= k < |a| && AgreeAbove(a, b, k)
    ensures k >= 0 ==> a[k] != b[k]
  {
    k := |a| - 1;
    while k >= 0
      invariant -1 <= k < |a| && AgreeAbove(a, b, k)
    {
      if a[k] != b[k] {
        return;
      }
      k := k - 1;
    }
  }

  method LessMagnitude(lay: Layout, a: seq<int>, b: seq<int>) returns (lt: bool, gt: bool)
    requires lay.Valid() && CanonicalNat(a, lay.Base()) && CanonicalNat(b, lay.Base())
    ensures lt <==> Nat(a, lay.Base()) < Nat(b, lay.Base())
    ensures gt <==> Nat(a, lay.Base()) > Nat(b, lay.Base())
  {
    ghost var base := lay.Base();
    BaseFacts(lay);
    if |a| < |b| {
      NatOrderLength(a, b, base);
      return true, false;
    }
    if |a| > |b| {
      NatOrderLength(b, a, base);
      return false, true;
    }
    var k := DifferAt(a, b);
    if k < 0 {
      assert a == b;
      return false, false;
    }
    if a[k] < b[k] {
      NatOrderAt(a, b, k, base);
      return true, false;
    }
    NatOrderAt(b, a, k, base);
    return false, true;
  }

  method LessThan(lay: Layout, a: seq<int>, b: seq<int>) returns (lt: bool)
    requires lay.Valid() && Int(lay, a) && Int(lay, b)
    ensures lt <==> Val(lay, a) < Val(lay, b)
  {
    BaseFacts(lay);
    ValueSign(a, lay.Base());
    ValueSign(b, lay.Base());
    var na, nb := Negative(a), Negative(b);
    if na && !nb {
      return true;
    }
    if !na && nb {
      return false;
    }
    var less, more := LessMagnitude(lay, Abs(a), Abs(b));
    return if na then more else less;
  }

  method EqualP(lay: Layout, a: seq<int>, b: seq<int>) returns (eq: bool)
    requires lay.Valid() && Int(lay, a) && Int(lay, b)
    ensures eq <==> Val(lay, a) == Val(lay, b)
  {
    BaseFacts(lay);
    if Val(lay, a) == Val(lay, b) {
      CanonicalUnique(a, b, lay.Base());
    }
    if |a| != |b| {
      return false;
    }
    for i := 0 to |a|
      invariant forall j :: 0 <= j < i ==> a[j] == b[j]
    {
      if a[i] != b[i] {
        return false;
      }
    }
    assert a == b;
    return true;
  }

  // ----- addition and subtraction -----

  lemma AddPosition(a: int, b: int, carry: nat, base: int)
    ensures a + b + carry >= base ==> ChainAt(1 * a + 1 * b, a + b + carry - base, carry, 1, base)
    ensures ChainAt(1 * a + 1 * b, a + b + carry, carry, 0, base)
  {
  }

  /** The carry loop over two non-negative numbers. */
  method CarryLoop(lay: Layout, base: int, a: seq<int>, b: seq<int>) returns (r: seq<int>, ghost c: seq<int>)
    requires 2 <= base && 2 * base <= lay.word && CanonicalNat(a, base) && CanonicalNat(b, base)
    ensures CanonicalNat(r, base) && |r| >= |a| && |r| >= |b|
    ensures Carries(1, a, 1, b, r, c, |r|, base) && c[0] == 0 && c[|r|] == 0
  {
    hide ChainAt, Carries;
    var al, bl := |a|, |b|;
    var carry: nat := 0;
    var rl := if al >= bl then al else bl;
    var ra := new Bsa(rl);
    c := [0];
    CarriesNone(1, a, 1, b, ra.ae, 0, base);
    var i := 0;
    while i < al || i < bl || carry != 0
      invariant carry <= 1 && i <= rl + 1 && (i == rl + 1 ==> carry == 0)
      invariant |ra.ae| == (if i <= rl then rl else i) && |c| == i + 1 && c[0] == 0 && c[i] == carry
      invariant InBase(ra.ae, base)
      invariant i == rl > 1 && carry == 0 ==> ra.ae[rl - 1] > 0
      invariant i == rl + 1 ==> ra.ae[rl] > 0
      invariant Carries(1, a, 1, b, ra.ae, c, i, base)
      decreases if i < rl then rl - i else 0, carry
    {
      var ia := if i < al then a[i] else 0;
      var ib := if i < bl then b[i] else 0;
      AddPosition(At(a, i), At(b, i), carry, base);
      var ir := lay.Word(ia + ib + carry);
      carry := 0;
      if ir >= base {
        ir := lay.Word(ir - base);
        carry := 1;
      }
      ghost var before := ra.ae;
      var ok := ra.Set(ir, i);
      assert ok;
      CarriesExtend(1, a, 1, b, before, c, i, base, ir, carry, ra.ae);
      i, c := i + 1, c + [carry];
    }
    r := ra.ae;
  }

  method AddUnsigned(lay: Layout, a: seq<int>, b: seq<int>) returns (r: seq<int>)
    requires lay.Valid() && CanonicalNat(a, lay.Base()) && CanonicalNat(b, lay.Base())
    ensures CanonicalNat(r, lay.Base())
    ensures Nat(r, lay.Base()) == Nat(a, lay.Base()) + Nat(b, lay.Base())
  {
    BaseFacts(lay);
    ghost var c;
    r, c := CarryLoop(lay, lay.Base(), a, b);
    CarriesValue(1, a, 1, b, r, c, lay.Base());
  }

  lemma SubPosition(a: int, b: int, borrow: int, base: int)
    ensures ChainAt(1 * a + -1 * b, a - b - borrow + base, -borrow, -1, base)
    ensures ChainAt(1 * a + -1 * b, a - b - borrow, -borrow, 0, base)
  {
  }

  /**
    The borrow loop over two non-negative numbers. A borrow is a carry of -1; the loop ends
    because a borrow out of the top would leave a negative number.
   */
  method BorrowLoop(lay: Layout, base: int, a: seq<int>, b: seq<int>) returns (ra: Bsa, ghost c: seq<int>)
    requires 2 <= base && 2 * base <= lay.word && InBase(a, base) && InBase(b, base)
    requires Nat(a, base) >= Nat(b, base)
    ensures fresh(ra) && InBase(ra.ae, base) && |ra.ae| >= |a| && |ra.ae| >= |b|
    ensures Carries(1, a, -1, b, ra.ae, c, |ra.ae|, base) && c[0] == 0 && c[|ra.ae|] == 0
  {
    hide ChainAt, Carries, Nat;
    var al, bl := |a|, |b|;
    var borrow: int := 0;
    var rl := if al >= bl then al else bl;
    ra := new Bsa(rl);
    c := [0];
    CarriesNone(1, a, -1, b, ra.ae, 0, base);
    var i := 0;
    while i < al || i < bl || borrow != 0
      invariant 0 <= borrow <= 1 && i <= rl == |ra.ae| && fresh(ra)
      invariant InBase(ra.ae, base) && |c| == i + 1 && c[0] == 0 && c[i] == -borrow
      invariant Carries(1, a, -1, b, ra.ae, c, i, base)
      invariant i == rl > 0 ==> borrow == 0
      decreases rl - i
    {
      var ia := if i < al then a[i] else 0;
      var ib := if i < bl then b[i] else 0;
      SubPosition(At(a, i), At(b, i), borrow, base);
      var ir := lay.Word(ia - ib - borrow);
      borrow := 0;
      if ir < 0 {
        ir := lay.Word(ir + base);
        borrow := 1;
      }
      ghost var before := ra.ae;
      var ok := ra.Set(ir, i);
      assert ok;
      CarriesExtend(1, a, -1, b, before, c, i, base, ir, -borrow, ra.ae);
      i, c := i + 1, c + [-borrow];
      if i == rl {
        NoFinalBorrow(a, b, ra.ae, c, base);
      }
    }
  }

  /** The larger number less the smaller leaves no borrow. */
  lemma NoFinalBorrow(a: seq<int>, b: seq<int>, r: seq<int>, c: seq<int>, base: int)
    requires base >= 2 && InBase(r, base) && |r| >= |a| && |r| >= |b|
    requires Nat(a, base) >= Nat(b, base)
    requires |c| == |r| + 1 && Carries(1, a, -1, b, r, c, |r|, base) && c[0] == 0 && -1 <= c[|r|] <= 0
    ensures c[|r|] == 0
  {
    hide Nat, Carries;
    if c[|r|] == -1 {
      CarriesExtend(1, a, -1, b, r, c, |r|, base, -1, 0, r + [-1]);
      CarriesValue(1, a, -1, b, r + [-1], c + [0], base);
      NatBelowZero(r, base);
    }
  }

  method SubtractUnsigned(lay: Layout, a: seq<int>, b: seq<int>) returns (r: seq<int>)
    requires lay.Valid() && CanonicalNat(a, lay.Base()) && CanonicalNat(b, lay.Base())
    requires Nat(a, lay.Base()) >= Nat(b, lay.Base())
    ensures CanonicalNat(r, lay.Base())
    ensures Nat(r, lay.Base()) == Nat(a, lay.Base()) - Nat(b, lay.Base())
  {
    BaseFacts(lay);
    ghost var c;
    var ra;
    ra, c := BorrowLoop(lay, lay.Base(), a, b);
    CarriesValue(1, a, -1, b, ra.ae, c, lay.Base());
    r := RemoveLeadingZeroes(ra, lay.Base());
  }

  method RemoveLeadingZeroes(ra: Bsa, ghost base: int) returns (r: seq<int>)
    requires base >= 2 && InBase(ra.ae, base) && |ra.ae| >= 1
    modifies ra
    ensures CanonicalNat(r, base) && r == ra.ae
    ensures Nat(r, base) == old(Nat(ra.ae, base))
    ensures r <= old(ra.ae)
  {
    var rl := |ra.ae|;
    var ir := ra.ae[rl - 1];
    while ir == 0 && rl > 1
      invariant 1 <= rl == |ra.ae| && ir == ra.ae[rl - 1]
      invariant InBase(ra.ae, base) && Nat(ra.ae, base) == old(Nat(ra.ae, base))
      invariant ra.ae <= old(ra.ae)
    {
      assert ra.ae == ra.ae[..rl - 1] + [0];
      NatDropLeadingZero(ra.ae[..rl - 1], base);
      var ok := ra.Pop();
      assert ok;
      rl := rl - 1;
      ir := ra.ae[rl - 1];
    }
    r := ra.ae;
  }

  ghost function Negatives(a: seq<int>, b: seq<int>): nat
    requires |a| >= 1 && |b| >= 1
  {
    (if Negative(a) then 1 else 0) + (if Negative(b) then 1 else 0)
  }

  method Add(lay: Layout, a: seq<int>, b: seq<int>) returns (r: seq<int>)
    requires lay.Valid() && Int(lay, a) && Int(lay, b)
    ensures Int(lay, r) && Val(lay, r) == Val(lay, a) + Val(lay, b)
    decreases Negatives(a, b), 0
  {
    ghost var base := lay.Base();
    BaseFacts(lay);
    ValueSign(a, base);
    ValueSign(b, base);
    if Negative(a) {
      if Negative(b) {
        r := Add(lay, Abs(a), Abs(b));
        ValueSign(r, base);
        r := Negate(r);
      } else {
        r := Subtract(lay, b, Abs(a));
      }
      return;
    } else if Negative(b) {
      r := Subtract(lay, a, Abs(b));
      return;
    }
    r := AddUnsigned(lay, a, b);
  }

  method Subtract(lay: Layout, a: seq<int>, b: seq<int>) returns (r: seq<int>)
    requires lay.Valid() && Int(lay, a) && Int(lay, b)
    ensures Int(lay, r) && Val(lay, r) == Val(lay, a) - Val(lay, b)
    decreases Negatives(a, b), if Val(lay, a) < Val(lay, b) then 1 else 0
  {
    ghost var base := lay.Base();
    BaseFacts(lay);
    ValueSign(a, base);
    ValueSign(b, base);
    if Negative(a) {
      if Negative(b) {
        r := Subtract(lay, Abs(b), Abs(a));
      } else {
        r := Add(lay, Abs(a), b);
        ValueSign(r, base);
        r := Negate(r);
      }
      return;
    } else if Negative(b) {
      r := Add(lay, a, Abs(b));
      return;
    }
    var lt := LessThan(lay, a, b);
    if lt {
      r := Subtract(lay, b, a);
      ValueSign(r, base);
      r := Negate(r);
      return;
    }
    r := SubtractUnsigned(lay, a, b);
  }
}
