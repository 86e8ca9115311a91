/**
  Decimal segment arrays: least significant segment first, each segment a digit in some base,
  the sign of an integer carried by its most significant segment alone.
 */
module Segments {

  /** Every segment is a digit in the given base. */
  ghost predicate InBase(s: seq<int>, base: int) {
    forall i :: 0 <= i < |s| ==> 0 <= s[i] < base
  }

  /** The number an unsigned segment array stands for. */
  ghost function Nat(s: seq<int>, base: int): int
    decreases |s|
  {
    if s == [] then 0 else s[0] + base * Nat(s[1..], base)
  }

  /** Unsigned, at least one segment, no leading zero segment unless it is the only one. */
  ghost predicate CanonicalNat(s: seq<int>, base: int) {
    && |s| >= 1
    && InBase(s, base)
    && (|s| > 1 ==> s[|s| - 1] > 0)
  }

  predicate Negative(s: seq<int>)
    requires |s| >= 1
  {
    s[|s| - 1] < 0
  }

  function Abs(s: seq<int>): (r: seq<int>)
    requires |s| >= 1
    ensures |r| == |s| && !Negative(r)
  {
    if s[|s| - 1] < 0 then s[|s| - 1 := -s[|s| - 1]] else s
  }

  function Negate(s: seq<int>): (r: seq<int>)
    requires |s| >= 1
    ensures |r| == |s| && Abs(r) == Abs(s)
  {
    var r := s[|s| - 1 := -s[|s| - 1]];
    assert Abs(r) == Abs(s);
    r
  }

  /** A signed integer: canonical once its top segment loses its sign. */
  ghost predicate Canonical(s: seq<int>, base: int) {
    |s| >= 1 && CanonicalNat(Abs(s), base)
  }

  ghost function Value(s: seq<int>, base: int): int
    requires |s| >= 1
  {
    if Negative(s) then -Nat(Abs(s), base) else Nat(s, base)
  }

  lemma {:induction false} NatNonNegative(s: seq<int>, base: int)
    requires base >= 2 && InBase(s, base)
    ensures Nat(s, base) >= 0
  {
    if s != [] {
      NatNonNegative(s[1..], base);
      assert base * Nat(s[1..], base) >= 0;
    }
  }

  lemma {:induction false} NatPositive(s: seq<int>, base: int)
    requires base >= 2 && InBase(s, base)
    requires s != [] && s[|s| - 1] > 0
    ensures Nat(s, base) > 0
  {
    if |s| > 1 {
      NatPositive(s[1..], base);
      assert base * Nat(s[1..], base) > 0;
    }
  }

  /** A leading zero segment adds nothing. */
  lemma {:induction false} NatDropLeadingZero(s: seq<int>, base: int)
    ensures Nat(s + [0], base) == Nat(s, base)
  {
    if s == [] {
      assert Nat([0], base) == 0 + base * Nat([], base);
    } else {
      assert (s + [0])[1..] == s[1..] + [0];
      NatDropLeadingZero(s[1..], base);
    }
  }

  /** A negative top segment outweighs everything below it. */
  lemma {:induction false} NatBelowZero(s: seq<int>, base: int)
    requires base >= 2 && InBase(s, base)
    ensures Nat(s + [-1], base) < 0
    decreases |s|
  {
    if s == [] {
      assert Nat([-1], base) == -1 + base * Nat([], base);
    } else {
      assert (s + [-1])[1..] == s[1..] + [-1];
      NatBelowZero(s[1..], base);
      LeadingPartDecides(s[0], Nat(s[1..] + [-1], base), 0, 0, base);
    }
  }

  lemma LeadingPartDecides(x0: int, x: int, y0: int, y: int, base: int)
    requires 0 <= x0 < base && 0 <= y0 && x < y
    ensures x0 + base * x < y0 + base * y
  {
    assert base * (y - x - 1) >= 0;
    assert base * (y - x - 1) == base * y - base * x - base;
  }

  /** Two arrays of one length that agree above index k. */
  ghost predicate AgreeAbove(a: seq<int>, b: seq<int>, k: int) {
    |a| == |b| && forall i :: k < i < |a| && 0 <= i ==> a[i] == b[i]
  }

  /** Arrays that agree above index k are ordered by their k-th segments. */
  lemma {:induction false} NatOrderAt(a: seq<int>, b: seq<int>, k: nat, base: int)
    requires base >= 2 && InBase(a, base) && InBase(b, base)
    requires AgreeAbove(a, b, k) && k < |a| && a[k] < b[k]
    ensures Nat(a, base) < Nat(b, base)
    decreases k
  {
    if k == 0 {
      assert a[1..] == b[1..];
    } else {
      NatOrderAt(a[1..], b[1..], k - 1, base);
      LeadingPartDecides(a[0], Nat(a[1..], base), b[0], Nat(b[1..], base), base);
    }
  }

  /** More significant segments outweigh everything below. */
  lemma {:induction false} NatOrderLength(a: seq<int>, b: seq<int>, base: int)
    requires base >= 2 && InBase(a, base) && InBase(b, base)
    requires |a| < |b| && b[|b| - 1] > 0
    ensures Nat(a, base) < Nat(b, base)
  {
    if a == [] {
      NatPositive(b, base);
    } else {
      NatOrderLength(a[1..], b[1..], base);
      LeadingPartDecides(a[0], Nat(a[1..], base), b[0], Nat(b[1..], base), base);
    }
  }

  /** The sign of the top segment is the sign of the number; only [0] is zero. */
  lemma ValueSign(s: seq<int>, base: int)
    requires base >= 2 && Canonical(s, base)
    ensures Negative(s) <==> Value(s, base) < 0
    ensures s == [0] <==> Value(s, base) == 0
    ensures Value(Negate(s), base) == -Value(s, base) && Canonical(Negate(s), base)
    ensures Nat(Abs(s), base) == (if Value(s, base) < 0 then -Value(s, base) else Value(s, base))
  {
    var t := Abs(s);
    NatNonNegative(t, base);
    if t[|t| - 1] > 0 {
      NatPositive(t, base);
    } else {
      assert t == [0];
      assert Nat([0], base) == 0 + base * Nat([], base);
    }
  }

  /** The first segment, from the top, at which two arrays of one length differ. */
  lemma TopDifference(a: seq<int>, b: seq<int>) returns (k: nat)
    requires |a| == |b| && a != b
    ensures k < |a| && a[k] != b[k] && AgreeAbove(a, b, k)
  {
    var i := |a| - 1;
    while i >= 0 && a[i] == b[i]
      invariant -1 <= i < |a| && AgreeAbove(a, b, i)
    {
      i := i - 1;
    }
    k := i;
  }

  /** Canonical arrays are unique: equal numbers have equal segments. */
  lemma CanonicalNatUnique(a: seq<int>, b: seq<int>, base: int)
    requires base >= 2 && CanonicalNat(a, base) && CanonicalNat(b, base)
    requires Nat(a, base) == Nat(b, base)
    ensures a == b
  {
    if |a| < |b| {
      NatOrderLength(a, b, base);
    } else if |b| < |a| {
      NatOrderLength(b, a, base);
    } else if a != b {
      var k := TopDifference(a, b);
      if a[k] < b[k] {
        NatOrderAt(a, b, k, base);
      } else {
        NatOrderAt(b, a, k, base);
      }
    }
  }

  lemma CanonicalUnique(a: seq<int>, b: seq<int>, base: int)
    requires base >= 2 && Canonical(a, base) && Canonical(b, base)
    requires Value(a, base) == Value(b, base)
    ensures a == b
  {
    ValueSign(a, base);
    ValueSign(b, base);
    CanonicalNatUnique(Abs(a), Abs(b), base);
    assert Negative(a) == Negative(b);
    var n := |a| - 1;
    assert Abs(a)[n] == Abs(b)[n];
    assert forall i :: 0 <= i < n ==> a[i] == Abs(a)[i] && b[i] == Abs(b)[i];
  }
}
