/**
  Carry chains: what the digit-by-digit loops of addition, subtraction and the left shift have
  in common, and why they keep the number the segments stand for.
 */
module SegmentSteps {
  import opened Segments

  /** A segment, or zero beyond the top. */
  function At(s: seq<int>, j: nat): int {
    if j < |s| then s[j] else 0
  }

  /** The segment-wise combination k * a + l * b, padded to n segments. */
  ghost function Mix(k: int, a: seq<int>, l: int, b: seq<int>, n: nat): (x: seq<int>)
    ensures |x| == n
  {
    seq(n, j requires 0 <= j < n => k * At(a, j) + l * At(b, j))
  }

  /** Position j takes the carry c[j] in, leaves r[j] and passes c[j + 1] on. */
  ghost predicate ChainAt(x: int, r: int, c: int, c1: int, base: int) {
    x + c == r + base * c1
  }

  ghost predicate Chain(x: seq<int>, r: seq<int>, c: seq<int>, base: int) {
    && |x| == |r| && |c| == |r| + 1
    && forall j :: 0 <= j < |r| ==> ChainAt(x[j], r[j], c[j], c[j + 1], base)
  }

  lemma NatFirst(s: seq<int>, base: int)
    requires s != []
    ensures Nat(s, base) == s[0] + base * Nat(s[1..], base)
  {
  }

  lemma ChainStep(x: int, xs: int, r: int, rs: int, c: int, c1: int, base: int)
    requires x + c == r + base * c1 && xs + c1 == rs
    ensures x + base * xs + c == r + base * rs
  {
  }

  /** A chain that ends without a carry keeps the number, plus the carry it started with. */
  lemma {:induction false} ChainKeepsValue(x: seq<int>, r: seq<int>, c: seq<int>, base: int)
    requires Chain(x, r, c, base) && c[|r|] == 0
    ensures Nat(x, base) + c[0] == Nat(r, base)
    decreases |r|
  {
    if r != [] {
      forall j | 0 <= j < |r| - 1
        ensures ChainAt(x[1..][j], r[1..][j], c[1..][j], c[1..][j + 1], base)
      {
        assert ChainAt(x[j + 1], r[j + 1], c[j + 1], c[j + 2], base);
      }
      ChainKeepsValue(x[1..], r[1..], c[1..], base);
      assert ChainAt(x[0], r[0], c[0], c[1], base);
      NatFirst(x, base);
      NatFirst(r, base);
      ChainStep(x[0], Nat(x[1..], base), r[0], Nat(r[1..], base), c[0], c[1], base);
    }
  }

  function Tail(s: seq<int>): seq<int> {
    if s == [] then [] else s[1..]
  }

  lemma NatHeadTail(s: seq<int>, base: int)
    ensures Nat(s, base) == At(s, 0) + base * Nat(Tail(s), base)
  {
  }

  lemma MixStep(k: int, a: int, at: int, l: int, b: int, bt: int, base: int)
    ensures k * a + l * b + base * (k * at + l * bt) == k * (a + base * at) + l * (b + base * bt)
  {
  }

  lemma MixTail(k: int, a: seq<int>, l: int, b: seq<int>, n: nat)
    requires n > 0
    ensures Mix(k, a, l, b, n)[1..] == Mix(k, Tail(a), l, Tail(b), n - 1)
  {
  }

  lemma {:induction false} MixValue(k: int, a: seq<int>, l: int, b: seq<int>, n: nat, base: int)
    requires n >= |a| && n >= |b|
    ensures Nat(Mix(k, a, l, b, n), base) == k * Nat(a, base) + l * Nat(b, base)
    decreases n
  {
    if n > 0 {
      MixTail(k, a, l, b, n);
      MixValue(k, Tail(a), l, Tail(b), n - 1, base);
      NatFirst(Mix(k, a, l, b, n), base);
      NatHeadTail(a, base);
      NatHeadTail(b, base);
      MixStep(k, At(a, 0), Nat(Tail(a), base), l, At(b, 0), Nat(Tail(b), base), base);
    }
  }

  /** The chain of a segment loop: carries in and out of every position of k * a + l * b. */
  ghost predicate Carries(k: int, a: seq<int>, l: int, b: seq<int>, r: seq<int>, c: seq<int>, n: nat, base: int) {
    && n <= |r| && |c| == n + 1
    && forall j :: 0 <= j < n ==> ChainAt(k * At(a, j) + l * At(b, j), r[j], c[j], c[j + 1], base)
  }

  lemma CarriesNone(k: int, a: seq<int>, l: int, b: seq<int>, r: seq<int>, c0: int, base: int)
    ensures Carries(k, a, l, b, r, [c0], 0, base)
  {
  }

  /** One more position done. */
  lemma CarriesExtend(k: int, a: seq<int>, l: int, b: seq<int>, r: seq<int>, c: seq<int>, n: nat, base: int,
                      v: int, c1: int, r1: seq<int>)
    requires Carries(k, a, l, b, r, c, n, base)
    requires r1 == (if n < |r| then r[n := v] else r + [v])
    requires ChainAt(k * At(a, n) + l * At(b, n), v, c[n], c1, base)
    ensures Carries(k, a, l, b, r1, c + [c1], n + 1, base)
  {
    hide ChainAt;
  }

  /** What a finished loop has computed. */
  lemma CarriesValue(k: int, a: seq<int>, l: int, b: seq<int>, r: seq<int>, c: seq<int>, base: int)
    requires Carries(k, a, l, b, r, c, |r|, base) && c[|r|] == 0 && |r| >= |a| && |r| >= |b|
    ensures Nat(r, base) == k * Nat(a, base) + l * Nat(b, base) + c[0]
  {
    var x := Mix(k, a, l, b, |r|);
    forall j | 0 <= j < |r|
      ensures ChainAt(x[j], r[j], c[j], c[j + 1], base)
    {
    }
    ChainKeepsValue(x, r, c, base);
    MixValue(k, a, l, b, |r|, base);
  }

  // ----- the digit a left shift carries out of a segment -----

  lemma DivRange(x: int, d: int, n: int)
    requires d >= 1 && 0 <= x < d * n
    ensures 0 <= x / d < n && x == d * (x / d) + x % d && 0 <= x % d < d
  {
    var q := x / d;
    assert d * (q - n) == d * q - d * n;
    assert q >= n ==> d * (q - n) >= 0;
    assert d * (-q - 1) == -(d * q) - d;
    assert q < 0 ==> d * (-q - 1) >= 0;
  }

  /** A segment splits into the digit that leaves it and what stays. */
  lemma SplitSegment(x: int, base: int)
    requires base >= 10 && base % 10 == 0 && 0 <= x < base
    ensures 0 <= x / (base / 10) <= 9
    ensures x % (base / 10) * 10 + base * (x / (base / 10)) == 10 * x
    ensures 0 <= x % (base / 10) * 10 <= base - 10
  {
    var tenth := base / 10;
    DivRange(x, tenth, 10);
    assert base * (x / tenth) == 10 * (tenth * (x / tenth));
  }

  // ----- division by ten -----

  /** Segment k receives the digit that leaves segment k + 1. */
  function ShrDigit(s: seq<int>, k: nat, base: int): int
    requires k < |s|
  {
    s[k] / 10 + At(s, k + 1) % 10 * (base / 10)
  }

  lemma ShrDigitRange(x: int, c: int, base: int)
    requires base >= 10 && base % 10 == 0 && 0 <= x < base && 0 <= c <= 9
    ensures 0 <= x / 10 + c * (base / 10) < base
    ensures c > 0 ==> x / 10 + c * (base / 10) > 0
  {
    assert c * (base / 10) <= 9 * (base / 10);
    assert c > 0 ==> c * (base / 10) >= 1 * (base / 10);
  }

  /** Ten times what the right shift leaves, plus the digits it drops from the segments above. */
  lemma ShrChain(s: seq<int>, r: seq<int>, base: int)
    requires base >= 10 && base % 10 == 0 && |r| == |s| && s != []
    requires forall k :: 0 <= k < |s| ==> r[k] == ShrDigit(s, k, base)
    ensures 10 * Nat(r, base) + s[0] % 10 == Nat(s, base)
  {
    var c := seq(|s| + 1, j requires 0 <= j <= |s| => At(s, j) % 10);
    forall j | 0 <= j < |s|
      ensures ChainAt(10 * At(r, j) + 0 * At([], j), s[j], c[j], c[j + 1], base)
    {
      assert r[j] == ShrDigit(s, j, base);
      assert base * c[j + 1] == 10 * (c[j + 1] * (base / 10));
    }
    CarriesValue(10, r, 0, [], s, c, base);
  }
}
