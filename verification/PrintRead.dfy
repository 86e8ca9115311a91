/** Printing bignum integers and reading them back: segment padding, right-to-left chunks, the sign on the top segment. */
module PrintRead {

  import opened Decimal
  import opened Numerals
  import opened Layouts
  import opened Segments
  import opened Integers
  import opened Reals
  import opened Numbers

  // Printing

  /** The number unsigned segments stand for. */
  ghost function Size(lay: Layout, a: seq<int>): nat
    requires lay.Valid() && CanonicalNat(a, lay.Base())
  {
    BaseFacts(lay);
    NatNonNegative(a, lay.Base());
    Nat(a, lay.Base())
  }

  /** From the top segment down; all but the top one are padded to their full width. */
  method UnsignedAsString(lay: Layout, a: seq<int>) returns (m: string)
    requires lay.Valid() && CanonicalNat(a, lay.Base())
    ensures m == Decimal10(Size(lay, a))
  {
    hide Nat, Pow10, Parse;
    BaseFacts(lay);
    var ai := |a| - 1;
    m := Decimal10(a[ai]);
    ParseDecimal(a[ai]);
    NatOfOne(a[ai..], lay.Base());
    if a[ai] > 0 {
      NoLeadingZero(a[ai]);
    }
    while ai > 0
      invariant 0 <= ai < |a| && m != "" && AllDigits(m)
      invariant Parse(m) == Nat(a[ai..], lay.Base())
      invariant m[0] != '0' || (|a| == 1 && |m| == 1)
    {
      ai := ai - 1;
      ParsePadded(a[ai], lay.dpw);
      ParseAppend(m, Padded(a[ai], lay.dpw));
      NatStep(a[ai..], lay.Base());
      assert a[ai..][1..] == a[ai + 1..];
      m := m + Padded(a[ai], lay.dpw);
    }
    assert a[0..] == a;
    OneText(m);
  }

  lemma NatOfOne(s: seq<int>, base: int)
    requires |s| == 1
    ensures Nat(s, base) == s[0]
  {
    assert s[1..] == [];
  }

  lemma NatStep(s: seq<int>, base: int)
    requires s != []
    ensures Nat(s, base) == Nat(s[1..], base) * base + s[0]
  {
  }

  method IntegerAsString(lay: Layout, a: seq<int>) returns (s: string)
    requires lay.Valid() && Int(lay, a)
    ensures s == (if Negative(a) then "-" else "") + Decimal10(Size(lay, Abs(a)))
  {
    hide Decimal10, Size;
    s := UnsignedAsString(lay, Abs(a));
    if Negative(a) {
      s := "-" + s;
    }
  }

  // Reading

  /** An optional sign and at least one figure. */
  predicate Numeral(s: string) {
    s != "" && Unsigned(s) != "" && AllFigures(Unsigned(s))
  }

  /** The digits of a numeral, the unknown ones replaced. */
  function NumeralDigits(s: string): (ds: string)
    requires Numeral(s)
    ensures ds != "" && AllDigits(ds) && |ds| == |Unsigned(s)|
    ensures forall k :: 0 <= k < |ds| ==> ds[k] == if Unsigned(s)[k] == '#' then '5' else Unsigned(s)[k]
  {
    AllKnown(Unsigned(s))
  }

  function Unsigned(s: string): (u: string)
    ensures s == "-" + u || s == "+" + u || (s == u && (s == "" || s[0] !in {'-', '+'}))
  {
    if s != "" && (s[0] == '-' || s[0] == '+') then s[1..] else s
  }

  predicate Minus(s: string) { s != "" && s[0] == '-' }

  /** The number a numeral says. */
  function Written(s: string): int
    requires Numeral(s)
  {
    if Minus(s) then 0 - Parse(NumeralDigits(s)) else Parse(NumeralDigits(s))
  }

  /** The digits of the most significant segment. */
  function TopChunk(ds: string, dpw: nat): (c: string)
    requires dpw > 0 && AllDigits(ds) && ds != ""
    ensures AllDigits(c) && c != "" && c[0] == ds[0]
    decreases |ds|
  {
    if |ds| <= dpw then ds else TopChunk(ds[..|ds| - dpw], dpw)
  }

  /** The segments digits stand for: a segment's worth from the right, then the rest. */
  function Chunks(ds: string, dpw: nat): (u: seq<int>)
    requires dpw > 0 && AllDigits(ds) && ds != ""
    ensures u != []
    decreases |ds|
  {
    if |ds| <= dpw then [Parse(ds)]
    else [Parse(ds[|ds| - dpw..])] + Chunks(ds[..|ds| - dpw], dpw)
  }

  lemma {:induction false} ChunksAre(ds: string, dpw: nat)
    requires dpw > 0 && AllDigits(ds) && ds != ""
    ensures var u := Chunks(ds, dpw);
      InBase(u, Pow10(dpw)) && Nat(u, Pow10(dpw)) == Parse(ds) && u[|u| - 1] == Parse(TopChunk(ds, dpw))
    decreases |ds|
  {
    hide Pow10, Parse, Nat;
    var u := Chunks(ds, dpw);
    if |ds| <= dpw {
      ParseBound(ds);
      Pow10Mono(|ds|, dpw);
      NatOfOne(u, Pow10(dpw));
    } else {
      var front, last := ds[..|ds| - dpw], ds[|ds| - dpw..];
      assert front + last == ds;
      ParseAppend(front, last);
      ParseBound(last);
      ChunksAre(front, dpw);
      assert u[1..] == Chunks(front, dpw);
      NatStep(u, Pow10(dpw));
      assert forall i :: 1 <= i < |u| ==> u[i] == u[1..][i - 1];
    }
  }

  /**
    Digits are taken from the right, a segment's worth at a time.  The sign goes on whatever the last chunk is,
    before leading zero segments are removed; when that chunk is all zeros, the sign is gone with it.  So the
    number read is the number written exactly when that is not negative, or that chunk is not all zeros.
   */
  method IntegerC(lay: Layout, s: string) returns (r: seq<int>)
    requires lay.Valid() && Numeral(s)
    ensures Int(lay, r)
    ensures Val(lay, r) == ReadInteger(s, lay.dpw)
    ensures Val(lay, r) == Written(s) <==> !Minus(s) || Written(s) == 0 || Parse(TopChunk(NumeralDigits(s), lay.dpw)) != 0
  {
    hide Nat, Pow10, Parse, TopChunk, Chunks, NumeralDigits;
    var neg, ds := Minus(s), NumeralDigits(s);
    var ra := ReadChunks(lay.dpw, ds, neg);
    ChunksAre(ds, lay.dpw);
    r := Trimmed(lay, ra, Chunks(ds, lay.dpw), neg);
  }

  /** What is made of a numeral: its sign is lost with a top chunk of zeros. */
  function ReadInteger(s: string, dpw: nat): int
    requires Numeral(s) && dpw > 0
  {
    var n := Parse(NumeralDigits(s));
    if Minus(s) && Parse(TopChunk(NumeralDigits(s), dpw)) != 0 then 0 - n else n
  }

  /** An integer; or, with unknown digits and unless it has to be exact, a normalised inexact real. */
  ghost predicate ReadNumeral(lay: Layout, s: string, reqExact: bool, ans: Answer)
    requires lay.Valid() && Numeral(s)
  {
    if reqExact || '#' !in s then
      ans.Answer? && ans.n.Whole? && Int(lay, ans.n.a) && Val(lay, ans.n.a) == ReadInteger(s, lay.dpw)
    else
      exists u, res ::
        && CanonicalNat(u, lay.Base()) && Nat(u, lay.Base()) == Parse(NumeralDigits(s))
        && NormalisedTo(lay, Real(Minus(s), true, 0, u), res) && IsAnswer(ans, res)
  }

  /**
    The whole of the reader for numerals: exact ones, and all where an exact one is asked for, are integers.
    Others are inexact reals, and their sign, kept in a flag of its own, is not lost.
   */
  method NumeralC(lay: Layout, s: string, reqExact: bool) returns (ans: Answer)
    requires lay.Valid() && Numeral(s)
    ensures ReadNumeral(lay, s, reqExact, ans)
  {
    hide Nat, Pow10, Parse, TopChunk, Chunks, NumeralDigits, NormalisedTo;
    if reqExact || '#' !in s {
      var r := IntegerC(lay, s);
      return Answer(Whole(r));
    }
    var ds := NumeralDigits(s);
    var ra := ReadChunks(lay.dpw, ds, false);
    ChunksAre(ds, lay.dpw);
    var u := Trimmed(lay, ra, Chunks(ds, lay.dpw), false);
    BaseFacts(lay);
    NatNonNegative(Chunks(ds, lay.dpw), lay.Base());
    ValueSign(u, lay.Base());
    var res := Normalize(lay, Real(Minus(s), true, 0, u));
    ans := AsAnswer(res);
  }

  method ReadChunks(dpw: nat, ds: string, neg: bool) returns (ra: Bsa)
    requires dpw > 0 && AllDigits(ds) && ds != ""
    ensures fresh(ra)
    ensures ra.ae == SignTop(Chunks(ds, dpw), neg)
  {
    hide Parse, Chunks, SignTop, Signed;
    var nl := |ds|;
    ra := new Bsa(0);
    ghost var u := Chunks(ds, dpw);
    assert ds[..|ds|] == ds && ra.ae + u == u;
    while nl > 0
      invariant 0 <= nl <= |ds|
      invariant nl > 0 ==> ra.ae + Chunks(ds[..nl], dpw) == u
      invariant nl == 0 ==> ra.ae == SignTop(u, neg)
    {
      var eos := if nl < dpw then nl else dpw;
      var i: int := Parse(ds[nl - eos..nl]);
      ChunkStep(ds, dpw, nl, ra.ae);
      nl := nl - eos;
      if nl == 0 {
        TopSigned(ra.ae, i, neg);
        i := Signed(neg, i);
      }
      var _ := ra.Set(i, |ra.ae|);
    }
  }

  /** The next chunk from the right. */
  lemma ChunkStep(ds: string, dpw: nat, nl: nat, done: seq<int>)
    requires dpw > 0 && AllDigits(ds) && 0 < nl <= |ds|
    ensures nl <= dpw ==> Chunks(ds[..nl], dpw) == [Parse(ds[0..nl])]
    ensures nl > dpw ==> done + Chunks(ds[..nl], dpw) == done + [Parse(ds[nl - dpw..nl])] + Chunks(ds[..nl - dpw], dpw)
  {
    hide Parse;
    if nl > dpw {
      assert ds[..nl][nl - dpw..] == ds[nl - dpw..nl] && ds[..nl][..nl - dpw] == ds[..nl - dpw];
    } else {
      assert ds[0..nl] == ds[..nl];
    }
  }

  function Signed(neg: bool, x: int): int { if neg then 0 - x else x }

  /** The sign on the top segment. */
  function SignTop(u: seq<int>, neg: bool): seq<int>
    requires u != []
  {
    u[|u| - 1 := Signed(neg, u[|u| - 1])]
  }

  lemma TopSigned(done: seq<int>, x: int, neg: bool)
    ensures SignTop(done + [x], neg) == done + [Signed(neg, x)]
  {
  }

  method Trimmed(lay: Layout, ra: Bsa, ghost u: seq<int>, neg: bool) returns (r: seq<int>)
    requires lay.Valid() && u != [] && InBase(u, lay.Base())
    requires ra.ae == SignTop(u, neg)
    modifies ra
    ensures Int(lay, r)
    ensures Val(lay, r) == if neg && u[|u| - 1] != 0 then 0 - Nat(u, lay.Base()) else Nat(u, lay.Base())
  {
    hide Nat;
    BaseFacts(lay);
    if ra.ae[|ra.ae| - 1] == 0 {
      assert ra.ae == u;
      r := RemoveLeadingZeroes(ra, lay.Base());
    } else {
      r := ra.ae;
      assert Abs(r) == u;
    }
  }

  /** A text that loses its sign: minus one, with a zero in front of a full segment. */
  lemma SignLost(dpw: nat)
    requires dpw > 0
    ensures var s := "-0" + Padded(1, dpw);
      Numeral(s) && Minus(s) && Written(s) == -1 && ReadInteger(s, dpw) == 1
  {
    hide Parse, Padded;
    var ds := "0" + Padded(1, dpw);
    assert ("-0" + Padded(1, dpw))[1..] == ds;
    ParseZero();
    ParsePadded(1, dpw);
    ParseAppend("0", Padded(1, dpw));
    assert ds[..|ds| - dpw] == "0";
    assert TopChunk(ds, dpw) == TopChunk("0", dpw) == "0";
    assert NumeralDigits("-0" + Padded(1, dpw)) == ds;
  }

  lemma ParseZero()
    ensures AllDigits("0") && Parse("0") == 0
  {
    ParseLast("", '0');
    assert "" + ['0'] == "0";
  }

  /** The number read from the text of an integer is that integer. */
  lemma SameInteger(lay: Layout, a: seq<int>, s: string, r: seq<int>)
    requires lay.Valid() && Int(lay, a) && s == (if Negative(a) then "-" else "") + Decimal10(Size(lay, Abs(a)))
    requires Numeral(s) && Int(lay, r) && Val(lay, r) == ReadInteger(s, lay.dpw)
    ensures r == a
  {
    hide Nat, Parse, Pow10, Decimal10;
    BaseFacts(lay);
    var m := Decimal10(Size(lay, Abs(a)));
    TextOf(Size(lay, Abs(a)));
    assert Unsigned(s) == m;
    ValueSign(a, lay.Base());
    if Negative(a) {
      TopChunkPositive(m, lay.dpw);
    }
    CanonicalUnique(r, a, lay.Base());
  }

  lemma TopChunkPositive(m: string, dpw: nat)
    requires dpw > 0 && m != "" && AllDigits(m) && Parse(m) != 0 && (m[0] != '0' || |m| == 1)
    ensures Parse(TopChunk(m, dpw)) != 0
  {
    if m[0] != '0' {
      ParsePositive(TopChunk(m, dpw));
    }
  }
}
