/** Printing reals in the default format, one digit before the point, and reading them back. */
module RealPrintRead {

  import opened Decimal
  import opened Numerals
  import opened Layouts
  import opened Segments
  import opened Integers
  import opened LongArithmetic
  import opened Rounding
  import opened Reals
  import opened RealOrder
  import opened PrintRead
  import opened Numbers

  // Printing

  function SignText(neg: bool): string { if neg then "-" else "" }

  /** A number with its sign always written. */
  function PlusMinus(e: int): (s: string)
    ensures Numeral(s) && s[0] == (if 0 <= e then '+' else '-') && s[1..] == Decimal10(if 0 <= e then e else 0 - e)
  {
    if e < 0 then "-" + Decimal10(0 - e) else "+" + Decimal10(e)
  }

  /** What stands after the point: the other digits, or a zero if there are none. */
  function Fraction(m: string): string
    requires m != ""
  {
    if |m| == 1 then "0" else m[1..]
  }

  /** The text of a real whose significand has the digits m: d.ddd e and the exponent of the first digit. */
  function RealText(neg: bool, m: string, e: int): string
    requires m != ""
  {
    SignText(neg) + m[..1] + "." + Fraction(m) + "e" + PlusMinus(e)
  }

  method RealAsString(lay: Layout, r: Real) returns (s: string)
    requires lay.Valid() && WellFormed(lay, r)
    ensures Decimal10(Mag(lay, r)) != ""
    ensures s == (if r.inexact then "#i" else "") + RealText(NegativeP(r), Decimal10(Mag(lay, r)), Wrap32(r.exp + Digits(Mag(lay, r)) - 1))
  {
    hide Nat, Parse, Digits;
    BaseFacts(lay);
    NatNonNegative(r.sig, lay.Base());
    var digits := CountDigits(lay, r.sig);
    var text := UnsignedAsString(lay, r.sig);
    TextOf(Mag(lay, r));
    var prefix := if r.inexact then "#i" else "";
    s := SignText(NegativeP(r));
    s := s + text[..1] + ".";
    if |text| > 1 {
      s := s + text[1..];
    } else {
      s := s + "0";
    }
    s := prefix + (s + "e" + PlusMinus(Wrap32(r.exp + digits - 1)));
  }

  // Reading

  predicate ExpChar(c: char) {
    'd' == c || 'D' == c || 'e' == c || 'E' == c || 'f' == c || 'F' == c || 'l' == c || 'L' == c || 's' == c || 'S' == c
  }

  predicate Mantissa(c: char) { Figure(c) || c == '.' }

  /** The characters a mantissa has, and those an exponent starts with. */
  lemma Characters(c: char)
    ensures Mantissa(c) <==> c in "0123456789#."
    ensures ExpChar(c) <==> c in "dDeEfFlLsS"
  {
  }

  /** The digits of a mantissa, without its point. */
  function DigitsIn(s: string): (r: string)
    ensures AllDigits(r)
    decreases |s|
  {
    if s == "" then ""
    else if Figure(s[|s| - 1]) then DigitsIn(s[..|s| - 1]) + [Known(s[|s| - 1])]
    else DigitsIn(s[..|s| - 1])
  }

  /** How many digits follow a point. */
  function Places(s: string): (n: nat)
    ensures n <= |s|
    decreases |s|
  {
    if s == "" then 0
    else if Figure(s[|s| - 1]) && '.' in s[..|s| - 1] then Places(s[..|s| - 1]) + 1
    else Places(s[..|s| - 1])
  }

  lemma MantissaStep(s: string, c: char)
    ensures Figure(c) ==> DigitsIn(s + [c]) == DigitsIn(s) + [Known(c)] && Places(s + [c]) == Places(s) + if '.' in s then 1 else 0
    ensures !Figure(c) ==> DigitsIn(s + [c]) == DigitsIn(s) && Places(s + [c]) == Places(s)
  {
    assert (s + [c])[..|s|] == s;
  }

  /** One more digit: the significand is shifted left and the digit added. */
  method AppendFigure(lay: Layout, sig: seq<int>, c: char, ghost part: string) returns (r: seq<int>)
    requires lay.Valid() && CanonicalNat(sig, lay.Base()) && Figure(c) && Nat(sig, lay.Base()) == Parse(DigitsIn(part))
    ensures CanonicalNat(r, lay.Base()) && Nat(r, lay.Base()) == Parse(DigitsIn(part + [c]))
  {
    hide Nat, Parse, DigitsIn, Places;
    MantissaStep(part, c);
    ParseLast(DigitsIn(part), Known(c));
    r := ShiftLeft(lay, sig, 0);
    r := AddDigit(lay, r, DigitOf(Known(c)));
  }

  /** Digit by digit; after the point the exponent goes down. */
  method ReadMantissa(lay: Layout, s: string, start: nat) returns (sig: seq<int>, exp: int, i: nat, exact: bool)
    requires lay.Valid() && start <= |s|
    ensures start <= i <= |s| && (forall k :: start <= k < i ==> Mantissa(s[k])) && (i < |s| ==> !Mantissa(s[i]))
    ensures CanonicalNat(sig, lay.Base()) && Nat(sig, lay.Base()) == Parse(DigitsIn(s[start..i]))
    ensures exp == 0 - Places(s[start..i]) && exact == ('#' !in s[start..i])
  {
    hide Nat, Parse, DigitsIn, Places, CanonicalNat;
    sig, exp, i, exact := [0], 0, start, true;
    var found := false;
    ghost var part := "";
    StartMantissa(lay);
    while i < |s| && Mantissa(s[i])
      invariant start <= i <= |s| && part == s[start..i]
      invariant forall k :: start <= k < i ==> Mantissa(s[k])
      invariant found == ('.' in part) && exact == ('#' !in part)
      invariant CanonicalNat(sig, lay.Base()) && Nat(sig, lay.Base()) == Parse(DigitsIn(part)) && exp == 0 - Places(part)
    {
      MantissaStep(part, s[i]);
      MoreIn(part, s[i]);
      if s[i] == '.' {
        found := true;
      } else {
        if found {
          exp := exp - 1;
        }
        sig := AppendFigure(lay, sig, s[i], part);
        if s[i] == '#' {
          exact := false;
        }
      }
      part := part + [s[i]];
      assert part == s[start..i + 1];
      i := i + 1;
    }
  }

  lemma MoreIn(part: string, c: char)
    ensures '.' in part + [c] <==> '.' in part || c == '.'
    ensures '#' in part + [c] <==> '#' in part || c == '#'
  {
  }

  lemma StartMantissa(lay: Layout)
    requires lay.Valid()
    ensures CanonicalNat([0], lay.Base()) && Nat([0], lay.Base()) == 0 && Parse(DigitsIn("")) == 0 && Places("") == 0
  {
    BaseFacts(lay);
    NatOfOne([0], lay.Base());
  }

  method AddDigit(lay: Layout, a: seq<int>, d: nat) returns (r: seq<int>)
    requires lay.Valid() && CanonicalNat(a, lay.Base()) && d < 10
    ensures CanonicalNat(r, lay.Base()) && Nat(r, lay.Base()) == Nat(a, lay.Base()) + d
  {
    hide Nat;
    BaseFacts(lay);
    NatOfOne([d], lay.Base());
    assert Abs(a) == a && Abs([d]) == [d];
    ValueSign(a, lay.Base());
    ValueSign([d], lay.Base());
    r := Add(lay, a, [d]);
    ValueSign(r, lay.Base());
  }

  /** The exponent written after the mantissa, added to the one counted. */
  method AddExponent(exp: int, expV: int) returns (e: int, overflow: int)
    requires BE_MIN <= exp <= 0
    ensures overflow == if expV > BE_MAX then 1 else if expV < 0 && exp + expV < BE_MIN then -1 else 0
    ensures overflow == 0 ==> e == exp + expV
  {
    e, overflow := exp, 0;
    if expV > 0 {
      if expV > BE_MAX {
        overflow := 1;
      } else {
        e := exp + expV;
      }
    } else if expV < 0 {
      if expV < BE_MIN {
        overflow := -1;
      } else if exp < 0 && 0 - expV > 0 - (BE_MIN - exp) {
        overflow := -1;
      } else {
        e := exp + expV;
      }
    }
  }

  /** The number an integer's segments hold. */
  method IntegerValue(lay: Layout, a: seq<int>) returns (v: int)
    requires lay.Valid() && Int(lay, a)
    ensures v == Val(lay, a)
  {
    hide Nat;
    BaseFacts(lay);
    ValueSign(a, lay.Base());
    var u := Abs(a);
    v := 0;
    var i := |u|;
    NatEmpty(lay.Base());
    assert u[|u|..] == [];
    while i > 0
      invariant 0 <= i <= |u| && v == Nat(u[i..], lay.Base())
    {
      i := i - 1;
      assert u[i..][1..] == u[i + 1..];
      NatStep(u[i..], lay.Base());
      v := v * lay.Base() + u[i];
    }
    assert u[0..] == u;
    if Negative(a) {
      v := 0 - v;
    }
  }

  lemma NatEmpty(base: int)
    ensures Nat([], base) == 0
  {
  }

  /** The normalised real with a given significand and exponent. */
  ghost predicate ReadAs(lay: Layout, neg: bool, inexact: bool, x: nat, exp: int, res: Outcome)
    requires lay.Valid()
  {
    var k := Dropped(x, lay.MaxDigits());
    if x > 0 && exp + k > BE_MAX then res.ExponentOverflow?
    else res.Ok? && res.r == Real(neg, inexact, if x == 0 then 0 else exp + k, res.r.sig)
         && CanonicalNat(res.r.sig, lay.Base()) && Mag(lay, res.r) == Lead(x, k)
  }

  /** What is made of the significand x and the exponent e read for a mantissa with some decimal places. */
  ghost predicate ReadReal(lay: Layout, neg: bool, inexact: bool, x: nat, e: int, places: nat, res: Outcome)
    requires lay.Valid()
  {
    && (e > BE_MAX ==> res == ExponentOverflow)
    && (e < 0 && e - places < BE_MIN ==> res == ExponentUnderflow)
    && (e <= BE_MAX && (e >= 0 || e - places >= BE_MIN) ==> ReadAs(lay, neg, inexact, x, e - places, res))
  }

  lemma NormalisedReads(lay: Layout, neg: bool, inexact: bool, sig: seq<int>, exp: int, x: nat, res: Outcome)
    requires lay.Valid() && CanonicalNat(sig, lay.Base()) && BE_MIN <= exp <= BE_MAX && Nat(sig, lay.Base()) == x
    requires NormalisedTo(lay, Real(neg, inexact, exp, sig), res)
    ensures ReadAs(lay, neg, inexact, x, exp, res)
  {
    hide Nat, Dropped, Lead;
  }

  /** A sign, if any. */
  method ReadSign(s: string, ghost sign: string, ghost mant: string, ghost exponent: string) returns (start: nat, minus: bool)
    requires s == sign + mant + exponent && sign in {"", "+", "-"} && mant != "" && Mantissa(mant[0])
    ensures start == |sign| && minus == (sign == "-")
  {
    start, minus := 0, false;
    assert sign != "" ==> s[0] == sign[0];
    assert sign == "" ==> s[0] == mant[0];
    if s[0] == '+' {
      start := 1;
    } else if s[0] == '-' {
      start, minus := 1, true;
    }
  }

  /** The exponent read from what follows the mantissa. */
  function Exponent(tail: string, dpw: nat): int
    requires dpw > 0 && (tail == "" || (ExpChar(tail[0]) && Numeral(tail[1..])))
  {
    if tail == "" then 0 else ReadInteger(tail[1..], dpw)
  }

  method ReadExponent(lay: Layout, s: string, i: nat, exp: int) returns (e: int, overflow: int)
    requires lay.Valid() && i <= |s| && BE_MIN <= exp <= 0
    requires s[i..] == "" || (ExpChar(s[i..][0]) && Numeral(s[i..][1..]))
    ensures var v := Exponent(s[i..], lay.dpw);
      overflow == (if v > BE_MAX then 1 else if v < 0 && exp + v < BE_MIN then -1 else 0) && (overflow == 0 ==> e == exp + v)
  {
    hide Nat, Parse, Numeral, Minus, TopChunk, Unsigned;
    e, overflow := exp, 0;
    if i < |s| && ExpChar(s[i]) {
      assert s[i + 1..] == s[i..][1..];
      var n := IntegerC(lay, s[i + 1..]);
      var expV := IntegerValue(lay, n);
      e, overflow := AddExponent(exp, expV);
    }
  }

  /** A sign, a mantissa, and an exponent if there is an exponent character. */
  method RealC(lay: Layout, s: string, ghost sign: string, ghost mant: string, ghost exponent: string) returns (res: Outcome)
    requires lay.Valid() && s == sign + mant + exponent && sign in {"", "+", "-"} && Places(mant) <= 0x8000_0000
    requires mant != "" && forall k :: 0 <= k < |mant| ==> Mantissa(mant[k])
    requires exponent == "" || (ExpChar(exponent[0]) && Numeral(exponent[1..]))
    ensures var x, e := Parse(DigitsIn(mant)), Exponent(exponent, lay.dpw);
      ReadReal(lay, sign == "-", '#' in mant, x, e, Places(mant), res)
  {
    hide Nat, Parse, DigitsIn, Places, ReadAs, Exponent, NormalisedTo, Mantissa;
    var start, minus := ReadSign(s, sign, mant, exponent);
    var sig, exp, i, exact := ReadMantissa(lay, s, start);
    ScannedAll(s, sign, mant, exponent, start, i);
    var overflow;
    exp, overflow := ReadExponent(lay, s, i, exp);
    if overflow == -1 {
      return ExponentUnderflow;
    } else if overflow == 1 {
      return ExponentOverflow;
    }
    res := Normalize(lay, Real(minus, !exact, exp, sig));
    NormalisedReads(lay, minus, !exact, sig, exp, Parse(DigitsIn(mant)), res);
  }

  /** The scan stops just where the mantissa ends. */
  lemma ScannedAll(s: string, sign: string, mant: string, exponent: string, start: nat, i: nat)
    requires s == sign + mant + exponent && mant != "" && (forall k :: 0 <= k < |mant| ==> Mantissa(mant[k]))
    requires exponent == "" || ExpChar(exponent[0])
    requires start == |sign|
    requires start <= i <= |s| && (forall k :: start <= k < i ==> Mantissa(s[k])) && (i < |s| ==> !Mantissa(s[i]))
    ensures i == start + |mant| && s[start..i] == mant && s[i..] == exponent
  {
    var n := start + |mant|;
    assert forall k :: start <= k < n ==> s[k] == mant[k - start];
    assert forall k :: start <= k < n ==> Mantissa(s[k]);
    assert exponent != "" ==> s[n] == exponent[0];
  }

  // Round trip

  /** The text printed is a sign, a mantissa and an exponent, and each reads back as what it was. */
  lemma MantissaText(m: string)
    requires m != "" && AllDigits(m)
    ensures var mant := m[..1] + "." + Fraction(m);
      && '#' !in mant && mant != "" && (forall k :: 0 <= k < |mant| ==> Mantissa(mant[k]))
      && DigitsIn(mant) == m[..1] + Fraction(m) && Places(mant) == |Fraction(m)|
  {
    var f := Fraction(m);
    MantissaStep("", m[0]);
    assert "" + [m[0]] == m[..1];
    MantissaStep(m[..1], '.');
    assert m[..1] + ['.'] == m[..1] + ".";
    FractionDigits(m[..1] + ".", f);
    assert '.' in m[..1] + "." by { assert (m[..1] + ".")[1] == '.'; }
  }

  lemma {:induction false} FractionDigits(front: string, f: string)
    requires AllDigits(f)
    ensures DigitsIn(front + f) == DigitsIn(front) + f
    ensures '.' in front ==> Places(front + f) == Places(front) + |f|
    decreases |f|
  {
    hide DigitsIn, Places;
    if f == "" {
      assert front + f == front;
    } else {
      var g, c := f[..|f| - 1], f[|f| - 1];
      FractionDigits(front, g);
      MantissaStep(front + g, c);
      assert front + g + [c] == front + f && g + [c] == f;
    }
  }

  lemma ExponentText(e: int, dpw: nat)
    requires dpw > 0
    ensures Numeral(PlusMinus(e)) && ReadInteger(PlusMinus(e), dpw) == e
  {
    hide Parse;
    var n := if e < 0 then 0 - e else e;
    ParseDecimal(n);
    assert Unsigned(PlusMinus(e)) == Decimal10(n);
    if e < 0 {
      NoLeadingZero(n);
      TopChunkPositive(Decimal10(n), dpw);
    }
  }

  /** With a zero appended to a single digit, the significand is ten times as large; normalising takes the zero off again. */
  lemma OneDigit(d: nat, max: nat)
    requires d < 10 && max >= 2
    ensures Lead(10 * d, Dropped(10 * d, max)) == d && (d > 0 ==> Dropped(10 * d, max) == 1)
  {
    if d > 0 {
      assert Digits(10 * d) == 2 && Excess(10 * d, max) == 0;
      assert Lead(10 * d, 0) == 10 * d;
      assert Zeros(10 * d) == 1 + Zeros(d) && Zeros(d) == 0;
      assert Lead(10 * d, 1) == Lead(d, 0);
    }
  }

  lemma DigitsRead(lay: Layout, m: string)
    requires m != "" && AllDigits(m)
    ensures var f := m[..1] + Fraction(m); AllDigits(f) && Parse(f) == if |m| == 1 then 10 * Parse(m) else Parse(m)
  {
    if |m| == 1 {
      assert m[..1] == m;
      ParseLast(m, '0');
      assert m + ['0'] == m + "0";
    } else {
      assert m[..1] + m[1..] == m;
    }
  }

  lemma SameReal(lay: Layout, r: Real, res: Outcome)
    requires lay.Valid() && Normal(lay, r) && !r.inexact && res.Ok?
    requires res.r == Real(r.neg, false, r.exp, res.r.sig) && CanonicalNat(res.r.sig, lay.Base()) && Mag(lay, res.r) == Mag(lay, r)
    ensures res == Ok(r)
  {
    hide Nat;
    BaseFacts(lay);
    CanonicalNatUnique(res.r.sig, r.sig, lay.Base());
  }

  lemma ManyDigitsBack(lay: Layout, r: Real, res: Outcome)
    requires lay.Valid() && Normal(lay, r) && !r.inexact && Digits(Mag(lay, r)) > 1
    requires ReadAs(lay, r.neg, false, Mag(lay, r), r.exp, res)
    ensures res == Ok(r)
  {
    hide Nat, Lead, Dropped;
    assert Mag(lay, r) > 0;
    DroppedNone(Mag(lay, r), lay.MaxDigits());
    LeadNone(Mag(lay, r));
    SameReal(lay, r, res);
  }

  lemma OneDigitBack(lay: Layout, r: Real, res: Outcome)
    requires lay.Valid() && Normal(lay, r) && !r.inexact && Digits(Mag(lay, r)) == 1
    requires ReadAs(lay, r.neg, false, 10 * Mag(lay, r), r.exp - 1, res)
    ensures res == Ok(r)
  {
    hide Nat, Lead, Dropped;
    SmallDigit(Mag(lay, r));
    OneDigit(Mag(lay, r), lay.MaxDigits());
    SameReal(lay, r, res);
  }

  lemma ReadBack(lay: Layout, r: Real, res: Outcome)
    requires lay.Valid() && Normal(lay, r) && !r.inexact
    requires BE_MIN <= r.exp + Digits(Mag(lay, r)) - 1 <= BE_MAX
    requires var d := Digits(Mag(lay, r));
      ReadReal(lay, r.neg, false, if d == 1 then 10 * Mag(lay, r) else Mag(lay, r), r.exp + d - 1, if d == 1 then 1 else d - 1, res)
    ensures if Digits(Mag(lay, r)) == 1 && r.exp == BE_MIN then res == ExponentUnderflow else res == Ok(r)
  {
    hide Nat, Digits, ReadAs;
    if Digits(Mag(lay, r)) > 1 {
      ManyDigitsBack(lay, r, res);
    } else if r.exp > BE_MIN {
      OneDigitBack(lay, r, res);
    }
  }

  lemma SignOnly(lay: Layout, r: Real, neg: bool)
    requires lay.Valid() && Normal(lay, r)
    ensures Normal(lay, r.(neg := neg)) && Mag(lay, r.(neg := neg)) == Mag(lay, r)
  {
  }

  /** The three parts of the text printed. */
  lemma PartsOf(neg: bool, m: string, e: int)
    requires m != ""
    ensures RealText(neg, m, e) == SignText(neg) + (m[..1] + "." + Fraction(m)) + ("e" + PlusMinus(e))
    ensures ("e" + PlusMinus(e))[1..] == PlusMinus(e) && SignText(neg) in {"", "+", "-"} && (SignText(neg) == "-" <==> neg)
  {
    hide PlusMinus, Fraction;
    Regroup(SignText(neg), m[..1], ".", Fraction(m), "e", PlusMinus(e));
  }

  lemma Regroup(a: string, b: string, c: string, d: string, e: string, f: string)
    ensures a + b + c + d + e + f == a + (b + c + d) + (e + f)
  {
    assert a + b + c == a + (b + c);
    assert a + b + c + d == a + (b + c + d);
  }

  /**
    An exact normal real whose exponent can be printed reads back as itself, without the sign of a zero: all but
    those of one digit with the smallest exponent.  Their printed zero counts as a decimal place, and the reader
    calls that an underflow.
   */
  method PrintThenReadReal(lay: Layout, r: Real) returns (s: string, ans: Answer)
    requires lay.Valid() && Normal(lay, r) && !r.inexact
    requires BE_MIN <= r.exp + Digits(Mag(lay, r)) - 1 <= BE_MAX
    ensures ans == if Digits(Mag(lay, r)) == 1 && r.exp == BE_MIN then Failure(ExponentUnderflow) else Answer(Fractional(r.(neg := NegativeP(r))))
  {
    hide Nat, Parse, Digits, DigitsIn, Places, ReadAs, ReadReal, Mag, RealText, PlusMinus, SignText, Numeral, Mantissa, Pointed, IsAnswer, NegativeP, Figure, Decimal10, Unsigned;
    s := RealAsString(lay, r);
    ghost var m := Decimal10(Mag(lay, r));
    TextOf(Mag(lay, r));
    ghost var e := r.exp + |m| - 1;
    PartsOf(NegativeP(r), m, e);
    MantissaText(m);
    ExponentText(e, lay.dpw);
    DigitsRead(lay, m);
    ghost var mant, exponent := m[..1] + "." + Fraction(m), "e" + PlusMinus(e);
    PointIn(SignText(NegativeP(r)), m[..1], Fraction(m), exponent);
    ans := ReadNumber(lay, s, SignText(NegativeP(r)), mant, exponent);
    SignOnly(lay, r, NegativeP(r));
    AnswerBack(lay, r.(neg := NegativeP(r)), Parse(DigitsIn(mant)), e, Places(mant), ans);
  }

  lemma AnswerBack(lay: Layout, r: Real, x: nat, e: int, places: nat, ans: Answer)
    requires lay.Valid() && Normal(lay, r) && !r.inexact && BE_MIN <= e <= BE_MAX
    requires var d := Digits(Mag(lay, r));
      x == (if d == 1 then 10 * Mag(lay, r) else Mag(lay, r)) && e == r.exp + d - 1 && places == if d == 1 then 1 else d - 1
    requires exists res :: ReadReal(lay, r.neg, false, x, e, places, res) && IsAnswer(ans, res)
    ensures ans == if Digits(Mag(lay, r)) == 1 && r.exp == BE_MIN then Failure(ExponentUnderflow) else Answer(Fractional(r))
  {
    hide Digits, ReadReal, Nat;
    var res :| ReadReal(lay, r.neg, false, x, e, places, res) && IsAnswer(ans, res);
    ReadBack(lay, r, res);
  }

  lemma PointIn(sign: string, d: string, f: string, exponent: string)
    ensures Pointed(sign + (d + "." + f) + exponent)
  {
    assert (sign + (d + "." + f) + exponent)[|sign| + |d|] == '.';
  }

  /** Every canonical integer reads back as itself. */
  method PrintThenReadInteger(lay: Layout, a: seq<int>) returns (s: string, ans: Answer)
    requires lay.Valid() && Int(lay, a)
    ensures ans == Answer(Whole(a))
  {
    hide Nat, Parse, Pow10, Decimal10, Numeral, TopChunk, NumberText, Pointed;
    BaseFacts(lay);
    s := IntegerAsString(lay, a);
    ghost var m := Decimal10(Size(lay, Abs(a)));
    TextOf(Size(lay, Abs(a)));
    IntegerText(Negative(a), m);
    assert s == SignText(Negative(a)) + m;
    ans := ReadNumber(lay, s, SignText(Negative(a)), m, "");
    SameInteger(lay, a, s, ans.n.a);
  }

  lemma SmallDigit(n: nat)
    requires Digits(n) == 1
    ensures n < 10
  {
  }

  // Either kind of number

  predicate Pointed(s: string) {
    exists k :: 0 <= k < |s| && s[k] in ".dDeEfFlLsS"
  }

  /** Sign, mantissa and exponent, as far as the readers look. */
  ghost predicate NumberText(s: string, sign: string, mant: string, exponent: string) {
    && s == sign + mant + exponent && sign in {"", "+", "-"} && Places(mant) <= 0x8000_0000
    && mant != "" && (forall k :: 0 <= k < |mant| ==> Mantissa(mant[k]))
    && (exponent == "" || (ExpChar(exponent[0]) && Numeral(exponent[1..])))
  }

  /** A text without point and exponent character is a numeral. */
  lemma PlainNumeral(s: string, sign: string, mant: string, exponent: string)
    requires NumberText(s, sign, mant, exponent) && !Pointed(s)
    ensures Numeral(s)
  {
    assert forall k :: 0 <= k < |exponent| ==> s[|sign| + |mant| + k] == exponent[k];
    assert forall k :: 0 <= k < |mant| ==> s[|sign| + k] == mant[k];
    assert forall k :: 0 <= k < |mant| ==> Figure(mant[k]);
    assert Unsigned(s) == mant;
  }

  /** A point or an exponent character anywhere makes it a real. */
  method ReadNumber(lay: Layout, s: string, ghost sign: string, ghost mant: string, ghost exponent: string) returns (ans: Answer)
    requires lay.Valid() && NumberText(s, sign, mant, exponent)
    ensures Pointed(s) ==> exists res ::
      ReadReal(lay, sign == "-", '#' in mant, Parse(DigitsIn(mant)), Exponent(exponent, lay.dpw), Places(mant), res) && IsAnswer(ans, res)
    ensures !Pointed(s) ==> Numeral(s) && ReadNumeral(lay, s, false, ans)
  {
    hide ReadReal, ReadNumeral, Places, DigitsIn, Parse;
    var i := 0;
    while i < |s|
      invariant 0 <= i <= |s|
      invariant forall k :: 0 <= k < i ==> s[k] != '.' && !ExpChar(s[k])
    {
      if s[i] == '.' || ExpChar(s[i]) {
        var res := RealC(lay, s, sign, mant, exponent);
        return AsAnswer(res);
      }
      i := i + 1;
    }
    PlainNumeral(s, sign, mant, exponent);
    ans := NumeralC(lay, s, false);
  }

  /** The text of an integer has neither. */
  lemma IntegerText(neg: bool, m: string)
    requires m != "" && AllDigits(m)
    ensures var s := SignText(neg) + m; NumberText(s, SignText(neg), m, "") && !Pointed(s) && '#' !in s
  {
    var s := SignText(neg) + m;
    assert s == SignText(neg) + m + "";
    assert forall k :: 0 <= k < |m| ==> Mantissa(m[k]) && m[k] != '.';
    NoPlaces(m);
  }

  lemma {:induction false} NoPlaces(m: string)
    requires '.' !in m
    ensures Places(m) == 0
    decreases |m|
  {
    if m != "" {
      NoPlaces(m[..|m| - 1]);
    }
  }

  method PrintThenReadNumber(lay: Layout, x: Number) returns (s: string, ans: Answer)
    requires lay.Valid() && (x.Whole? ==> Int(lay, x.a))
    requires x.Fractional? ==> Normal(lay, x.r) && !x.r.inexact && BE_MIN <= x.r.exp + Digits(Mag(lay, x.r)) - 1 <= BE_MAX
    ensures x.Whole? ==> ans == Answer(x)
    ensures x.Fractional? ==> ans == if Digits(Mag(lay, x.r)) == 1 && x.r.exp == BE_MIN then Failure(ExponentUnderflow)
                                     else Answer(Fractional(x.r.(neg := NegativeP(x.r))))
  {
    if x.Whole? {
      s, ans := PrintThenReadInteger(lay, x.a);
    } else {
      s, ans := PrintThenReadReal(lay, x.r);
    }
  }

  /** The real of one digit with the smallest exponent: normal, printed, and read as an underflow. */
  method SmallestUnread(lay: Layout) returns (s: string, ans: Answer)
    requires lay.Valid()
    ensures Normal(lay, Real(false, false, BE_MIN, [1])) && ans == Failure(ExponentUnderflow)
  {
    OneNormal(lay);
    s, ans := PrintThenReadReal(lay, Real(false, false, BE_MIN, [1]));
  }

  lemma OneNormal(lay: Layout)
    requires lay.Valid()
    ensures Normal(lay, Real(false, false, BE_MIN, [1])) && Digits(Mag(lay, Real(false, false, BE_MIN, [1]))) == 1
    ensures Normal(lay, Real(true, false, 0, [0])) && Digits(Mag(lay, Real(true, false, 0, [0]))) == 1
  {
    hide Nat, Pow10;
    BaseFacts(lay);
    NatOfOne([1], lay.Base());
    NatOfOne([0], lay.Base());
    assert Digits(1) == 1 && Digits(0) == 1;
  }

  /** A zero that has a sign loses it. */
  method ZeroSignLost(lay: Layout) returns (s: string, ans: Answer)
    requires lay.Valid()
    ensures Normal(lay, Real(true, false, 0, [0])) && ans == Answer(Fractional(Real(false, false, 0, [0])))
  {
    OneNormal(lay);
    s, ans := PrintThenReadReal(lay, Real(true, false, 0, [0]));
  }
}
