/** Decimal text: writing numbers, with or without a width, and reading them back. */
module Numerals {

  import opened Decimal

  predicate IsDigit(c: char) { '0' <= c <= '9' }

  function DigitChar(d: nat): (c: char)
    requires d < 10
    ensures IsDigit(c) && c as int == '0' as int + d
  {
    '0' + d as char
  }

  function DigitOf(c: char): (d: nat)
    requires IsDigit(c)
    ensures d < 10 && DigitChar(d) == c
  {
    c as int - '0' as int
  }

  predicate AllDigits(s: string) {
    forall k :: 0 <= k < |s| ==> IsDigit(s[k])
  }

  /** The number a row of digits stands for. */
  function Parse(s: string): (n: nat)
    requires AllDigits(s)
    decreases |s|
  {
    if s == "" then 0 else Parse(s[..|s| - 1]) * 10 + DigitOf(s[|s| - 1])
  }

  /** A digit, or the mark for one that is not known. */
  predicate Figure(c: char) { IsDigit(c) || c == '#' }

  /** An unknown digit counts as five. */
  function Known(c: char): (d: char)
    requires Figure(c)
    ensures IsDigit(d) && d == if c == '#' then '5' else c
  {
    if c == '#' then '5' else c
  }

  predicate AllFigures(s: string) {
    forall k :: 0 <= k < |s| ==> Figure(s[k])
  }

  /** Figures with every unknown digit replaced. */
  function AllKnown(s: string): (ds: string)
    requires AllFigures(s)
    ensures AllDigits(ds) && |ds| == |s| && (AllDigits(s) ==> ds == s)
    ensures forall k :: 0 <= k < |s| ==> ds[k] == if s[k] == '#' then '5' else s[k]
  {
    seq(|s|, k requires 0 <= k < |s| => Known(s[k]))
  }

  /** A number in as many digits as it needs. */
  function Decimal10(n: nat): (s: string)
    ensures AllDigits(s) && |s| == Digits(n)
    decreases n
  {
    if n < 10 then [DigitChar(n)] else Decimal10(n / 10) + [DigitChar(n % 10)]
  }

  /** A number in exactly w digits, with zeros in front. */
  function Padded(n: nat, w: nat): (s: string)
    ensures AllDigits(s) && |s| == w
    decreases w
  {
    if w == 0 then "" else Padded(n / 10, w - 1) + [DigitChar(n % 10)]
  }

  lemma ParseLast(s: string, c: char)
    requires AllDigits(s) && IsDigit(c)
    ensures AllDigits(s + [c]) && Parse(s + [c]) == Parse(s) * 10 + DigitOf(c)
  {
    assert (s + [c])[..|s|] == s;
  }

  lemma {:induction false} ParseDecimal(n: nat)
    ensures Parse(Decimal10(n)) == n
    decreases n
  {
    if n < 10 {
      ParseLast("", DigitChar(n));
      assert "" + [DigitChar(n)] == Decimal10(n);
    } else {
      ParseDecimal(n / 10);
      ParseLast(Decimal10(n / 10), DigitChar(n % 10));
    }
  }

  lemma {:induction false} ParsePadded(n: nat, w: nat)
    requires n < Pow10(w)
    ensures Parse(Padded(n, w)) == n
    decreases w
  {
    if w > 0 {
      ParsePadded(n / 10, w - 1);
      ParseLast(Padded(n / 10, w - 1), DigitChar(n % 10));
    }
  }

  lemma {:induction false} ParseAppend(a: string, b: string)
    requires AllDigits(a) && AllDigits(b)
    ensures AllDigits(a + b) && Parse(a + b) == Parse(a) * Pow10(|b|) + Parse(b)
    decreases |b|
  {
    if b == "" {
      assert a + b == a;
    } else {
      var c, d := b[..|b| - 1], b[|b| - 1];
      ParseAppend(a, c);
      ParseLast(a + c, d);
      assert a + c + [d] == a + b;
      ShiftTen(Parse(a), Pow10(|c|), Parse(c), DigitOf(d));
    }
  }

  lemma ShiftTen(a: int, p: int, c: int, d: int)
    ensures (a * p + c) * 10 + d == a * (10 * p) + (c * 10 + d)
  {
  }

  lemma {:induction false} ParseBound(s: string)
    requires AllDigits(s)
    ensures Parse(s) < Pow10(|s|)
    decreases |s|
  {
    if s != "" {
      ParseBound(s[..|s| - 1]);
    }
  }

  lemma {:induction false} ParsePositive(s: string)
    requires AllDigits(s) && s != "" && s[0] != '0'
    ensures Parse(s) >= Pow10(|s| - 1)
    decreases |s|
  {
    if |s| > 1 {
      ParsePositive(s[..|s| - 1]);
    } else {
      assert s[..0] == "";
    }
  }

  lemma {:induction false} NoLeadingZero(n: nat)
    requires n > 0
    ensures Decimal10(n)[0] != '0'
    decreases n
  {
    if n >= 10 {
      NoLeadingZero(n / 10);
    }
  }

  /** Digits without a needless zero in front are the text of the number they stand for. */
  lemma {:induction false} OneText(s: string)
    requires AllDigits(s) && s != "" && (s[0] != '0' || |s| == 1)
    ensures Decimal10(Parse(s)) == s
    decreases |s|
  {
    var front := s[..|s| - 1];
    if |s| == 1 {
      assert front == "";
    } else {
      ParsePositive(front);
      OneText(front);
    }
  }

  /** The text of a number. */
  lemma TextOf(n: nat)
    ensures var s := Decimal10(n); s != "" && Parse(s) == n && (s[0] != '0' || |s| == 1)
  {
    ParseDecimal(n);
    if n > 0 {
      NoLeadingZero(n);
    }
  }
}
