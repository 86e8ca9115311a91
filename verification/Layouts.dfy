/** Machine layouts of bignum segments, and the growable segment array. */
module Layouts {
  import opened Decimal

  /** Digits per segment, segments kept in a real's significand, and the machine word's half range. */
  datatype Layout = Layout(dpw: nat, sigSegments: nat, word: nat) {
    ghost predicate Valid() {
      dpw >= 2 && sigSegments >= 1 && 2 * Pow10(dpw) <= word && sigSegments * dpw <= 0x7FFF_FFFF
    }

    function Base(): int {
      Pow10(dpw)
    }

    /** IDIO_BIGNUM_SIG_MAX_DIGITS */
    function MaxDigits(): nat {
      sigSegments * dpw
    }

    /** A machine-word computation: the verifier must show that x does not overflow. */
    function Word(x: int): int
      requires 0 - word <= x < word
    {
      x
    }
  }

  const LP64 := Layout(18, 1, 0x8000_0000_0000_0000)
  const ILP32 := Layout(9, 2, 0x8000_0000)

  lemma BaseFacts(lay: Layout)
    requires lay.Valid()
    ensures lay.Base() >= 100 && lay.Base() % 10 == 0 && 2 <= lay.MaxDigits() <= 0x7FFF_FFFF
  {
    assert Pow10(lay.dpw) == 10 * Pow10(lay.dpw - 1) == 100 * Pow10(lay.dpw - 2);
    MulMono(lay.dpw, 1, lay.sigSegments);
  }

  /** Both build layouts keep every segment computation inside the word, and both keep 18 digits. */
  lemma BothLayoutsValid()
    ensures LP64.Valid() && ILP32.Valid()
    ensures LP64.MaxDigits() == ILP32.MaxDigits() == 18
  {
    assert Pow10(9) == 1_000_000_000 by {
      assert Pow10(3) == 1000;
      assert Pow10(6) == 1000 * Pow10(3);
      assert Pow10(9) == 1000 * Pow10(6);
    }
    Pow10Add(9, 9);
  }

  /** A significand array under construction: reading or writing past one beyond its end is an error. */
  class Bsa {
    var ae: seq<int>

    constructor (n: nat)
      ensures ae == seq(n, _ => 0)
    {
      ae := seq(n, _ => 0);
    }

    method Set(v: int, i: nat) returns (ok: bool)
      modifies this
      ensures ok <==> i <= old(|ae|)
      ensures ae == (if i < old(|ae|) then old(ae)[i := v]
                     else if i == old(|ae|) then old(ae) + [v]
                     else old(ae))
    {
      if i >= |ae| {
        if i == |ae| {
          ae := ae + [v];
          return true;
        }
        return false;
      }
      ae := ae[i := v];
      return true;
    }

    method Pop() returns (ok: bool)
      modifies this
      ensures ok <==> old(|ae|) > 0
      ensures ae == if ok then old(ae)[..old(|ae|) - 1] else old(ae)
    {
      if |ae| > 0 {
        ae := ae[..|ae| - 1];
        return true;
      }
      return false;
    }
  }
}
