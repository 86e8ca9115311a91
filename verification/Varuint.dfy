/**
  Operand encodings of the byte code: the variable-length unsigned integer, which is SQLite4's, and
  the fixed-width big-endian one.
 */
module Varuint {

  import opened Options

  type byte = b: int | 0 <= b < 256

  const U64: int := 0x1_0000_0000_0000_0000

  /** The low k bytes of n, most significant first. */
  function Big(n: nat, k: nat): (s: seq<byte>)
    ensures |s| == k
    decreases k
  {
    if k == 0 then [] else Big(n / 256, k - 1) + [n % 256]
  }

  /** The number of bytes that follow the first byte when the operand is above 67823. */
  function Width(n: nat): (k: nat)
    ensures 3 <= k <= 8
  {
    if n <= 16777215 then 3
    else if n <= 4294967295 then 4
    else if n <= 1099511627775 then 5
    else if n <= 281474976710655 then 6
    else if n <= 72057594037927935 then 7
    else 8
  }

  /** The encoding as a value; ComputeVaruint is the code that builds it. */
  function Encode(n: nat): (s: seq<byte>)
    ensures 1 <= |s| <= 9
  {
    if n <= 240 then [n]
    else if n <= 2287 then [(n - 240) / 256 + 241, (n - 240) % 256]
    else if n <= 67823 then [249, (n - 2288) / 256, (n - 2288) % 256]
    else [247 + Width(n)] + Big(n, Width(n))
  }

  /** k bytes read from position pc, each shifted in from the right. */
  function ReadBig(code: seq<byte>, pc: nat, k: nat): (n: nat)
    requires pc + k <= |code|
    decreases k
  {
    if k == 0 then 0 else ReadBig(code, pc, k - 1) * 256 + code[pc + k - 1]
  }

  /** How many bytes an encoding has, from its first byte. */
  function Length(first: byte): (k: nat)
    ensures 1 <= k <= 9
  {
    if first <= 240 then 1 else if first <= 248 then 2 else if first == 249 then 3 else first - 246
  }

  /** The operand at pc and the position after it; None when the code ends first. */
  function Read(code: seq<byte>, pc: nat): (r: Option<(nat, nat)>)
    ensures r.Some? ==> pc < r.value.1 <= |code|
  {
    if pc >= |code| || pc + Length(code[pc]) > |code| then None
    else
      var first := code[pc];
      var next := pc + Length(first);
      if first <= 240 then Some((first, next))
      else if first <= 248 then var n: nat := 240 + 256 * (first as int - 241) + code[pc + 1] as int; Some((n, next))
      else if first == 249 then var n: nat := 2288 + 256 * code[pc + 1] as int + code[pc + 2] as int; Some((n, next))
      else Some((ReadBig(code, pc + 1, first - 247), next))
  }

  /** The bytes stand in the code from position pc on. */
  ghost predicate At(code: seq<byte>, pc: nat, bytes: seq<byte>) {
    pc + |bytes| <= |code| && forall i {:trigger bytes[i]} :: 0 <= i < |bytes| ==> code[pc + i] == bytes[i]
  }

  lemma AtSplit(code: seq<byte>, pc: nat, a: seq<byte>, b: seq<byte>)
    requires At(code, pc, a + b)
    ensures At(code, pc, a) && At(code, pc + |a|, b)
  {
    forall i | 0 <= i < |a| ensures code[pc + i] == a[i] {
      assert (a + b)[i] == a[i];
    }
    forall i | 0 <= i < |b| ensures code[pc + |a| + i] == b[i] {
      assert (a + b)[|a| + i] == b[i];
    }
  }

  function Power256(k: nat): (p: nat)
    ensures p >= 1
  {
    if k == 0 then 1 else 256 * Power256(k - 1)
  }

  lemma PowersOf256()
    ensures Power256(3) == 16777216
    ensures Power256(4) == 4294967296
    ensures Power256(5) == 1099511627776
    ensures Power256(6) == 281474976710656
    ensures Power256(7) == 72057594037927936
    ensures Power256(8) == U64
  {
    assert Power256(1) == 256;
    assert Power256(2) == 65536;
  }

  lemma WidthFits(n: nat)
    requires n < U64
    ensures n < Power256(Width(n))
    ensures Width(n) > 3 ==> n >= Power256(Width(n) - 1)
  {
    PowersOf256();
  }

  lemma {:induction false} ReadBigAt(code: seq<byte>, pc: nat, n: nat, k: nat)
    requires At(code, pc, Big(n, k)) && n < Power256(k)
    ensures ReadBig(code, pc, k) == n
    decreases k
  {
    if k > 0 {
      AtSplit(code, pc, Big(n / 256, k - 1), [n % 256]);
      assert code[pc + (k - 1) + 0] == [n % 256][0];
      ReadBigAt(code, pc, n / 256, k - 1);
    }
  }

  /** An encoding placed anywhere, before any following bytes, reads back as its number and stops at its end. */
  lemma ReadEncode(code: seq<byte>, pc: nat, n: nat)
    requires n < U64 && At(code, pc, Encode(n))
    ensures Read(code, pc) == Some((n, pc + |Encode(n)|))
  {
    var s := Encode(n);
    assert code[pc + 0] == s[0];
    if 240 < n <= 67823 {
      assert code[pc + 1] == s[1];
      if 2287 < n {
        assert code[pc + 2] == s[2];
      }
    } else if 67823 < n {
      WidthFits(n);
      AtSplit(code, pc, [247 + Width(n)], Big(n, Width(n)));
      ReadBigAt(code, pc + 1, n, Width(n));
    }
  }

  /** Byte-wise order: equal up to byte k, and smaller there. */
  ghost predicate BeforeAt(a: seq<byte>, b: seq<byte>, k: nat) {
    k < |a| && k < |b| && a[k] < b[k] && forall i :: 0 <= i < k ==> a[i] == b[i]
  }

  ghost predicate Before(a: seq<byte>, b: seq<byte>) {
    exists k: nat :: BeforeAt(a, b, k)
  }

  lemma BeforeAsymmetric(a: seq<byte>, b: seq<byte>)
    requires Before(a, b)
    ensures !Before(b, a)
  {
    var k: nat :| BeforeAt(a, b, k);
    forall i: nat ensures !BeforeAt(b, a, i) {
      assert i < k && i < |a| && i < |b| ==> a[i] == b[i];
    }
  }

  lemma {:induction false} BigOrder(m: nat, n: nat, k: nat)
    requires m < n < Power256(k)
    ensures Before(Big(m, k), Big(n, k))
    decreases k
  {
    if m / 256 == n / 256 {
      assert BeforeAt(Big(m, k), Big(n, k), k - 1);
    } else {
      BigOrder(m / 256, n / 256, k - 1);
      var i: nat :| BeforeAt(Big(m / 256, k - 1), Big(n / 256, k - 1), i);
      assert BeforeAt(Big(m, k), Big(n, k), i);
    }
  }

  lemma PrefixedOrder(x: byte, a: seq<byte>, b: seq<byte>)
    requires Before(a, b)
    ensures Before([x] + a, [x] + b)
  {
    var k: nat :| BeforeAt(a, b, k);
    forall i | 0 <= i < k + 1 ensures ([x] + a)[i] == ([x] + b)[i] {
      assert i > 0 ==> a[i - 1] == b[i - 1];
    }
    assert BeforeAt([x] + a, [x] + b, k + 1);
  }

  /** Encodings sort, byte by byte, as the numbers they stand for. */
  lemma EncodeOrder(m: nat, n: nat)
    requires m < n < U64
    ensures Before(Encode(m), Encode(n))
  {
    var a, b := Encode(m), Encode(n);
    if a[0] < b[0] {
      assert BeforeAt(a, b, 0);
    } else if n <= 2287 {
      assert BeforeAt(a, b, 1);
    } else if n <= 67823 {
      assert BeforeAt(a, b, if a[1] < b[1] then 1 else 2);
    } else {
      WidthFits(n);
      BigOrder(m, n, Width(n));
      PrefixedOrder(247 + Width(n), Big(m, Width(n)), Big(n, Width(n)));
    }
  }

  /** Byte-wise order and the order of the numbers decide each other. */
  lemma OrderIff(m: nat, n: nat)
    requires m < U64 && n < U64
    ensures Before(Encode(m), Encode(n)) <==> m < n
  {
    if m < n {
      EncodeOrder(m, n);
    } else if n < m {
      EncodeOrder(n, m);
      BeforeAsymmetric(Encode(n), Encode(m));
    }
  }

  /** The low bytes of offset, filled in from the last byte back; the rest of the buffer is untouched. */
  method FillBig(buffer: array<byte>, start: nat, k: nat, offset: nat)
    requires start + k <= buffer.Length
    modifies buffer
    ensures buffer[..start] == old(buffer[..start])
    ensures buffer[start..start + k] == Big(offset, k)
  {
    var off := offset;
    var i := 0;
    while i < k
      invariant 0 <= i <= k && off >= 0
      invariant buffer[..start] == old(buffer[..start])
      invariant Big(offset, k) == Big(off, k - i) + buffer[start + k - i..start + k]
    {
      ghost var done := buffer[start + k - i..start + k];
      buffer[start + k - 1 - i] := off % 256;
      assert buffer[start + k - 1 - i..start + k] == [off % 256] + done;
      off := off / 256;
      i := i + 1;
    }
  }

  /** The buffer of ten bytes is never outgrown, and its first usize bytes are the encoding. */
  method ComputeVaruint(offset: nat) returns (buffer: array<byte>, usize: nat)
    ensures fresh(buffer) && buffer.Length == 10
    ensures usize <= 9 && buffer[..usize] == Encode(offset)
  {
    buffer := new byte[10];
    if offset <= 240 {
      buffer[0] := offset;
      usize := 1;
    } else if offset <= 2287 {
      buffer[0], buffer[1] := (offset - 240) / 256 + 241, (offset - 240) % 256;
      usize := 2;
    } else if offset <= 67823 {
      buffer[0], buffer[1], buffer[2] := 249, (offset - 2288) / 256, (offset - 2288) % 256;
      usize := 3;
    } else {
      var n: nat;
      if offset <= 16777215 {
        buffer[0], n := 250, 3;
      } else if offset <= 4294967295 {
        buffer[0], n := 251, 4;
      } else if offset <= 1099511627775 {
        buffer[0], n := 252, 5;
      } else if offset <= 281474976710655 {
        buffer[0], n := 253, 6;
      } else if offset <= 72057594037927935 {
        buffer[0], n := 254, 7;
      } else {
        buffer[0], n := 255, 8;
      }
      FillBig(buffer, 1, n, offset);
      usize := 1 + n;
      assert buffer[..usize] == buffer[..1] + buffer[1..usize];
      assert buffer[..1] == [247 + Width(offset)];
    }
  }
}
