/**
  The generator itself: it writes into byte buffers that grow, extends the constants table and its
  hash, and moves the code of each function out of line into the byte code of the environment.
 */
module Codegen {

  import opened Varuint
  import opened Instructions
  import opened Machine
  import opened Icode

  /** A growing byte buffer: its contents and the room allocated for them. */
  class Ia {
    var bytes: seq<byte>
    var asize: nat

    /** The contents fit, and there is room enough for growing by half to make more. */
    ghost predicate Valid()
      reads this
    {
      |bytes| <= asize && 2 <= asize
    }

    constructor (size: nat)
      requires size >= 2
      ensures Valid() && bytes == [] && asize == size
    {
      bytes := [];
      asize := size;
    }

    method Push(b: byte)
      requires Valid()
      modifies this
      ensures Valid() && bytes == old(bytes) + [b]
    {
      if |bytes| >= asize {
        asize := asize + asize / 2;
      }
      assert |bytes| < asize;
      bytes := bytes + [b];
    }

    /** Byte by byte, after making room for all of them. */
    method Append(more: seq<byte>)
      requires Valid()
      modifies this
      ensures Valid() && bytes == old(bytes) + more
    {
      if asize - |bytes| < |more| {
        asize := asize + |more|;
      }
      var i := 0;
      while i < |more|
        invariant 0 <= i <= |more| && 2 <= asize
        invariant |bytes| == |old(bytes)| + i && |old(bytes)| + |more| <= asize
        invariant bytes == old(bytes) + more[..i]
      {
        bytes := bytes + [more[i]];
        i := i + 1;
      }
    }

    /** Over the old contents. */
    method Copy(source: seq<byte>)
      requires Valid()
      modifies this
      ensures Valid() && bytes == source
    {
      if asize < |source| {
        asize := asize + (|source| - asize);
      }
      bytes := source;
    }

    method Reset()
      requires Valid()
      modifies this
      ensures Valid() && bytes == []
    {
      bytes := [];
    }

    method PushVaruint(n: nat)
      requires Valid()
      modifies this
      ensures Valid() && bytes == old(bytes) + Varuint.Encode(n)
    {
      var buffer, usize := ComputeVaruint(n);
      Append(buffer[..usize]);
    }

    method PushOperand(kind: Kind, n: nat)
      requires Valid() && OperandWritable(kind, n)
      modifies this
      ensures Valid() && bytes == old(bytes) + EncodeOperand(kind, n)
    {
      match kind
      case Short => Push(n);
      case Var => PushVaruint(n);
      case Ref =>
        assert Big(n, 2) == Big(n / 256, 1) + [n % 256] && Big(n / 256, 1) == [] + [n / 256 % 256];
        Push(n / 256);
        Push(n % 256);
    }

    method PushOperands(kinds: seq<Kind>, xs: seq<nat>)
      requires Valid() && |kinds| == |xs| && OperandsWritable(kinds, xs)
      modifies this
      ensures Valid() && bytes == old(bytes) + EncodeOperands(kinds, xs)
      decreases |xs|
    {
      hide EncodeOperand, OperandWritable;
      if xs != [] {
        PushOperand(kinds[0], xs[0]);
        PushOperands(kinds[1..], xs[1..]);
        assert old(bytes) + EncodeOperand(kinds[0], xs[0]) + EncodeOperands(kinds[1..], xs[1..])
            == old(bytes) + (EncodeOperand(kinds[0], xs[0]) + EncodeOperands(kinds[1..], xs[1..]));
      }
    }

    /** An instruction: the opcode, then each operand in the form the opcode announces. */
    method Instruction(ins: Instr)
      requires Valid() && RefsFit(ins)
      modifies this
      ensures Valid() && bytes == old(bytes) + E(ins)
    {
      hide Opcode, Operands, Build, Shape, RefsFit, EncodeOperands, OperandsWritable;
      Rebuild(ins);
      var kinds, xs := Shape(Opcode(ins)).value, Operands(ins);
      Push(Opcode(ins));
      PushOperands(kinds, xs);
      assert old(bytes) + [Opcode(ins)] + EncodeOperands(kinds, xs) == old(bytes) + ([Opcode(ins)] + EncodeOperands(kinds, xs));
    }
  }

  /** The constants table never forgets: a constant in it keeps its index. */
  lemma {:induction false} IndexStable(K: seq<Value>, L: seq<Value>, v: Value)
    requires K <= L && v in K
    ensures Index(L, v) == Index(K, v)
    decreases |K|
  {
    if K[0] != v {
      assert K[1..] <= L[1..] && v in K[1..];
      IndexStable(K[1..], L[1..], v);
    }
  }

  /** No constant occurs twice, so the place of an occurrence is the index. */
  lemma {:induction false} IndexIs(K: seq<Value>, i: nat)
    requires i < |K| && forall j :: 0 <= j < i ==> K[j] != K[i]
    ensures Index(K, K[i]) == i
    decreases i
  {
    if i > 0 {
      assert forall j :: 0 <= j < i - 1 ==> K[1..][j] == K[j + 1];
      IndexIs(K[1..], i - 1);
    }
  }

  /** The evaluation environment: the constants with their hash, the source expressions numbered so far, the byte code. */
  class Eenv {
    var consts: seq<Value>
    var hash: map<Value, nat>
    var sources: nat
    const code: Ia

    /** The hash holds exactly the table's constants but nil, each with its only index. */
    ghost predicate Valid()
      reads this, code
    {
      && code.Valid()
      && (forall i, j :: 0 <= i < j < |consts| ==> consts[i] != consts[j])
      && (forall v :: v in hash ==> v != NIL && hash[v] < |consts| && consts[hash[v]] == v)
      && (forall i :: 0 <= i < |consts| && consts[i] != NIL ==> consts[i] in hash)
    }

    constructor (code: Ia)
      requires code.Valid()
      ensures this.code == code && consts == [] && sources == 0 && Valid()
    {
      this.code := code;
      consts := [];
      hash := map[];
      sources := 0;
    }

    /** Where a constant is; nil is looked for in the table, everything else in the hash. */
    method Lookup(v: Value) returns (ci: int)
      requires Valid()
      ensures ci == if v in consts then Index(consts, v) else -1
    {
      if v != NIL {
        if v in hash {
          ci := hash[v];
          IndexIs(consts, hash[v]);
        } else {
          ci := -1;
        }
      } else {
        ci := 0;
        while ci < |consts| && consts[ci] != v
          invariant 0 <= ci <= |consts|
          invariant forall j :: 0 <= j < ci ==> consts[j] != v
        {
          ci := ci + 1;
        }
        if ci == |consts| {
          ci := -1;
        } else {
          IndexIs(consts, ci);
        }
      }
    }

    method LookupOrExtend(v: Value) returns (ci: nat)
      requires Valid()
      modifies this
      ensures Valid() && old(consts) <= consts && sources == old(sources)
      ensures v in consts && ci == Index(consts, v)
      ensures consts == if v in old(consts) then old(consts) else old(consts) + [v]
    {
      var found := Lookup(v);
      if found == -1 {
        ci := |consts|;
        consts := consts + [v];
        if v != NIL {
          hash := hash[v := ci];
        }
        IndexIs(consts, ci);
      } else {
        ci := found;
      }
    }

    method AppendCode(block: seq<byte>)
      requires Valid()
      modifies code
      ensures Valid() && code.bytes == old(code.bytes) + block
    {
      code.Append(block);
    }

    method NumberSource() returns (sei: nat)
      requires Valid()
      modifies this
      ensures Valid() && consts == old(consts) && sources == old(sources) + 1 && sei == old(sources)
    {
      sei := sources;
      sources := sources + 1;
    }
  }

  /** A moment of generation: constants table, source expressions numbered, a buffer, the byte code. */
  datatype Snap = Snap(k: seq<Value>, n: nat, a: seq<byte>, b: seq<byte>)

  ghost function Now(ia: Ia, e: Eenv): Snap
    reads ia, e, e.code
  {
    Snap(e.consts, e.sources, ia.bytes, e.code.bytes)
  }

  /**
    From x to y the buffer and the byte code have grown by exactly the code and the blocks of m, as the
    finished constants table K will describe them, whatever it adds.
   */
  ghost predicate Wrote(m: Icode, x: Snap, y: Snap) {
    && x.k <= y.k
    && y.n == x.n + Sources(m)
    && forall K: seq<Value> :: y.k <= K ==> Reads(m, K, x, y)
  }

  ghost predicate Reads(m: Icode, K: seq<Value>, x: Snap, y: Snap) {
    y.a == x.a + Emit(m, K, x.n) && y.b == x.b + Row(Functions(m, x.n), K) && Sized(m, K)
  }

  ghost predicate WroteEach(ms: Codes, x: Snap, y: Snap) {
    && x.k <= y.k
    && y.n == x.n + SourcesEach(ms)
    && forall K: seq<Value> :: y.k <= K ==> ReadsEach(ms, K, x, y)
  }

  ghost predicate ReadsEach(ms: Codes, K: seq<Value>, x: Snap, y: Snap) {
    y.a == x.a + EmitEach(ms, K, x.n) && y.b == x.b + Row(FunctionsEach(ms, x.n), K) && SizedEach(ms, K)
  }

  ghost predicate WroteArgs(args: Args, x: Snap, y: Snap) {
    && x.k <= y.k
    && y.n == x.n + SourcesArgs(args)
    && forall K: seq<Value> :: y.k <= K ==> ReadsArgs(args, K, x, y)
  }

  ghost predicate ReadsArgs(args: Args, K: seq<Value>, x: Snap, y: Snap) {
    y.a == x.a + EmitArgs(args, K, x.n) && y.b == x.b + Row(FunctionsArgs(args, x.n), K) && SizedArgs(args, K)
  }

  lemma PrefixThen(a: seq<Value>, b: seq<Value>, c: seq<Value>)
    requires a <= b && b <= c
    ensures a <= c
  {
  }

  // What the steps for each kind of I-code amount to

  lemma Leaf(m: Icode, x: Snap, y: Snap, W: seq<Value>)
    requires m.ConstantOf? || m.ShallowArgumentRef? || m.DeepArgumentRef? || m.SymbolRef? || m.ScopedRef? || m.Primitive0?
    requires Sized(m, W) && (m.ConstantOf? ==> m.c.Fixnum? || m.c.Immediate? || m.c.Unicode?)
    requires y == x.(n := x.n + Sources(m), a := x.a + Emit(m, x.k, x.n))
    ensures Wrote(m, x, y)
  {
    hide E;
    forall K: seq<Value> | y.k <= K ensures Reads(m, K, x, y) {
      EmitByRule(m, K, x.n);
      EmitByRule(m, x.k, x.n);
    }
  }

  lemma TableConstant(c: Value, x: Snap, y: Snap)
    requires !c.Fixnum? && !c.Immediate? && !c.Unicode?
    requires x.k <= y.k && c in y.k && y == x.(k := y.k, a := x.a + E(ConstantRef(Index(y.k, c))))
    ensures Wrote(ConstantOf(c), x, y)
  {
    hide E, Index;
    forall K: seq<Value> | y.k <= K ensures Reads(ConstantOf(c), K, x, y) {
      EmitByRule(ConstantOf(c), K, x.n);
      IndexStable(y.k, K, c);
    }
  }

  /** The bytes after the operand. */
  function UnaryEnd(m: Icode, n: nat): (s: seq<byte>)
    requires m.ShallowArgumentSet? || m.DeepArgumentSet? || m.SymbolSet? || m.Primitive1?
  {
    match m
    case ShallowArgumentSet(j, _) => E(SetArgument(j))
    case DeepArgumentSet(i, j, _) => E(DeepSet(i, j))
    case SymbolSet(src, si, _) => Src(src, n) + E(SymSet(si))
    case Primitive1(src, _, pd) => Src(src, n) + E(PrimCall1(pd))
  }

  lemma Unary(m: Icode, x: Snap, y: Snap, z: Snap, W: seq<Value>)
    requires m.ShallowArgumentSet? || m.DeepArgumentSet? || m.SymbolSet? || m.Primitive1?
    requires Sized(m, W) && Wrote(m.m1, x, y) && z == y.(n := x.n + Sources(m), a := y.a + UnaryEnd(m, y.n))
    ensures Wrote(m, x, z)
  {
    hide Emit, EmitArgs, EmitEach, FunctionsArgs, FunctionsEach, SizedArgs, SizedEach, SourcesArgs, SourcesEach, E;
    hide Src, Row;
    forall K: seq<Value> | z.k <= K ensures Reads(m, K, x, z) {
      assert Reads(m.m1, K, x, y);
      EmitByRule(m, K, x.n);
      Assoc(x.a, Emit(m.m1, K, x.n), UnaryEnd(m, y.n));
    }
  }

  lemma Assoc(a: seq<byte>, b: seq<byte>, c: seq<byte>)
    ensures a + b + c == a + (b + c)
  {
  }

  /** I-code with two parts, the second after the first. */
  predicate InTwo(m: Icode) { m.Sequence? || m.Local? || m.Primitive2? || m.ScopedLet? || m.Trapping? }

  function Second(m: Icode): Icode
    requires InTwo(m)
  {
    if m.Primitive2? then m.m2 else m.mp
  }

  function SecondStart(m: Icode, n: nat): nat
    requires InTwo(m)
  {
    n + Sources(m.m1) + if m.Local? then Count(m.src) else 0
  }

  lemma RowOfTwo(m: Icode, K: seq<Value>, n: nat)
    requires InTwo(m)
    ensures Row(Functions(m, n), K) == Row(Functions(m.m1, n), K) + Row(Functions(Second(m), SecondStart(m, n)), K)
    ensures m.Sequence? || m.ScopedLet? || m.Trapping? ==> Sources(m) == Sources(m.m1) + Sources(m.mp)
    ensures m.Local? ==> Sources(m) == Sources(m.m1) + Count(m.src) + Sources(m.mp)
    ensures m.Primitive2? ==> Sources(m) == Sources(m.m1) + Sources(m.m2) + Count(m.src)
  {
    hide Row;
    RowAppend(Functions(m.m1, n), Functions(Second(m), SecondStart(m, n)), K);
  }

  lemma Two(m1: Icode, mp: Icode, x: Snap, y: Snap, z: Snap)
    requires Wrote(m1, x, y) && Wrote(mp, y, z)
    ensures Wrote(Sequence(m1, mp), x, z)
  {
    hide Row, Functions, Sources;
    RowOfTwo(Sequence(m1, mp), x.k, x.n);
    forall K: seq<Value> | z.k <= K ensures Reads(Sequence(m1, mp), K, x, z) {
      PrefixThen(y.k, z.k, K);
      assert Reads(m1, K, x, y) && Reads(mp, K, y, z);
      EmitByRule(Sequence(m1, mp), K, x.n);
      RowOfTwo(Sequence(m1, mp), K, x.n);
      Assoc(x.a, Emit(m1, K, x.n), Emit(mp, K, y.n));
      Assoc(x.b, Row(Functions(m1, x.n), K), Row(Functions(mp, y.n), K));
    }
  }

  /** The test, quiet, into the buffer; the arms into buffers of their own, which share the byte code. */
  lemma Choice(src: bool, m1: Icode, m2: Icode, m3: Icode, x: Snap, x1: Snap, y: Snap, y2: Snap, y3: Snap, z: Snap)
    requires x1 == x.(n := x.n + Count(src), a := x.a + Src(src, x.n) + E(SuppressRcse))
    requires Wrote(m1, x1, y) && Wrote(m2, y.(a := []), y2) && Wrote(m3, y2.(a := []), y3)
    requires z == y3.(a := y.a + E(PopRcse) + Branches(y2.a, y3.a))
    ensures Wrote(Alternative(src, m1, m2, m3), x, z)
  {
    hide E, Src, Branches, Row, Emit, Sized, Functions, Sources;
    PrefixThen(x.k, y.k, y2.k);
    PrefixThen(x.k, y2.k, y3.k);
    ChoiceSources(src, m1, m2, m3);
    forall K: seq<Value> | z.k <= K ensures Reads(Alternative(src, m1, m2, m3), K, x, z) {
      PrefixThen(y2.k, y3.k, K);
      PrefixThen(y.k, y2.k, K);
      assert Reads(m1, K, x1, y) && Reads(m2, K, y.(a := []), y2) && Reads(m3, K, y2.(a := []), y3);
      assert y2.a == Emit(m2, K, y.n) && y3.a == Emit(m3, K, y2.n);
      ChoiceReads(src, m1, m2, m3, K, x, y.n, y2.n);
      var c1, c := Emit(m1, K, x1.n), Branches(y2.a, y3.a);
      assert x.a + Src(src, x.n) + E(SuppressRcse) + c1 + E(PopRcse) + c
          == x.a + (Src(src, x.n) + (E(SuppressRcse) + (c1 + E(PopRcse)) + c));
      var r1, r2, r3 := Row(Functions(m1, x1.n), K), Row(Functions(m2, y.n), K), Row(Functions(m3, y2.n), K);
      assert x.b + r1 + r2 + r3 == x.b + (r1 + (r2 + r3));
    }
  }

  lemma ChoiceSources(src: bool, m1: Icode, m2: Icode, m3: Icode)
    ensures Sources(Alternative(src, m1, m2, m3)) == Count(src) + Sources(m1) + Sources(m2) + Sources(m3)
  {
  }

  lemma ChoiceReads(src: bool, m1: Icode, m2: Icode, m3: Icode, K: seq<Value>, x: Snap, n2: nat, n3: nat)
    requires n2 == x.n + Count(src) + Sources(m1) && n3 == n2 + Sources(m2)
    requires Sized(m1, K) && Sized(m2, K) && Sized(m3, K)
    ensures Sized(Alternative(src, m1, m2, m3), K)
    ensures Emit(Alternative(src, m1, m2, m3), K, x.n) == Src(src, x.n)
      + (E(SuppressRcse) + (Emit(m1, K, x.n + Count(src)) + E(PopRcse)) + Branches(Emit(m2, K, n2), Emit(m3, K, n3)))
    ensures Row(Functions(Alternative(src, m1, m2, m3), x.n), K)
      == Row(Functions(m1, x.n + Count(src)), K) + (Row(Functions(m2, n2), K) + Row(Functions(m3, n3), K))
  {
    hide *;
    var m := Alternative(src, m1, m2, m3);
    assert Sized(m, K) by { ChoiceSized(src, m1, m2, m3, K); }
    ChoiceEmit(src, m1, m2, m3, K, x.n);
    ChoiceFunctions(src, m1, m2, m3, x.n);
    var f1, f2, f3 := Functions(m1, x.n + Count(src)), Functions(m2, n2), Functions(m3, n3);
    RowAppend(f2, f3, K);
    RowAppend(f1, f2 + f3, K);
  }

  lemma ChoiceSized(src: bool, m1: Icode, m2: Icode, m3: Icode, K: seq<Value>)
    requires Sized(m1, K) && Sized(m2, K) && Sized(m3, K)
    ensures Sized(Alternative(src, m1, m2, m3), K)
  {
  }

  lemma ChoiceEmit(src: bool, m1: Icode, m2: Icode, m3: Icode, K: seq<Value>, n: nat)
    ensures var n2 := n + Count(src) + Sources(m1);
      Emit(Alternative(src, m1, m2, m3), K, n) == Src(src, n) + (E(SuppressRcse) + (Emit(m1, K, n + Count(src)) + E(PopRcse))
        + Branches(Emit(m2, K, n2), Emit(m3, K, n2 + Sources(m2))))
  {
    hide E, Src, Branches, Emit, Sources;
    EmitByRule(Alternative(src, m1, m2, m3), K, n);
  }

  lemma ChoiceFunctions(src: bool, m1: Icode, m2: Icode, m3: Icode, n: nat)
    ensures var n2 := n + Count(src) + Sources(m1);
      Functions(Alternative(src, m1, m2, m3), n)
      == Functions(m1, n + Count(src)) + (Functions(m2, n2) + Functions(m3, n2 + Sources(m2)))
  {
    hide Sources, FunctionsEach, FunctionsArgs;
    var m := Alternative(src, m1, m2, m3);
    assert m.Alternative?;
  }

  lemma OneOf(m: Icode, x: Snap, y: Snap)
    requires Wrote(m, x, y)
    ensures WroteEach(One(m), x, y)
  {
    hide Emit, Row, Functions, Sized, Sources;
    forall K: seq<Value> | y.k <= K ensures ReadsEach(One(m), K, x, y) {
      assert Reads(m, K, x, y);
    }
  }

  lemma MoreOf(m: Icode, rest: Codes, x: Snap, y: Snap, z: Snap)
    requires Wrote(m, x, y) && WroteEach(rest, y, z)
    ensures WroteEach(More(m, rest), x, z)
  {
    hide Emit, Row, Functions, Sized, Sources;
    PrefixThen(x.k, y.k, z.k);
    forall K: seq<Value> | z.k <= K ensures ReadsEach(More(m, rest), K, x, z) {
      PrefixThen(y.k, z.k, K);
      assert Reads(m, K, x, y) && ReadsEach(rest, K, y, z);
      RowAppend(Functions(m, x.n), FunctionsEach(rest, y.n), K);
      Assoc(x.a, Emit(m, K, x.n), EmitEach(rest, K, y.n));
      Assoc(x.b, Row(Functions(m, x.n), K), Row(FunctionsEach(rest, y.n), K));
    }
  }

  lemma Series(m: Icode, x: Snap, y: Snap)
    requires (m.Each? || m.Begin?) && WroteEach(m.ms, x, y)
    ensures Wrote(m, x, y)
  {
    hide Row;
    forall K: seq<Value> | y.k <= K ensures Reads(m, K, x, y) {
      assert ReadsEach(m.ms, K, x, y);
      EmitByRule(m, K, x.n);
    }
  }

  lemma Negate(last: bool, m1: Icode, x: Snap, x1: Snap, y: Snap, z: Snap)
    requires x1 == (if last then x else x.(a := x.a + E(SuppressRcse))) && Wrote(m1, x1, y)
    requires z == y.(a := (if last then y.a else y.a + E(PopRcse)) + E(Not))
    ensures Wrote(Negation(last, m1), x, z)
  {
    hide Emit, EmitArgs, EmitEach, FunctionsArgs, FunctionsEach, SizedArgs, SizedEach, SourcesArgs, SourcesEach, E;
    hide Row;
    forall K: seq<Value> | z.k <= K ensures Reads(Negation(last, m1), K, x, z) {
      assert Reads(m1, K, x1, y);
      EmitByRule(Negation(last, m1), K, x.n);
      var c := Emit(m1, K, x.n);
      assert x.a + E(SuppressRcse) + c + E(PopRcse) + E(Not) == x.a + (E(SuppressRcse) + (c + E(PopRcse)) + E(Not));
      Assoc(x.a, c, E(Not));
    }
  }

  lemma Let(last: bool, args: Args, mp: Icode, formals: Value, x: Snap, x1: Snap, y: Snap, z: Snap, w: Snap)
    requires x.k <= x1.k && formals in x1.k && x1 == x.(k := x1.k, n := x.n + 1) && WroteArgs(args, x1, y)
    requires Wrote(mp, y.(a := y.a + E(LinkFrame(Index(x1.k, formals), x.n % U64))), z)
    requires w == z.(a := z.a + if last then [] else E(UnlinkFrame))
    ensures Wrote(FixLet(last, args, mp, formals), x, w)
  {
    hide Emit, EmitArgs, EmitEach, FunctionsArgs, FunctionsEach, SizedArgs, SizedEach, SourcesArgs, SourcesEach, E;
    hide Row, Index;
    PrefixThen(x.k, x1.k, y.k);
    PrefixThen(x.k, y.k, z.k);
    forall K: seq<Value> | w.k <= K ensures Reads(FixLet(last, args, mp, formals), K, x, w) {
      PrefixThen(y.k, z.k, K);
      PrefixThen(x1.k, y.k, K);
      IndexStable(x1.k, K, formals);
      var y1 := y.(a := y.a + E(LinkFrame(Index(x1.k, formals), x.n % U64)));
      assert ReadsArgs(args, K, x1, y) && Reads(mp, K, y1, z);
      EmitByRule(FixLet(last, args, mp, formals), K, x.n);
      RowAppend(FunctionsArgs(args, x1.n), Functions(mp, y.n), K);
      var c1, l, c2, u := EmitArgs(args, K, x1.n), E(LinkFrame(Index(K, formals), x.n % U64)), Emit(mp, K, y.n), if last then [] else E(UnlinkFrame);
      assert x.a + c1 + l + c2 + u == x.a + (c1 + (l + (c2 + u)));
      Assoc(x.b, Row(FunctionsArgs(args, x1.n), K), Row(Functions(mp, y.n), K));
    }
  }

  lemma Localise(src: bool, j: nat, m1: Icode, mp: Icode, size: nat, formals: Value, x: Snap, x1: Snap, y: Snap, z: Snap, W: seq<Value>)
    requires Sized(Local(src, j, m1, mp, size, formals), W)
    requires x.k <= x1.k && formals in x1.k && x1 == x.(k := x1.k) && Wrote(m1, x1, y)
    requires Wrote(mp, y.(n := y.n + Count(src), a := y.a + Src(src, y.n) + E(ExtendFrame(size, Index(x1.k, formals))) + E(ShallowSet(j))), z)
    ensures Wrote(Local(src, j, m1, mp, size, formals), x, z)
  {
    hide Emit, EmitArgs, EmitEach, FunctionsArgs, FunctionsEach, SizedArgs, SizedEach, SourcesArgs, SourcesEach, E;
    hide Src, Row, Functions, Sources, Index;
    PrefixThen(x.k, x1.k, y.k);
    PrefixThen(x.k, y.k, z.k);
    RowOfTwo(Local(src, j, m1, mp, size, formals), x.k, x.n);
    forall K: seq<Value> | z.k <= K ensures Reads(Local(src, j, m1, mp, size, formals), K, x, z) {
      PrefixThen(y.k, z.k, K);
      PrefixThen(x1.k, y.k, K);
      IndexStable(x1.k, K, formals);
      var ext, set1 := E(ExtendFrame(size, Index(K, formals))), E(ShallowSet(j));
      var y1 := y.(n := y.n + Count(src), a := y.a + Src(src, y.n) + ext + set1);
      assert Reads(m1, K, x1, y) && Reads(mp, K, y1, z);
      EmitByRule(Local(src, j, m1, mp, size, formals), K, x.n);
      RowOfTwo(Local(src, j, m1, mp, size, formals), K, x.n);
      var c1, c2 := Emit(m1, K, x.n), Emit(mp, K, y1.n);
      assert x.a + c1 + Src(src, y.n) + ext + set1 + c2 == x.a + (c1 + (Src(src, y.n) + (ext + (set1 + c2))));
      Assoc(x.b, Row(Functions(m1, x.n), K), Row(Functions(mp, y1.n), K));
    }
  }

  lemma Binary(src: bool, m1: Icode, m2: Icode, pd: nat, x: Snap, y: Snap, z: Snap, w: Snap, W: seq<Value>)
    requires Sized(Primitive2(src, m1, m2, pd), W)
    requires Wrote(m1, x, y) && Wrote(m2, y.(a := y.a + E(PushValue)), z)
    requires w == z.(n := z.n + Count(src), a := z.a + E(PopReg1) + Src(src, z.n) + E(PrimCall2(pd)))
    ensures Wrote(Primitive2(src, m1, m2, pd), x, w)
  {
    hide Emit, EmitArgs, EmitEach, FunctionsArgs, FunctionsEach, SizedArgs, SizedEach, SourcesArgs, SourcesEach, E;
    hide Src, Row, Functions, Sources;
    PrefixThen(x.k, y.k, z.k);
    RowOfTwo(Primitive2(src, m1, m2, pd), x.k, x.n);
    forall K: seq<Value> | w.k <= K ensures Reads(Primitive2(src, m1, m2, pd), K, x, w) {
      PrefixThen(y.k, z.k, K);
      var y1 := y.(a := y.a + E(PushValue));
      assert Reads(m1, K, x, y) && Reads(m2, K, y1, z);
      EmitByRule(Primitive2(src, m1, m2, pd), K, x.n);
      RowOfTwo(Primitive2(src, m1, m2, pd), K, x.n);
      var c1, c2 := Emit(m1, K, x.n), Emit(m2, K, y.n);
      assert x.a + c1 + E(PushValue) + c2 + E(PopReg1) + Src(src, z.n) + E(PrimCall2(pd))
          == x.a + (c1 + (E(PushValue) + (c2 + (E(PopReg1) + (Src(src, z.n) + E(PrimCall2(pd)))))));
      Assoc(x.b, Row(Functions(m1, x.n), K), Row(Functions(m2, y.n), K));
    }
  }

  lemma Application(last: bool, src: bool, m1: Icode, args: Args, x: Snap, y: Snap, z: Snap, w: Snap)
    requires Wrote(m1, x, y) && WroteArgs(args, y.(a := y.a + E(PushValue)), z)
    requires w == z.(n := z.n + Count(src), a := z.a + Src(src, z.n) + EmitCall(last))
    ensures Wrote(Call(last, src, m1, args), x, w)
  {
    hide Emit, EmitArgs, EmitEach, FunctionsArgs, FunctionsEach, SizedArgs, SizedEach, SourcesArgs, SourcesEach, E;
    hide Src, EmitCall, Row;
    PrefixThen(x.k, y.k, z.k);
    forall K: seq<Value> | w.k <= K ensures Reads(Call(last, src, m1, args), K, x, w) {
      PrefixThen(y.k, z.k, K);
      var y1 := y.(a := y.a + E(PushValue));
      assert Reads(m1, K, x, y) && ReadsArgs(args, K, y1, z);
      EmitByRule(Call(last, src, m1, args), K, x.n);
      RowAppend(Functions(m1, x.n), FunctionsArgs(args, y.n), K);
      var c1, c2 := Emit(m1, K, x.n), EmitArgs(args, K, y.n);
      assert x.a + c1 + E(PushValue) + c2 + Src(src, z.n) + EmitCall(last)
          == x.a + (c1 + (E(PushValue) + (c2 + (Src(src, z.n) + EmitCall(last)))));
      Assoc(x.b, Row(Functions(m1, x.n), K), Row(FunctionsArgs(args, y.n), K));
    }
  }

  lemma Argument(args: Args, x: Snap, y: Snap, z: Snap, w: Snap, W: seq<Value>)
    requires !args.AllocFrame? && SizedArgs(args, W)
    requires Wrote(args.m1, x, y) && WroteArgs(args.rest, y.(a := y.a + E(PushValue)), z)
    requires w == z.(a := z.a + E(if args.StoreArgument? then PopFrame(args.rank) else PopListFrame(args.arity)))
    ensures WroteArgs(args, x, w)
  {
    hide E, Row, Emit, Functions, Sized, Sources;
    PrefixThen(x.k, y.k, z.k);
    forall K: seq<Value> | w.k <= K ensures ReadsArgs(args, K, x, w) {
      PrefixThen(y.k, z.k, K);
      var y1 := y.(a := y.a + E(PushValue));
      assert Reads(args.m1, K, x, y) && ReadsArgs(args.rest, K, y1, z);
      RowAppend(Functions(args.m1, x.n), FunctionsArgs(args.rest, y.n), K);
      var c1, c2 := Emit(args.m1, K, x.n), EmitArgs(args.rest, K, y.n);
      var p := E(if args.StoreArgument? then PopFrame(args.rank) else PopListFrame(args.arity));
      assert x.a + c1 + E(PushValue) + c2 + p == x.a + (c1 + (E(PushValue) + (c2 + p)));
      Assoc(x.b, Row(Functions(args.m1, x.n), K), Row(FunctionsArgs(args.rest, y.n), K));
    }
  }

  lemma Scoped(m: Icode, x: Snap, y: Snap, z: Snap, w: Snap, push: seq<byte>, pop: seq<byte>, W: seq<Value>)
    requires (m.ScopedLet? || m.Trapping?) && Sized(m, W)
    requires m.ScopedLet? ==> var kind := if m.environ then Environ else Dynamic;
      push == E(PushBinding(kind, m.si)) && pop == E(PopBinding(kind))
    requires m.Trapping? ==> push == PushTraps(m.sis) && pop == PopTraps(m.sis)
    requires Wrote(m.m1, x, y) && Wrote(m.mp, y.(a := y.a + push), z) && w == z.(a := z.a + pop)
    ensures Wrote(m, x, w)
  {
    hide Emit, EmitArgs, EmitEach, FunctionsArgs, FunctionsEach, SizedArgs, SizedEach, SourcesArgs, SourcesEach, E;
    hide Row, Functions, Sources, PushTraps, PopTraps;
    PrefixThen(x.k, y.k, z.k);
    RowOfTwo(m, x.k, x.n);
    forall K: seq<Value> | w.k <= K ensures Reads(m, K, x, w) {
      PrefixThen(y.k, z.k, K);
      assert Reads(m.m1, K, x, y) && Reads(m.mp, K, y.(a := y.a + push), z);
      EmitByRule(m, K, x.n);
      RowOfTwo(m, K, x.n);
      var c1, c2 := Emit(m.m1, K, x.n), Emit(m.mp, K, y.n);
      assert x.a + c1 + push + c2 + pop == x.a + (c1 + (push + (c2 + pop)));
      Assoc(x.b, Row(Functions(m.m1, x.n), K), Row(Functions(m.mp, y.n), K));
    }
  }

  /** The function's code is made in a buffer of its own, and goes out in a block behind the blocks of its inner functions. */
  lemma Hoist(m: Icode, x: Snap, x1: Snap, y: Snap, z: Snap, W: seq<Value>)
    requires m.Abstraction? && Sized(m, W)
    requires x.k <= x1.k && m.name in x1.k && m.formals in x1.k && m.docstr in x1.k
    requires x1 == x.(k := x1.k, n := x.n + 1, a := EmitArity(m) + E(LinkFrame(Index(x1.k, m.formals), x.n % U64)))
    requires Wrote(m.mp, x1, y)
    requires var code := y.a + E(Return); var g := E(Goto(|code|));
      z == y.(a := x.a + E(CreateClosure(m.vi)),
              b := y.b + (E(CreateFunction(|g|, |code|, Index(x1.k, m.name), Index(x1.k, m.formals), Index(x1.k, m.docstr), x.n % U64))
                          + g + (code + E(ValSet(m.vi)))))
    ensures Wrote(m, x, z)
  {
    hide Emit, EmitArgs, EmitEach, FunctionsArgs, FunctionsEach, SizedArgs, SizedEach, SourcesArgs, SourcesEach, E;
    hide Row, Index, EmitArity;
    PrefixThen(x.k, x1.k, y.k);
    forall K: seq<Value> | z.k <= K ensures Reads(m, K, x, z) {
      PrefixThen(x1.k, y.k, K);
      IndexStable(x1.k, K, m.name);
      IndexStable(x1.k, K, m.formals);
      IndexStable(x1.k, K, m.docstr);
      assert Reads(m.mp, K, x1, y);
      EmitByRule(m, K, x.n);
      RowAppend(Functions(m.mp, x1.n), [Fn(m, x.n)], K);
      OneRow(m, K, x.n);
      var c, l := Emit(m.mp, K, x1.n), E(LinkFrame(Index(K, m.formals), x.n % U64));
      assert EmitArity(m) + l + c + E(Return) == EmitArity(m) + (l + (c + E(Return)));
      Assoc(x.b, Row(Functions(m.mp, x1.n), K), Block(m, K, x.n));
    }
  }

  lemma OneRow(m: Icode, K: seq<Value>, n: nat)
    requires m.Abstraction?
    ensures Row([Fn(m, n)], K) == Block(m, K, n)
  {
    hide Block;
    assert [Fn(m, n)][1..] == [];
  }

  // Conjunction and disjunction

  /** The code of each clause on its own. */
  function Clauses(last: bool, ms: Codes, K: seq<Value>, n: nat): (cs: seq<seq<byte>>)
    ensures |cs| >= 1
    decreases ms
  {
    match ms
    case One(m) => [Quiet(!last, Emit(m, K, n))]
    case More(m, rest) => [Quiet(true, Emit(m, K, n))] + Clauses(last, rest, K, n + Sources(m))
  }

  /** All the clauses but the first, each behind a jump over everything from it on. */
  function Others(conj: bool, cs: seq<seq<byte>>): (s: seq<byte>)
    decreases |cs|
  {
    if cs == [] then []
    else
      var rest := cs[0] + Others(conj, cs[1..]);
      E(Jump(conj, |rest|)) + rest
  }

  /** Clauses laid out from the last one back are the junction laid out from the first one on. */
  lemma {:induction false} JunctionOfClauses(conj: bool, last: bool, ms: Codes, K: seq<Value>, n: nat)
    ensures EmitJunction(conj, last, ms, K, n) == Clauses(last, ms, K, n)[0] + Others(conj, Clauses(last, ms, K, n)[1..])
    decreases ms
  {
    hide E, Quiet, Emit, Sources;
    match ms
    case One(m) =>
      assert Clauses(last, ms, K, n)[1..] == [];
    case More(m, rest) =>
      var cs := Clauses(last, rest, K, n + Sources(m));
      JunctionOfClauses(conj, last, rest, K, n + Sources(m));
      assert Clauses(last, ms, K, n)[1..] == cs;
  }

  /** Back to front: each clause goes before what is already there, and its jump before both. */
  method Assemble(conj: bool, iac: seq<seq<byte>>) returns (iar: Ia)
    ensures fresh(iar) && iar.Valid() && iar.bytes == Others(conj, iac)
  {
    hide E;
    iar := new Ia(100);
    var iat := new Ia(100);
    var l := 0;
    var i := |iac|;
    assert iac[|iac|..] == [];
    while i > 0
      invariant 0 <= i <= |iac| && l == |iar.bytes|
      invariant iar.Valid() && iat.Valid() && iat.bytes == []
      invariant iar.bytes == Others(conj, iac[i..])
    {
      i := i - 1;
      l := l + |iac[i]|;
      iat.Instruction(Jump(conj, l));
      iat.Append(iac[i]);
      iat.Append(iar.bytes);
      assert iac[i..][1..] == iac[i + 1..] && iac[i..][0] == iac[i];
      Assoc(E(Jump(conj, l)), iac[i], iar.bytes);
      iar.Copy(iat.bytes);
      iat.Reset();
      l := |iar.bytes|;
    }
    assert iac[0..] == iac;
  }

  ghost predicate WroteClauses(last: bool, ms: Codes, x: Snap, y: Snap, iac: seq<seq<byte>>) {
    && x.k <= y.k
    && y.n == x.n + SourcesEach(ms)
    && forall K: seq<Value> :: y.k <= K ==> ReadsClauses(last, ms, K, x, y, iac)
  }

  ghost predicate ReadsClauses(last: bool, ms: Codes, K: seq<Value>, x: Snap, y: Snap, iac: seq<seq<byte>>) {
    iac == Clauses(last, ms, K, x.n) && y.b == x.b + Row(FunctionsEach(ms, x.n), K) && SizedEach(ms, K)
  }

  lemma LastClause(last: bool, m: Icode, x: Snap, y: Snap, c: seq<byte>)
    requires Wrote(m, x.(a := if last then [] else E(SuppressRcse)), y) && c == y.a + (if last then [] else E(PopRcse))
    ensures WroteClauses(last, One(m), x, y, [c])
  {
    hide E, Emit, Row, Functions, Sized, Sources;
    forall K: seq<Value> | y.k <= K ensures ReadsClauses(last, One(m), K, x, y, [c]) {
      assert Reads(m, K, x.(a := if last then [] else E(SuppressRcse)), y);
      Assoc(E(SuppressRcse), Emit(m, K, x.n), E(PopRcse));
      assert c == Quiet(!last, Emit(m, K, x.n));
    }
  }

  lemma NextClause(last: bool, m: Icode, rest: Codes, x: Snap, y: Snap, z: Snap, c: seq<byte>, cs: seq<seq<byte>>)
    requires Wrote(m, x.(a := E(SuppressRcse)), y) && c == y.a + E(PopRcse) && WroteClauses(last, rest, y, z, cs)
    ensures WroteClauses(last, More(m, rest), x, z, [c] + cs)
  {
    hide E, Emit, Row, Functions, Sized, Sources;
    PrefixThen(x.k, y.k, z.k);
    forall K: seq<Value> | z.k <= K ensures ReadsClauses(last, More(m, rest), K, x, z, [c] + cs) {
      PrefixThen(y.k, z.k, K);
      assert Reads(m, K, x.(a := E(SuppressRcse)), y) && ReadsClauses(last, rest, K, y, z, cs);
      Assoc(E(SuppressRcse), Emit(m, K, x.n), E(PopRcse));
      RowAppend(Functions(m, x.n), FunctionsEach(rest, y.n), K);
      Assoc(x.b, Row(Functions(m, x.n), K), Row(FunctionsEach(rest, y.n), K));
    }
  }

  /** The clauses together. */
  lemma Joined(conj: bool, last: bool, ms: Codes, x: Snap, y: Snap, z: Snap, iac: seq<seq<byte>>)
    requires WroteClauses(last, ms, x, y, iac) && iac != [] && z == y.(a := x.a + (iac[0] + Others(conj, iac[1..])))
    ensures Wrote(Junction(conj, last, ms), x, z)
  {
    hide E, Row, Emit, EmitJunction, Others, Clauses;
    forall K: seq<Value> | z.k <= K ensures Reads(Junction(conj, last, ms), K, x, z) {
      assert ReadsClauses(last, ms, K, x, y, iac);
      EmitByRule(Junction(conj, last, ms), K, x.n);
      JunctionOfClauses(conj, last, ms, K, x.n);
    }
  }

  // The methods

  method CompileSrc(ia: Ia, e: Eenv, src: bool)
    requires e.Valid() && ia.Valid() && ia != e.code
    modifies ia, e
    ensures e.Valid() && ia.Valid()
    ensures var x := old(Now(ia, e)); Now(ia, e) == x.(n := x.n + Count(src), a := x.a + Src(src, x.n))
  {
    hide E;
    if src {
      var sei := e.NumberSource();
      ia.Instruction(SrcExpr(sei % U64));
    }
  }

  method CompileLeaf(ia: Ia, e: Eenv, m: Icode, ghost W: seq<Value>)
    requires m.ConstantOf? || m.ShallowArgumentRef? || m.DeepArgumentRef? || m.SymbolRef? || m.ScopedRef? || m.Primitive0?
    requires e.Valid() && ia.Valid() && ia != e.code && Sized(m, W)
    modifies ia, e
    ensures e.Valid() && ia.Valid() && Wrote(m, old(Now(ia, e)), Now(ia, e))
  {
    hide Eenv.Valid, Ia.Valid, E, Wrote, Emit, Index, Src;
    ghost var x := Now(ia, e);
    EmitByRule(m, x.k, x.n);
    match m
    case ConstantOf(c) =>
      if c.Fixnum? || c.Immediate? || c.Unicode? {
        ia.Instruction(Load(c, []));
        Leaf(m, x, Now(ia, e), W);
      } else {
        var ci := e.LookupOrExtend(c);
        ia.Instruction(ConstantRef(ci));
        TableConstant(c, x, Now(ia, e));
      }
    case ShallowArgumentRef(j) =>
      ia.Instruction(ShallowRef(j));
      Leaf(m, x, Now(ia, e), W);
    case DeepArgumentRef(i, j) =>
      ia.Instruction(DeepRef(i, j));
      Leaf(m, x, Now(ia, e), W);
    case SymbolRef(called, si) =>
      ia.Instruction(SymRef(called, si));
      Leaf(m, x, Now(ia, e), W);
    case ScopedRef(environ, si) =>
      ia.Instruction(BindingRef(environ, si));
      Leaf(m, x, Now(ia, e), W);
    case Primitive0(src, pd) =>
      CompileSrc(ia, e, src);
      ia.Instruction(PrimCall0(pd));
      Assoc(x.a, Src(src, x.n), E(PrimCall0(pd)));
      Leaf(m, x, Now(ia, e), W);
  }

  method CompileUnary(ia: Ia, e: Eenv, m: Icode, ghost W: seq<Value>)
    requires m.ShallowArgumentSet? || m.DeepArgumentSet? || m.SymbolSet? || m.Primitive1?
    requires e.Valid() && ia.Valid() && ia != e.code && Sized(m, W)
    modifies ia, e, e.code
    ensures e.Valid() && ia.Valid() && Wrote(m, old(Now(ia, e)), Now(ia, e))
    decreases m, 0
  {
    hide Eenv.Valid, Ia.Valid, E, Wrote, WroteEach, WroteArgs, WroteClauses, Emit, Index, Src, Row, Functions;
    hide Sources;
    ghost var x := Now(ia, e);
    Compile(ia, e, m.m1, W);
    ghost var y := Now(ia, e);
    UnarySources(m, x, y);
    match m {
      case ShallowArgumentSet(j, _) => ia.Instruction(SetArgument(j));
      case DeepArgumentSet(i, j, _) => ia.Instruction(DeepSet(i, j));
      case SymbolSet(src, si, _) =>
        CompileSrc(ia, e, src);
        ia.Instruction(SymSet(si));
        Assoc(y.a, Src(src, y.n), E(SymSet(si)));
      case Primitive1(src, _, pd) =>
        CompileSrc(ia, e, src);
        ia.Instruction(PrimCall1(pd));
        Assoc(y.a, Src(src, y.n), E(PrimCall1(pd)));
    }
    Unary(m, x, y, Now(ia, e), W);
  }

  lemma UnarySources(m: Icode, x: Snap, y: Snap)
    requires (m.ShallowArgumentSet? || m.DeepArgumentSet? || m.SymbolSet? || m.Primitive1?) && Wrote(m.m1, x, y)
    ensures x.n + Sources(m) == y.n + if m.SymbolSet? || m.Primitive1? then Count(m.src) else 0
  {
    hide Reads;
  }

  /** The jump that ends the first arm is made first: its size counts for the jump before the arm. */
  method WriteBranches(ia: Ia, c2: seq<byte>, c3: seq<byte>)
    requires ia.Valid()
    modifies ia
    ensures ia.Valid() && ia.bytes == old(ia.bytes) + Branches(c2, c3)
  {
    hide E;
    var g7 := new Ia(10);
    g7.Instruction(Goto(|c3|));
    assert g7.bytes == E(Goto(|c3|));
    ia.Instruction(JumpFalse(|c2| + |g7.bytes|));
    ia.Append(c2);
    ia.Append(g7.bytes);
    ia.Append(c3);
    var j := E(JumpFalse(|c2| + |g7.bytes|));
    assert old(ia.bytes) + j + c2 + g7.bytes + c3 == old(ia.bytes) + (j + (c2 + (g7.bytes + c3)));
  }

  /** The arms are made in buffers of their own: only then is it known how far to jump. */
  method CompileAlternative(ia: Ia, e: Eenv, m: Icode, ghost W: seq<Value>)
    requires m.Alternative?
    requires e.Valid() && ia.Valid() && ia != e.code && Sized(m, W)
    modifies ia, e, e.code
    ensures e.Valid() && ia.Valid() && Wrote(m, old(Now(ia, e)), Now(ia, e))
    decreases m, 0
  {
    hide Eenv.Valid, Ia.Valid, E, Wrote, WroteEach, WroteArgs, WroteClauses, Emit, Index, Src, Row, Functions;
    hide Sources;
    ghost var x := Now(ia, e);
    CompileSrc(ia, e, m.src);
    ia.Instruction(SuppressRcse);
    ghost var x1 := Now(ia, e);
    Compile(ia, e, m.m1, W);
    ghost var y := Now(ia, e);
    ia.Instruction(PopRcse);
    var ia2 := new Ia(100);
    Compile(ia2, e, m.m2, W);
    ghost var y2 := Now(ia2, e);
    var ia3 := new Ia(100);
    Compile(ia3, e, m.m3, W);
    ghost var y3 := Now(ia3, e);
    WriteBranches(ia, ia2.bytes, ia3.bytes);
    Choice(m.src, m.m1, m.m2, m.m3, x, x1, y, y2, y3, Now(ia, e));
  }

  method CompileSeries(ia: Ia, e: Eenv, m: Icode, ghost W: seq<Value>)
    requires m.Sequence? || m.Each? || m.Begin?
    requires e.Valid() && ia.Valid() && ia != e.code && Sized(m, W)
    modifies ia, e, e.code
    ensures e.Valid() && ia.Valid() && Wrote(m, old(Now(ia, e)), Now(ia, e))
    decreases m, 0
  {
    hide E, Wrote, WroteEach, WroteArgs, WroteClauses, Emit, Index, Src, Row, Functions, Sources;
    ghost var x := Now(ia, e);
    if m.Sequence? {
      Compile(ia, e, m.m1, W);
      ghost var y := Now(ia, e);
      Compile(ia, e, m.mp, W);
      Two(m.m1, m.mp, x, y, Now(ia, e));
    } else {
      CompileEach(ia, e, m.ms, W);
      Series(m, x, Now(ia, e));
    }
  }

  method CompileEach(ia: Ia, e: Eenv, ms: Codes, ghost W: seq<Value>)
    requires e.Valid() && ia.Valid() && ia != e.code && SizedEach(ms, W)
    modifies ia, e, e.code
    ensures e.Valid() && ia.Valid() && WroteEach(ms, old(Now(ia, e)), Now(ia, e))
    decreases ms, 2
  {
    hide E, Wrote, WroteEach, WroteArgs, WroteClauses, Emit, Index, Src, Row, Functions, Sources;
    ghost var x := Now(ia, e);
    Compile(ia, e, ms.head, W);
    ghost var y := Now(ia, e);
    if ms.One? {
      OneOf(ms.head, x, y);
    } else {
      CompileEach(ia, e, ms.rest, W);
      MoreOf(ms.head, ms.rest, x, y, Now(ia, e));
    }
  }

  /** Each clause into a buffer of its own, quiet unless it is the last one in tail position. */
  method CompileClauses(e: Eenv, last: bool, ms: Codes, ghost W: seq<Value>) returns (iac: seq<seq<byte>>)
    requires e.Valid() && SizedEach(ms, W)
    modifies e, e.code
    ensures e.Valid() && iac != []
    ensures WroteClauses(last, ms, Snap(old(e.consts), old(e.sources), [], old(e.code.bytes)), Snap(e.consts, e.sources, [], e.code.bytes), iac)
    decreases ms, 2
  {
    hide E, Wrote, WroteEach, WroteArgs, WroteClauses, Emit, Index, Src, Row, Functions, Sources;
    ghost var x := Snap(e.consts, e.sources, [], e.code.bytes);
    var ia := new Ia(100);
    if ms.More? || !last {
      ia.Instruction(SuppressRcse);
    }
    assert Now(ia, e) == x.(a := if ms.More? || !last then E(SuppressRcse) else []);
    Compile(ia, e, ms.head, W);
    ghost var y := Now(ia, e);
    if ms.More? || !last {
      ia.Instruction(PopRcse);
    }
    iac := [ia.bytes];
    if ms.More? {
      var cs := CompileClauses(e, last, ms.rest, W);
      ghost var z := Snap(e.consts, e.sources, [], e.code.bytes);
      ClausesAnywhere(last, ms.rest, y.(a := []), y, z, z, cs);
      NextClause(last, ms.head, ms.rest, x, y, z, ia.bytes, cs);
      iac := iac + cs;
    } else {
      assert ia.bytes == y.a + (if last then [] else E(PopRcse));
      LastClause(last, ms.head, x, y, ia.bytes);
      ClausesAnywhere(last, ms, x, x, y, y.(a := []), iac);
    }
  }

  /** The clauses do not depend on what is in the buffer. */
  lemma ClausesAnywhere(last: bool, ms: Codes, x: Snap, x1: Snap, y: Snap, y1: Snap, iac: seq<seq<byte>>)
    requires WroteClauses(last, ms, x, y, iac) && x1 == x.(a := x1.a) && y1 == y.(a := y1.a)
    ensures WroteClauses(last, ms, x1, y1, iac)
  {
    forall K: seq<Value> | y1.k <= K ensures ReadsClauses(last, ms, K, x1, y1, iac) {
      assert ReadsClauses(last, ms, K, x, y, iac);
    }
  }

  /** The first clause goes straight into the buffer, the others are assembled from the back. */
  method CompileJunction(ia: Ia, e: Eenv, m: Icode, ghost W: seq<Value>)
    requires m.Junction?
    requires e.Valid() && ia.Valid() && ia != e.code && Sized(m, W)
    modifies ia, e, e.code
    ensures e.Valid() && ia.Valid() && Wrote(m, old(Now(ia, e)), Now(ia, e))
    decreases m, 0
  {
    hide E, Wrote, WroteEach, WroteArgs, WroteClauses, Emit, Index, Src, Row, Functions, Sources, Others, ClauseOf;
    ghost var x := Now(ia, e);
    var ms, quiet := m.ms, m.ms.More? || !m.tail;
    if quiet {
      ia.Instruction(SuppressRcse);
    }
    ghost var x1 := Now(ia, e);
    Compile(ia, e, ms.head, W);
    ghost var y := Now(ia, e);
    if quiet {
      ia.Instruction(PopRcse);
    }
    ghost var c := if quiet then E(SuppressRcse) + ClauseOf(x1, y) + E(PopRcse) else ClauseOf(x1, y);
    assert ia.bytes == x.a + c by {
      WroteAfter(ms.head, x1, y);
      assert quiet ==> x.a + E(SuppressRcse) + ClauseOf(x1, y) + E(PopRcse) == x.a + (E(SuppressRcse) + ClauseOf(x1, y) + E(PopRcse));
    }
    var iac: seq<seq<byte>> := [];
    if ms.More? {
      iac := CompileClauses(e, m.tail, ms.rest, W);
      var iar := Assemble(m.conj, iac);
      ia.Append(iar.bytes);
    }
    ghost var z := Snap(e.consts, e.sources, [], e.code.bytes);
    FirstClause(m.tail, ms, x, x1, y, z, c, iac);
    assert ([c] + iac)[1..] == iac;
    OthersOfNone(m.conj);
    Assoc(x.a, c, Others(m.conj, iac));
    Joined(m.conj, m.tail, ms, x, z, Now(ia, e), [c] + iac);
  }

  /** What was written between two moments. */
  ghost function ClauseOf(x: Snap, y: Snap): seq<byte> {
    if x.a <= y.a then y.a[|x.a|..] else []
  }

  lemma WroteAfter(m: Icode, x: Snap, y: Snap)
    requires Wrote(m, x, y)
    ensures y.a == x.a + ClauseOf(x, y) && ClauseOf(x, y) == Emit(m, y.k, x.n)
  {
    hide Emit, Row, Functions, Sized, Sources;
    assert Reads(m, y.k, x, y);
  }

  lemma OthersOfNone(conj: bool)
    ensures Others(conj, []) == []
  {
  }

  /** The first clause, though it went straight into the buffer, is a clause like the others. */
  lemma FirstClause(last: bool, ms: Codes, x: Snap, x1: Snap, y: Snap, z: Snap, c: seq<byte>, iac: seq<seq<byte>>)
    requires var quiet := ms.More? || !last;
      && x1 == (if quiet then x.(a := x.a + E(SuppressRcse)) else x)
      && Wrote(ms.head, x1, y)
      && c == (if quiet then E(SuppressRcse) + ClauseOf(x1, y) + E(PopRcse) else ClauseOf(x1, y))
    requires ms.One? ==> iac == [] && z == y.(a := [])
    requires ms.More? ==> WroteClauses(last, ms.rest, y.(a := []), z, iac)
    ensures WroteClauses(last, ms, x, z, [c] + iac)
  {
    hide *;
    var quiet := ms.More? || !last;
    var start := if quiet then E(SuppressRcse) else [];
    MovedWrite(ms.head, x1, y, start);
    var y1 := y.(a := start + ClauseOf(x1, y));
    assert x1.(a := start) == x.(a := start);
    if ms.One? {
      assert c == y1.a + (if last then [] else E(PopRcse));
      LastClause(last, ms.head, x, y1, c);
      ClausesAnywhere(last, ms, x, x, y1, z, [c]);
      assert [c] + iac == [c];
    } else {
      ClausesAnywhere(last, ms.rest, y.(a := []), y1, z, z, iac);
      NextClause(last, ms.head, ms.rest, x, y1, z, c, iac);
    }
  }

  /** Code does not depend on the buffer it is written to. */
  lemma MovedWrite(m: Icode, x: Snap, y: Snap, start: seq<byte>)
    requires Wrote(m, x, y)
    ensures Wrote(m, x.(a := start), y.(a := start + ClauseOf(x, y)))
  {
    hide Emit, Row, Functions, Sized, Sources;
    forall K: seq<Value> | y.k <= K ensures Reads(m, K, x.(a := start), y.(a := start + ClauseOf(x, y))) {
      assert Reads(m, K, x, y);
    }
  }

  method CompileNegation(ia: Ia, e: Eenv, m: Icode, ghost W: seq<Value>)
    requires m.Negation?
    requires e.Valid() && ia.Valid() && ia != e.code && Sized(m, W)
    modifies ia, e, e.code
    ensures e.Valid() && ia.Valid() && Wrote(m, old(Now(ia, e)), Now(ia, e))
    decreases m, 0
  {
    hide E, Wrote, WroteEach, WroteArgs, WroteClauses, Emit, Index, Src, Row, Functions, Sources;
    ghost var x := Now(ia, e);
    if !m.tail {
      ia.Instruction(SuppressRcse);
    }
    ghost var x1 := Now(ia, e);
    Compile(ia, e, m.m1, W);
    ghost var y := Now(ia, e);
    if !m.tail {
      ia.Instruction(PopRcse);
    }
    ia.Instruction(Not);
    Negate(m.tail, m.m1, x, x1, y, Now(ia, e));
  }

  method CompileLet(ia: Ia, e: Eenv, m: Icode, ghost W: seq<Value>)
    requires m.FixLet?
    requires e.Valid() && ia.Valid() && ia != e.code && Sized(m, W)
    modifies ia, e, e.code
    ensures e.Valid() && ia.Valid() && Wrote(m, old(Now(ia, e)), Now(ia, e))
    decreases m, 0
  {
    hide Eenv.Valid, Ia.Valid, E, Wrote, WroteEach, WroteArgs, WroteClauses, Emit, Index, Src, Row, Functions;
    hide Sources;
    ghost var x := Now(ia, e);
    var fci := e.LookupOrExtend(m.formals);
    var sei := e.NumberSource();
    ghost var x1 := Now(ia, e);
    CompileArgs(ia, e, m.args, W);
    ghost var y := Now(ia, e);
    ia.Instruction(LinkFrame(fci, sei % U64));
    Compile(ia, e, m.mp, W);
    ghost var z := Now(ia, e);
    if !m.tail {
      ia.Instruction(UnlinkFrame);
    }
    Let(m.tail, m.args, m.mp, m.formals, x, x1, y, z, Now(ia, e));
  }

  method CompileLocal(ia: Ia, e: Eenv, m: Icode, ghost W: seq<Value>)
    requires m.Local?
    requires e.Valid() && ia.Valid() && ia != e.code && Sized(m, W)
    modifies ia, e, e.code
    ensures e.Valid() && ia.Valid() && Wrote(m, old(Now(ia, e)), Now(ia, e))
    decreases m, 0
  {
    hide Eenv.Valid, Ia.Valid, E, Wrote, WroteEach, WroteArgs, WroteClauses, Emit, Index, Src, Row, Functions;
    hide Sources;
    ghost var x := Now(ia, e);
    var fci := e.LookupOrExtend(m.formals);
    ghost var x1 := Now(ia, e);
    Compile(ia, e, m.m1, W);
    ghost var y := Now(ia, e);
    CompileSrc(ia, e, m.src);
    ia.Instruction(ExtendFrame(m.size, fci));
    ia.Instruction(ShallowSet(m.j));
    Compile(ia, e, m.mp, W);
    Localise(m.src, m.j, m.m1, m.mp, m.size, m.formals, x, x1, y, Now(ia, e), W);
  }

  method CompilePrimitive2(ia: Ia, e: Eenv, m: Icode, ghost W: seq<Value>)
    requires m.Primitive2?
    requires e.Valid() && ia.Valid() && ia != e.code && Sized(m, W)
    modifies ia, e, e.code
    ensures e.Valid() && ia.Valid() && Wrote(m, old(Now(ia, e)), Now(ia, e))
    decreases m, 0
  {
    hide Eenv.Valid, Ia.Valid, E, Wrote, WroteEach, WroteArgs, WroteClauses, Emit, Index, Src, Row, Functions;
    hide Sources;
    ghost var x := Now(ia, e);
    Compile(ia, e, m.m1, W);
    ghost var y := Now(ia, e);
    ia.Instruction(PushValue);
    Compile(ia, e, m.m2, W);
    ghost var z := Now(ia, e);
    ia.Instruction(PopReg1);
    CompileSrc(ia, e, m.src);
    ia.Instruction(PrimCall2(m.pd));
    Binary(m.src, m.m1, m.m2, m.pd, x, y, z, Now(ia, e), W);
  }

  method CompileCall(ia: Ia, e: Eenv, m: Icode, ghost W: seq<Value>)
    requires m.Call?
    requires e.Valid() && ia.Valid() && ia != e.code && Sized(m, W)
    modifies ia, e, e.code
    ensures e.Valid() && ia.Valid() && Wrote(m, old(Now(ia, e)), Now(ia, e))
    decreases m, 0
  {
    hide Eenv.Valid, Ia.Valid, E, Wrote, WroteEach, WroteArgs, WroteClauses, Emit, Index, Src, Row, Functions;
    hide Sources;
    ghost var x := Now(ia, e);
    Compile(ia, e, m.m1, W);
    ghost var y := Now(ia, e);
    ia.Instruction(PushValue);
    CompileArgs(ia, e, m.args, W);
    ghost var z := Now(ia, e);
    CompileSrc(ia, e, m.src);
    ghost var before := ia.bytes;
    ia.Instruction(PopFunction);
    if m.tail {
      ia.Instruction(FunctionGoto);
      Assoc(before, E(PopFunction), E(FunctionGoto));
    } else {
      ia.Instruction(PreserveState);
      ia.Instruction(FunctionInvoke);
      ia.Instruction(RestoreState);
      assert before + E(PopFunction) + E(PreserveState) + E(FunctionInvoke) + E(RestoreState)
          == before + (E(PopFunction) + (E(PreserveState) + (E(FunctionInvoke) + E(RestoreState))));
    }
    Application(m.tail, m.src, m.m1, m.args, x, y, z, Now(ia, e));
  }

  method CompileArgs(ia: Ia, e: Eenv, args: Args, ghost W: seq<Value>)
    requires e.Valid() && ia.Valid() && ia != e.code && SizedArgs(args, W)
    modifies ia, e, e.code
    ensures e.Valid() && ia.Valid() && WroteArgs(args, old(Now(ia, e)), Now(ia, e))
    decreases args, 2
  {
    hide E, Wrote, WroteEach, WroteArgs, WroteClauses, Emit, Index, Src, Row, Functions, Sources;
    ghost var x := Now(ia, e);
    if args.AllocFrame? {
      ia.Instruction(AllocateFrame(args.arity + 1));
      NoArgument(args.arity, x, Now(ia, e), W);
    } else {
      Compile(ia, e, args.m1, W);
      ghost var y := Now(ia, e);
      ia.Instruction(PushValue);
      CompileArgs(ia, e, args.rest, W);
      ghost var z := Now(ia, e);
      ia.Instruction(if args.StoreArgument? then PopFrame(args.rank) else PopListFrame(args.arity));
      Argument(args, x, y, z, Now(ia, e), W);
    }
  }

  lemma NoArgument(arity: nat, x: Snap, y: Snap, W: seq<Value>)
    requires SizedArgs(AllocFrame(arity), W) && y == x.(a := x.a + E(AllocateFrame(arity + 1)))
    ensures WroteArgs(AllocFrame(arity), x, y)
  {
    hide E;
    forall K: seq<Value> | y.k <= K ensures ReadsArgs(AllocFrame(arity), K, x, y) {
    }
  }

  method CompileScoped(ia: Ia, e: Eenv, m: Icode, ghost W: seq<Value>)
    requires m.ScopedLet? || m.Trapping?
    requires e.Valid() && ia.Valid() && ia != e.code && Sized(m, W)
    modifies ia, e, e.code
    ensures e.Valid() && ia.Valid() && Wrote(m, old(Now(ia, e)), Now(ia, e))
    decreases m, 0
  {
    hide Eenv.Valid, Ia.Valid, E, Wrote, WroteEach, WroteArgs, WroteClauses, Emit, Index, Src, Row, Functions;
    hide Sources;
    ghost var x := Now(ia, e);
    Compile(ia, e, m.m1, W);
    ghost var y := Now(ia, e);
    ghost var push, pop;
    if m.ScopedLet? {
      var kind := if m.environ then Environ else Dynamic;
      ia.Instruction(PushBinding(kind, m.si));
      push, pop := E(PushBinding(kind, m.si)), E(PopBinding(kind));
    } else {
      WriteTraps(ia, m.sis, true);
      push, pop := PushTraps(m.sis), PopTraps(m.sis);
    }
    assert ia.bytes == y.a + push;
    Compile(ia, e, m.mp, W);
    ghost var z := Now(ia, e);
    if m.ScopedLet? {
      ia.Instruction(PopBinding(if m.environ then Environ else Dynamic));
    } else {
      WriteTraps(ia, m.sis, false);
    }
    Scoped(m, x, y, z, Now(ia, e), push, pop, W);
  }

  method WriteTraps(ia: Ia, sis: seq<nat>, push: bool)
    requires ia.Valid() && forall k :: 0 <= k < |sis| ==> sis[k] < 65536
    modifies ia
    ensures ia.Valid() && ia.bytes == old(ia.bytes) + if push then PushTraps(sis) else PopTraps(sis)
    decreases |sis|
  {
    hide E;
    if sis != [] {
      var ins := if push then PushBinding(Trap, sis[0]) else PopBinding(Trap);
      ia.Instruction(ins);
      WriteTraps(ia, sis[1..], push);
      Assoc(old(ia.bytes), E(ins), if push then PushTraps(sis[1..]) else PopTraps(sis[1..]));
    }
  }

  /** The function's own code in one buffer, its block into the byte code, and only the closure's making here. */
  method CompileAbstraction(ia: Ia, e: Eenv, m: Icode, ghost W: seq<Value>)
    requires m.Abstraction?
    requires e.Valid() && ia.Valid() && ia != e.code && Sized(m, W)
    modifies ia, e, e.code
    ensures e.Valid() && ia.Valid() && Wrote(m, old(Now(ia, e)), Now(ia, e))
    decreases m, 0
  {
    hide Eenv.Valid, Ia.Valid, E, Wrote, WroteEach, WroteArgs, WroteClauses, Emit, Index, Src, Row, Functions;
    hide Sources, EmitArity;
    ghost var x := Now(ia, e);
    var nci, fci, dsci := Describe(e, m);
    var sei := e.NumberSource();
    ghost var x1 := Snap(e.consts, e.sources, EmitArity(m) + E(LinkFrame(fci, sei % U64)), e.code.bytes);
    var code;
    ghost var y;
    code, y := CompileFunction(e, m, fci, sei % U64, W);
    var block := new Ia(1024);
    WriteBlock(block, code, nci, fci, dsci, sei % U64, m.vi);
    e.AppendCode(block.bytes);
    ia.Instruction(CreateClosure(m.vi));
    Hoist(m, x, x1, y, Now(ia, e), W);
  }

  /** The code of a function, in a buffer of its own. */
  method CompileFunction(e: Eenv, m: Icode, fci: nat, sei: nat, ghost W: seq<Value>) returns (code: seq<byte>, ghost y: Snap)
    requires e.Valid() && m.Abstraction? && Sized(m.mp, W)
    modifies e, e.code
    ensures e.Valid() && code == y.a + E(Return) && y == Snap(e.consts, e.sources, y.a, e.code.bytes)
    ensures Wrote(m.mp, Snap(old(e.consts), old(e.sources), EmitArity(m) + E(LinkFrame(fci, sei)), old(e.code.bytes)), y)
    decreases m.mp, 2
  {
    hide Eenv.Valid, Ia.Valid, E, Wrote, Emit, EmitArity;
    var tf := new Ia(200);
    WriteArity(tf, m);
    tf.Instruction(LinkFrame(fci, sei));
    Compile(tf, e, m.mp, W);
    y := Now(tf, e);
    tf.Instruction(Return);
    code := tf.bytes;
  }

  /** The constants that describe a function. */
  method Describe(e: Eenv, m: Icode) returns (nci: nat, fci: nat, dsci: nat)
    requires e.Valid() && m.Abstraction?
    modifies e
    ensures e.Valid() && old(e.consts) <= e.consts && e.sources == old(e.sources)
    ensures m.name in e.consts && m.formals in e.consts && m.docstr in e.consts
    ensures nci == Index(e.consts, m.name) && fci == Index(e.consts, m.formals) && dsci == Index(e.consts, m.docstr)
  {
    hide Eenv.Valid, Index;
    nci := e.LookupOrExtend(m.name);
    ghost var k1 := e.consts;
    fci := e.LookupOrExtend(m.formals);
    ghost var k2 := e.consts;
    dsci := e.LookupOrExtend(m.docstr);
    PrefixThen(k1, k2, e.consts);
    PrefixThen(old(e.consts), k1, e.consts);
    IndexStable(k1, e.consts, m.name);
    IndexStable(k2, e.consts, m.formals);
  }

  method WriteArity(tf: Ia, m: Icode)
    requires tf.Valid() && m.Abstraction? && tf.bytes == []
    modifies tf
    ensures tf.Valid() && tf.bytes == EmitArity(m)
  {
    hide E;
    if m.nary {
      tf.Instruction(ArityGe(m.arity + 1));
      tf.Instruction(PackFrame(m.arity));
    } else {
      tf.Instruction(ArityEq(m.arity + 1));
    }
  }

  /** The entry operand is the size of the goto that follows; the goto counts exactly the function's code. */
  method WriteBlock(block: Ia, code: seq<byte>, nci: nat, fci: nat, dsci: nat, sei: nat, vi: nat)
    requires block.Valid() && block.bytes == [] && vi < 65536
    modifies block
    ensures block.Valid()
    ensures var g := E(Goto(|code|));
      block.bytes == E(CreateFunction(|g|, |code|, nci, fci, dsci, sei)) + g + (code + E(ValSet(vi)))
  {
    hide E;
    var g5 := new Ia(10);
    g5.Instruction(Goto(|code|));
    assert g5.bytes == E(Goto(|code|));
    block.Instruction(CreateFunction(|g5.bytes|, |code|, nci, fci, dsci, sei));
    block.Append(g5.bytes);
    block.Append(code);
    block.Instruction(ValSet(vi));
  }

  /** Each kind of I-code is written as its layout says. */
  method Compile(ia: Ia, e: Eenv, m: Icode, ghost W: seq<Value>)
    requires e.Valid() && ia.Valid() && ia != e.code && Sized(m, W)
    modifies ia, e, e.code
    ensures e.Valid() && ia.Valid() && Wrote(m, old(Now(ia, e)), Now(ia, e))
    decreases m, 1
  {
    hide *;
    match m
    case ConstantOf(_) => CompileLeaf(ia, e, m, W);
    case ShallowArgumentRef(_) => CompileLeaf(ia, e, m, W);
    case DeepArgumentRef(_, _) => CompileLeaf(ia, e, m, W);
    case SymbolRef(_, _) => CompileLeaf(ia, e, m, W);
    case ScopedRef(_, _) => CompileLeaf(ia, e, m, W);
    case Primitive0(_, _) => CompileLeaf(ia, e, m, W);
    case ShallowArgumentSet(_, _) => CompileUnary(ia, e, m, W);
    case DeepArgumentSet(_, _, _) => CompileUnary(ia, e, m, W);
    case SymbolSet(_, _, _) => CompileUnary(ia, e, m, W);
    case Primitive1(_, _, _) => CompileUnary(ia, e, m, W);
    case Alternative(_, _, _, _) => CompileAlternative(ia, e, m, W);
    case Sequence(_, _) => CompileSeries(ia, e, m, W);
    case Each(_) => CompileSeries(ia, e, m, W);
    case Begin(_, _) => CompileSeries(ia, e, m, W);
    case Junction(_, _, _) => CompileJunction(ia, e, m, W);
    case Negation(_, _) => CompileNegation(ia, e, m, W);
    case FixLet(_, _, _, _) => CompileLet(ia, e, m, W);
    case Local(_, _, _, _, _, _) => CompileLocal(ia, e, m, W);
    case Primitive2(_, _, _, _) => CompilePrimitive2(ia, e, m, W);
    case Call(_, _, _, _) => CompileCall(ia, e, m, W);
    case Abstraction(_, _, _, _, _, _, _) => CompileAbstraction(ia, e, m, W);
    case ScopedLet(_, _, _, _) => CompileScoped(ia, e, m, W);
    case Trapping(_, _, _) => CompileScoped(ia, e, m, W);
  }

  // Whole forms

  /** Every fragment has code. */
  lemma {:induction false} EmitSomething(m: Icode, K: seq<Value>, n: nat)
    ensures |Emit(m, K, n)| > 0
    decreases m, 0
  {
    hide E, Emit, Src, EmitArgs, EmitEach, EmitJunction, Branches, PushTraps, PopTraps, Sources;
    EmitByRule(m, K, n);
    match m
    case Sequence(m1, _) => EmitSomething(m1, K, n);
    case Each(ms) => EmitSomethingEach(ms, K, n);
    case Begin(_, ms) => EmitSomethingEach(ms, K, n);
    case Junction(conj, last, ms) => JunctionSomething(conj, last, ms, K, n);
    case Trapping(_, m1, _) => EmitSomething(m1, K, n);
    case _ =>
  }

  lemma {:induction false} EmitSomethingEach(ms: Codes, K: seq<Value>, n: nat)
    ensures |EmitEach(ms, K, n)| > 0
    decreases ms, 1
  {
    hide Emit;
    EmitSomething(ms.head, K, n);
  }

  lemma {:induction false} JunctionSomething(conj: bool, last: bool, ms: Codes, K: seq<Value>, n: nat)
    ensures |EmitJunction(conj, last, ms, K, n)| > 0
    decreases ms, 1
  {
    hide E, Emit;
    EmitSomething(ms.head, K, n);
  }

  /**
    A form is generated behind the byte code there is: all its blocks, then its main code, from the program
    counter returned.  The branch that stores a NOP for a form without code is never taken.
   */
  method Generate(e: Eenv, m: Icode, ghost W: seq<Value>) returns (pc0: nat)
    requires e.Valid() && Sized(m, W)
    modifies e, e.code
    ensures e.Valid() && pc0 == |old(e.code.bytes)|
    ensures old(e.consts) <= e.consts && e.sources == old(e.sources) + Sources(m)
    ensures forall K: seq<Value> :: e.consts <= K ==>
      && Sized(m, K)
      && e.code.bytes == old(e.code.bytes) + (Blocks(m, K, old(e.sources)) + Emit(m, K, old(e.sources)))
  {
    hide Eenv.Valid, Ia.Valid, E, Emit, Row, Functions, Sized, Sources;
    pc0 := |e.code.bytes|;
    var ia := new Ia(1024);
    ghost var x := Now(ia, e);
    Compile(ia, e, m, W);
    ghost var y := Now(ia, e);
    assert |ia.bytes| > 0 by {
      assert Reads(m, y.k, x, y);
      EmitSomething(m, y.k, x.n);
    }
    if |ia.bytes| == 0 {
      assert false;
    }
    e.AppendCode(ia.bytes);
    forall K: seq<Value> | e.consts <= K
      ensures Sized(m, K) && e.code.bytes == old(e.code.bytes) + (Blocks(m, K, x.n) + Emit(m, K, x.n))
    {
      assert Reads(m, K, x, y);
      Assoc(x.b, Row(Functions(m, x.n), K), Emit(m, K, x.n));
    }
  }

  /** A top-level form comes in an abort wrapper: its code is made apart, as the abort counts its bytes. */
  method GenerateTop(e: Eenv, m: Icode, ghost W: seq<Value>) returns (pc0: nat)
    requires e.Valid() && Sized(m, W)
    modifies e, e.code
    ensures e.Valid() && pc0 == |old(e.code.bytes)|
    ensures old(e.consts) <= e.consts && e.sources == old(e.sources) + Sources(m)
    ensures forall K: seq<Value> :: e.consts <= K ==>
      && Sized(m, K)
      && e.code.bytes == old(e.code.bytes) + (Blocks(m, K, old(e.sources)) + TopCode(m, K, old(e.sources)))
  {
    hide Eenv.Valid, Ia.Valid, E, Emit, Row, Functions, Sized, Sources;
    pc0 := |e.code.bytes|;
    var ia := new Ia(1024);
    var inner := new Ia(100);
    ghost var x := Now(inner, e);
    Compile(inner, e, m, W);
    ghost var y := Now(inner, e);
    var c := inner.bytes;
    ia.Instruction(PushAbort(|c|));
    ia.Append(c);
    ia.Instruction(PopAbort);
    ia.Instruction(Return);
    TopAssoc(E(PushAbort(|c|)), c, E(PopAbort), E(Return));
    e.AppendCode(ia.bytes);
    forall K: seq<Value> | e.consts <= K
      ensures Sized(m, K) && e.code.bytes == old(e.code.bytes) + (Blocks(m, K, x.n) + TopCode(m, K, x.n))
    {
      assert Reads(m, K, x, y);
      Assoc(x.b, Row(Functions(m, x.n), K), TopCode(m, K, x.n));
    }
  }

  lemma TopAssoc(a: seq<byte>, b: seq<byte>, c: seq<byte>, d: seq<byte>)
    ensures [] + a + b + c + d == a + (b + (c + d))
  {
  }
}
