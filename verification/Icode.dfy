/**
  Intermediate code and the bytes the generator makes of it.

  Bytes depend on the constants table and on how many source expressions were numbered before.
  The table only grows, and a constant keeps the index of its first occurrence, so every fragment
  can be described with the finished table K.  Functions are hoisted: a closure's own code is not
  where the closure is made but in a block of its own, which goes out before the main code.
 */
module Icode {

  import opened Varuint
  import opened Instructions
  import opened Machine

  datatype Icode =
    | ConstantOf(c: Value)
    | ShallowArgumentRef(j: nat)
    | DeepArgumentRef(i: nat, j: nat)
    | ShallowArgumentSet(j: nat, m1: Icode)
    | DeepArgumentSet(i: nat, j: nat, m1: Icode)
    | SymbolRef(called: bool, si: nat)
    | SymbolSet(src: bool, si: nat, m1: Icode)
    | Alternative(src: bool, m1: Icode, m2: Icode, m3: Icode)
    | Sequence(m1: Icode, mp: Icode)
    | Each(ms: Codes)
    | Begin(tail: bool, ms: Codes)
    | Junction(conj: bool, tail: bool, ms: Codes)
    | Negation(tail: bool, m1: Icode)
    | FixLet(tail: bool, args: Args, mp: Icode, formals: Value)
    | Local(src: bool, j: nat, m1: Icode, mp: Icode, size: nat, formals: Value)
    | Primitive0(src: bool, pd: nat)
    | Primitive1(src: bool, m1: Icode, pd: nat)
    | Primitive2(src: bool, m1: Icode, m2: Icode, pd: nat)
    | Call(tail: bool, src: bool, m1: Icode, args: Args)
    | Abstraction(nary: bool, mp: Icode, name: Value, arity: nat, formals: Value, docstr: Value, vi: nat)
    | ScopedLet(environ: bool, si: nat, m1: Icode, mp: Icode)
    | ScopedRef(environ: bool, si: nat)
    | Trapping(sis: seq<nat>, m1: Icode, mp: Icode)

  /** One or more pieces of I-code in a row. */
  datatype Codes = One(head: Icode) | More(head: Icode, rest: Codes)

  /** The construction of an argument frame. */
  datatype Args =
    | StoreArgument(m1: Icode, rest: Args, rank: nat)
    | ListArgument(m1: Icode, rest: Args, arity: nat)
    | AllocFrame(arity: nat)

  /** The index of the first occurrence, or the length of the table. */
  function Index(K: seq<Value>, v: Value): (k: nat)
    ensures k <= |K|
    ensures v in K ==> k < |K| && K[k] == v
    decreases |K|
  {
    if K == [] then 0 else if K[0] == v then 0 else Index(K[1..], v) + 1
  }

  function Count(b: bool): (n: nat) { if b then 1 else 0 }

  /** How many source expressions a fragment numbers. */
  function Sources(m: Icode): (n: nat) {
    match m
    case ShallowArgumentSet(_, m1) => Sources(m1)
    case DeepArgumentSet(_, _, m1) => Sources(m1)
    case SymbolSet(src, _, m1) => Sources(m1) + Count(src)
    case Alternative(src, m1, m2, m3) => Count(src) + Sources(m1) + Sources(m2) + Sources(m3)
    case Sequence(m1, mp) => Sources(m1) + Sources(mp)
    case Each(ms) => SourcesEach(ms)
    case Begin(_, ms) => SourcesEach(ms)
    case Junction(_, _, ms) => SourcesEach(ms)
    case Negation(_, m1) => Sources(m1)
    case FixLet(_, args, mp, _) => 1 + SourcesArgs(args) + Sources(mp)
    case Local(src, _, m1, mp, _, _) => Sources(m1) + Count(src) + Sources(mp)
    case Primitive0(src, _) => Count(src)
    case Primitive1(src, m1, _) => Sources(m1) + Count(src)
    case Primitive2(src, m1, m2, _) => Sources(m1) + Sources(m2) + Count(src)
    case Call(_, src, m1, args) => Sources(m1) + SourcesArgs(args) + Count(src)
    case Abstraction(_, mp, _, _, _, _, _) => 1 + Sources(mp)
    case ScopedLet(_, _, m1, mp) => Sources(m1) + Sources(mp)
    case Trapping(_, m1, mp) => Sources(m1) + Sources(mp)
    case _ => 0
  }

  function SourcesEach(ms: Codes): (n: nat) {
    match ms
    case One(m) => Sources(m)
    case More(m, rest) => Sources(m) + SourcesEach(rest)
  }

  function SourcesArgs(args: Args): (n: nat) {
    match args
    case StoreArgument(m1, rest, _) => Sources(m1) + SourcesArgs(rest)
    case ListArgument(m1, rest, _) => Sources(m1) + SourcesArgs(rest)
    case AllocFrame(_) => 0
  }

  // Source expression numbers are 64-bit counters.

  function E(ins: Instr): (s: seq<byte>)
    ensures |s| >= 1
  {
    Instructions.Encode(ins)
  }

  function Src(src: bool, n: nat): (s: seq<byte>) { if src then E(SrcExpr(n % U64)) else [] }

  /** A fragment whose failing commands raise no condition. */
  function Quiet(on: bool, code: seq<byte>): (s: seq<byte>) {
    if on then E(SuppressRcse) + (code + E(PopRcse)) else code
  }

  function Load(c: Value, K: seq<Value>): (ins: Instr) {
    match c
    case Fixnum(n) => LoadFixnum(n)
    case Immediate(k) => LoadImmediate(k)
    case Unicode(u) => LoadUnicode(u)
    case _ => ConstantRef(Index(K, c))
  }

  function SetArgument(j: nat): (ins: Instr) { if j < 4 then ShallowSetShort(j) else ShallowSet(j) }

  function Jump(conj: bool, off: nat): (ins: Instr) { if conj then JumpFalse(off) else JumpTrue(off) }

  /** The main code of a fragment. */
  function Emit(m: Icode, K: seq<Value>, n: nat): (s: seq<byte>)
    decreases m, 1
  {
    EmitRule(m, K, n)
  }

  lemma EmitByRule(m: Icode, K: seq<Value>, n: nat)
    ensures Emit(m, K, n) == EmitRule(m, K, n)
  {
    hide EmitRule;
  }

  /** The layout of each kind of I-code, from the code of its parts. */
  function EmitRule(m: Icode, K: seq<Value>, n: nat): (s: seq<byte>)
    decreases m, 0
  {
    match m
    case ConstantOf(c) => E(Load(c, K))
    case ShallowArgumentRef(j) => E(ShallowRef(j))
    case DeepArgumentRef(i, j) => E(DeepRef(i, j))
    case ShallowArgumentSet(j, m1) => Emit(m1, K, n) + E(SetArgument(j))
    case DeepArgumentSet(i, j, m1) => Emit(m1, K, n) + E(DeepSet(i, j))
    case SymbolRef(called, si) => E(SymRef(called, si))
    case SymbolSet(src, si, m1) => Emit(m1, K, n) + (Src(src, n + Sources(m1)) + E(SymSet(si)))
    case Alternative(src, m1, m2, m3) =>
      var n1 := n + Count(src);
      var n2 := n1 + Sources(m1);
      Src(src, n) + (Quiet(true, Emit(m1, K, n1)) + Branches(Emit(m2, K, n2), Emit(m3, K, n2 + Sources(m2))))
    case Sequence(m1, mp) => Emit(m1, K, n) + Emit(mp, K, n + Sources(m1))
    case Each(ms) => EmitEach(ms, K, n)
    case Begin(_, ms) => EmitEach(ms, K, n)
    case Junction(conj, tail, ms) => EmitJunction(conj, tail, ms, K, n)
    case Negation(tail, m1) => Quiet(!tail, Emit(m1, K, n)) + E(Not)
    case FixLet(tail, args, mp, formals) =>
      EmitArgs(args, K, n + 1) + (E(LinkFrame(Index(K, formals), n % U64))
        + (Emit(mp, K, n + 1 + SourcesArgs(args)) + (if tail then [] else E(UnlinkFrame))))
    case Local(src, j, m1, mp, size, formals) =>
      var n1 := n + Sources(m1);
      Emit(m1, K, n) + (Src(src, n1) + (E(ExtendFrame(size, Index(K, formals)))
        + (E(ShallowSet(j)) + Emit(mp, K, n1 + Count(src)))))
    case Primitive0(src, pd) => Src(src, n) + E(PrimCall0(pd))
    case Primitive1(src, m1, pd) => Emit(m1, K, n) + (Src(src, n + Sources(m1)) + E(PrimCall1(pd)))
    case Primitive2(src, m1, m2, pd) =>
      var n1 := n + Sources(m1);
      Emit(m1, K, n) + (E(PushValue) + (Emit(m2, K, n1) + (E(PopReg1) + (Src(src, n1 + Sources(m2)) + E(PrimCall2(pd))))))
    case Call(tail, src, m1, args) =>
      var n1 := n + Sources(m1);
      Emit(m1, K, n) + (E(PushValue) + (EmitArgs(args, K, n1) + (Src(src, n1 + SourcesArgs(args)) + EmitCall(tail))))
    case Abstraction(_, _, _, _, _, _, vi) => E(CreateClosure(vi))
    case ScopedLet(environ, si, m1, mp) =>
      var kind := if environ then Environ else Dynamic;
      Emit(m1, K, n) + (E(PushBinding(kind, si)) + (Emit(mp, K, n + Sources(m1)) + E(PopBinding(kind))))
    case ScopedRef(environ, si) => E(BindingRef(environ, si))
    case Trapping(sis, m1, mp) =>
      Emit(m1, K, n) + (PushTraps(sis) + (Emit(mp, K, n + Sources(m1)) + PopTraps(sis)))
  }

  function EmitEach(ms: Codes, K: seq<Value>, n: nat): (s: seq<byte>)
    decreases ms, 0
  {
    match ms
    case One(m) => Emit(m, K, n)
    case More(m, rest) => Emit(m, K, n) + EmitEach(rest, K, n + Sources(m))
  }

  /** Each clause but the last is followed by a jump over all that is left. */
  function EmitJunction(conj: bool, tail: bool, ms: Codes, K: seq<Value>, n: nat): (s: seq<byte>)
    decreases ms, 0
  {
    match ms
    case One(m) => Quiet(!tail, Emit(m, K, n))
    case More(m, rest) =>
      var others := EmitJunction(conj, tail, rest, K, n + Sources(m));
      Quiet(true, Emit(m, K, n)) + (E(Jump(conj, |others|)) + others)
  }

  function EmitArgs(args: Args, K: seq<Value>, n: nat): (s: seq<byte>)
    decreases args, 0
  {
    match args
    case StoreArgument(m1, rest, rank) =>
      Emit(m1, K, n) + (E(PushValue) + (EmitArgs(rest, K, n + Sources(m1)) + E(PopFrame(rank))))
    case ListArgument(m1, rest, arity) =>
      Emit(m1, K, n) + (E(PushValue) + (EmitArgs(rest, K, n + Sources(m1)) + E(PopListFrame(arity))))
    case AllocFrame(arity) => E(AllocateFrame(arity + 1))
  }

  /** Both arms: a jump past the first and the jump that ends it, and at its end a jump past the second. */
  function Branches(c2: seq<byte>, c3: seq<byte>): (s: seq<byte>) {
    E(JumpFalse(|c2| + |E(Goto(|c3|))|)) + (c2 + (E(Goto(|c3|)) + c3))
  }

  function EmitCall(tail: bool): (s: seq<byte>) {
    if tail then E(PopFunction) + E(FunctionGoto)
    else E(PopFunction) + (E(PreserveState) + (E(FunctionInvoke) + E(RestoreState)))
  }

  function PushTraps(sis: seq<nat>): (s: seq<byte>)
    decreases |sis|
  {
    if sis == [] then [] else E(PushBinding(Trap, sis[0])) + PushTraps(sis[1..])
  }

  function PopTraps(sis: seq<nat>): (s: seq<byte>)
    decreases |sis|
  {
    if sis == [] then [] else E(PopBinding(Trap)) + PopTraps(sis[1..])
  }

  // Functions

  /** The code of a function: its arity check, its frame, its body and the return. */
  function FunctionCode(m: Icode, K: seq<Value>, n: nat): (s: seq<byte>)
    requires m.Abstraction?
  {
    EmitArity(m) + (E(LinkFrame(Index(K, m.formals), n % U64)) + (Emit(m.mp, K, n + 1) + E(Return)))
  }

  function EmitArity(m: Icode): (s: seq<byte>)
    requires m.Abstraction?
  {
    if m.nary then E(ArityGe(m.arity + 1)) + E(PackFrame(m.arity)) else E(ArityEq(m.arity + 1))
  }

  /** The start of a function's block: it makes the function value and jumps over its code. */
  function BlockHead(m: Icode, K: seq<Value>, n: nat): (s: seq<byte>)
    requires m.Abstraction?
  {
    var len := |FunctionCode(m, K, n)|;
    E(CreateFunction(|E(Goto(len))|, len, Index(K, m.name), Index(K, m.formals), Index(K, m.docstr), n % U64)) + E(Goto(len))
  }

  function Block(m: Icode, K: seq<Value>, n: nat): (s: seq<byte>)
    requires m.Abstraction?
  {
    BlockHead(m, K, n) + (FunctionCode(m, K, n) + E(ValSet(m.vi)))
  }

  /** A function and the number of source expressions before it. */
  datatype Fn = Fn(node: Icode, n: nat)

  /** The functions of a fragment in the order their blocks go out: an inner function before the one around it. */
  function Functions(m: Icode, n: nat): (fs: seq<Fn>) {
    match m
    case ShallowArgumentSet(_, m1) => Functions(m1, n)
    case DeepArgumentSet(_, _, m1) => Functions(m1, n)
    case SymbolSet(_, _, m1) => Functions(m1, n)
    case Alternative(src, m1, m2, m3) =>
      var n1 := n + Count(src);
      var n2 := n1 + Sources(m1);
      Functions(m1, n1) + (Functions(m2, n2) + Functions(m3, n2 + Sources(m2)))
    case Sequence(m1, mp) => Functions(m1, n) + Functions(mp, n + Sources(m1))
    case Each(ms) => FunctionsEach(ms, n)
    case Begin(_, ms) => FunctionsEach(ms, n)
    case Junction(_, _, ms) => FunctionsEach(ms, n)
    case Negation(_, m1) => Functions(m1, n)
    case FixLet(_, args, mp, _) => FunctionsArgs(args, n + 1) + Functions(mp, n + 1 + SourcesArgs(args))
    case Local(src, _, m1, mp, _, _) => Functions(m1, n) + Functions(mp, n + Sources(m1) + Count(src))
    case Primitive1(_, m1, _) => Functions(m1, n)
    case Primitive2(_, m1, m2, _) => Functions(m1, n) + Functions(m2, n + Sources(m1))
    case Call(_, _, m1, args) => Functions(m1, n) + FunctionsArgs(args, n + Sources(m1))
    case Abstraction(_, mp, _, _, _, _, _) => Functions(mp, n + 1) + [Fn(m, n)]
    case ScopedLet(_, _, m1, mp) => Functions(m1, n) + Functions(mp, n + Sources(m1))
    case Trapping(_, m1, mp) => Functions(m1, n) + Functions(mp, n + Sources(m1))
    case _ => []
  }

  function FunctionsEach(ms: Codes, n: nat): (fs: seq<Fn>) {
    match ms
    case One(m) => Functions(m, n)
    case More(m, rest) => Functions(m, n) + FunctionsEach(rest, n + Sources(m))
  }

  function FunctionsArgs(args: Args, n: nat): (fs: seq<Fn>) {
    match args
    case StoreArgument(m1, rest, _) => Functions(m1, n) + FunctionsArgs(rest, n + Sources(m1))
    case ListArgument(m1, rest, _) => Functions(m1, n) + FunctionsArgs(rest, n + Sources(m1))
    case AllocFrame(_) => []
  }

  /** Blocks in a row. */
  function Row(fs: seq<Fn>, K: seq<Value>): (s: seq<byte>)
    decreases |fs|
  {
    if fs == [] then []
    else (if fs[0].node.Abstraction? then Block(fs[0].node, K, fs[0].n) else []) + Row(fs[1..], K)
  }

  lemma {:induction false} RowAppend(a: seq<Fn>, b: seq<Fn>, K: seq<Value>)
    ensures Row(a + b, K) == Row(a, K) + Row(b, K)
    decreases |a|
  {
    hide Block;
    if a == [] {
      assert a + b == b;
    } else {
      assert (a + b)[1..] == a[1..] + b;
      RowAppend(a[1..], b, K);
    }
  }

  /** The hoisted code of a fragment. */
  function Blocks(m: Icode, K: seq<Value>, n: nat): (s: seq<byte>) {
    Row(Functions(m, n), K)
  }

  // Static conditions

  /** Tail calls and tail lets stand only where nothing but the return is left to do. */
  predicate TailOK(m: Icode, tail: bool) {
    match m
    case ShallowArgumentSet(_, m1) => TailOK(m1, false)
    case DeepArgumentSet(_, _, m1) => TailOK(m1, false)
    case SymbolSet(_, _, m1) => TailOK(m1, false)
    case Alternative(_, m1, m2, m3) => TailOK(m1, false) && TailOK(m2, tail) && TailOK(m3, tail)
    case Sequence(m1, mp) => TailOK(m1, false) && TailOK(mp, tail)
    case Each(ms) => TailEach(ms, tail)
    case Begin(_, ms) => TailEach(ms, tail)
    case Junction(_, t, ms) => TailEach(ms, tail && t)
    case Negation(_, m1) => TailOK(m1, false)
    case FixLet(t, args, mp, _) => (t ==> tail) && TailArgs(args) && TailOK(mp, t)
    case Local(_, _, m1, mp, _, _) => TailOK(m1, false) && TailOK(mp, tail)
    case Primitive1(_, m1, _) => TailOK(m1, false)
    case Primitive2(_, m1, m2, _) => TailOK(m1, false) && TailOK(m2, false)
    case Call(t, _, m1, args) => (t ==> tail) && TailOK(m1, false) && TailArgs(args)
    case Abstraction(_, mp, _, _, _, _, _) => TailOK(mp, true)
    case ScopedLet(_, _, m1, mp) => TailOK(m1, false) && TailOK(mp, false)
    case Trapping(_, m1, mp) => TailOK(m1, false) && TailOK(mp, false)
    case _ => true
  }

  predicate TailEach(ms: Codes, tail: bool) {
    match ms
    case One(m) => TailOK(m, tail)
    case More(m, rest) => TailOK(m, false) && TailEach(rest, tail)
  }

  predicate TailArgs(args: Args) {
    match args
    case StoreArgument(m1, rest, _) => TailOK(m1, false) && TailArgs(rest)
    case ListArgument(m1, rest, _) => TailOK(m1, false) && TailArgs(rest)
    case AllocFrame(_) => true
  }

  predicate ConstantFits(c: Value, K: seq<Value>) {
    match c
    case Fixnum(n) => FIXNUM_MIN <= n <= FIXNUM_MAX
    case Immediate(k) => FIXNUM_MIN <= k <= FIXNUM_MAX
    case Unicode(u) => u <= FIXNUM_MAX
    case _ => c in K
  }

  /** Every operand is in the range its instruction can hold, and every constant is in the table. */
  predicate Sized(m: Icode, K: seq<Value>) {
    match m
    case ConstantOf(c) => ConstantFits(c, K)
    case ShallowArgumentRef(j) => j < U64
    case DeepArgumentRef(i, j) => i < U64 && j < U64
    case ShallowArgumentSet(j, m1) => j < U64 && Sized(m1, K)
    case DeepArgumentSet(i, j, m1) => i < U64 && j < U64 && Sized(m1, K)
    case SymbolRef(_, si) => si < 65536
    case SymbolSet(_, si, m1) => si < 65536 && Sized(m1, K)
    case Alternative(_, m1, m2, m3) => Sized(m1, K) && Sized(m2, K) && Sized(m3, K)
    case Sequence(m1, mp) => Sized(m1, K) && Sized(mp, K)
    case Each(ms) => SizedEach(ms, K)
    case Begin(_, ms) => SizedEach(ms, K)
    case Junction(_, _, ms) => SizedEach(ms, K)
    case Negation(_, m1) => Sized(m1, K)
    case FixLet(_, args, mp, _) => SizedArgs(args, K) && Sized(mp, K)
    case Local(_, j, m1, mp, size, _) => j < U64 && size < U64 && Sized(m1, K) && Sized(mp, K)
    case Primitive0(_, pd) => pd < U64
    case Primitive1(_, m1, pd) => pd < U64 && Sized(m1, K)
    case Primitive2(_, m1, m2, pd) => pd < U64 && Sized(m1, K) && Sized(m2, K)
    case Call(_, _, m1, args) => Sized(m1, K) && SizedArgs(args, K)
    case Abstraction(_, mp, _, arity, _, _, vi) => arity + 1 < U64 && 0 < vi < 65536 && Sized(mp, K)
    case ScopedLet(_, si, m1, mp) => si < 65536 && Sized(m1, K) && Sized(mp, K)
    case ScopedRef(_, si) => si < 65536
    case Trapping(sis, m1, mp) => (forall k :: 0 <= k < |sis| ==> sis[k] < 65536) && Sized(m1, K) && Sized(mp, K)
  }

  predicate SizedEach(ms: Codes, K: seq<Value>) {
    match ms
    case One(m) => Sized(m, K)
    case More(m, rest) => Sized(m, K) && SizedEach(rest, K)
  }

  predicate SizedArgs(args: Args, K: seq<Value>) {
    match args
    case StoreArgument(m1, rest, rank) => rank < U64 && Sized(m1, K) && SizedArgs(rest, K)
    case ListArgument(m1, rest, arity) => arity < U64 && Sized(m1, K) && SizedArgs(rest, K)
    case AllocFrame(arity) => arity + 1 < U64
  }

  /** The main code of a top-level form: an abort around it that resumes behind it, and a return. */
  function TopCode(m: Icode, K: seq<Value>, n: nat): seq<byte> {
    var c := Emit(m, K, n);
    E(PushAbort(|c|)) + (c + (E(PopAbort) + E(Return)))
  }

  lemma PopAbortIs()
    ensures |E(PopAbort)| == 1
  {
    hide Instructions.Encode;
    PopAbortByte();
  }
}
