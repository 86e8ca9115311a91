/**
  The VM's instructions and their bytes.  Several instructions have a one-byte form for common
  operands and a general form with an operand; the encoder picks one, and both decode to the same
  instruction.
 */
module Instructions {

  import opened Options
  import opened Varuint

  /** What a stack-resident binding is for. */
  datatype Binding = Dynamic | Environ | Trap

  /** The slots that have one-byte assignments. */
  type Small = j: nat | j < 4

  datatype Instr =
    | ShallowRef(j: nat)
    | DeepRef(i: nat, j: nat)
    | ShallowSetShort(short: Small)
    | ShallowSet(j: nat)
    | DeepSet(i: nat, j: nat)
    | SymRef(called: bool, si: nat)
    | SymSet(si: nat)
    | ConstantRef(ci: nat)
    | ValSet(vi: nat)
    | LoadFixnum(n: int)
    | LoadImmediate(k: int)
    | LoadUnicode(u: nat)
    | Goto(off: nat)
    | JumpFalse(off: nat)
    | JumpTrue(off: nat)
    | PushValue
    | PopReg1
    | SrcExpr(sei: nat)
    | PopFunction
    | PreserveState
    | RestoreState
    | CreateFunction(off: nat, len: nat, nci: nat, fci: nat, dsci: nat, sei: nat)
    | CreateClosure(vi: nat)
    | FunctionInvoke
    | FunctionGoto
    | Return
    | PushAbort(off: nat)
    | PopAbort
    | AllocateFrame(size: nat)
    | PopFrame(rank: nat)
    | LinkFrame(fci: nat, sei: nat)
    | UnlinkFrame
    | PackFrame(arity: nat)
    | PopListFrame(arity: nat)
    | ExtendFrame(size: nat, fci: nat)
    | ArityEq(size: nat)
    | ArityGe(size: nat)
    | Nop
    | PrimCall0(pd: nat)
    | PrimCall1(pd: nat)
    | PrimCall2(pd: nat)
    | SuppressRcse
    | PopRcse
    | Not
    | PushBinding(kind: Binding, si: nat)
    | PopBinding(kind: Binding)
    | BindingRef(environ: bool, si: nat)

  /** How an operand is written: one raw byte, a variable-length integer, or a two-byte reference. */
  datatype Kind = Short | Var | Ref

  function Opcode(ins: Instr): byte {
    match ins
    case ShallowRef(j) => if j < 4 then j else 4
    case DeepRef(_, _) => 5
    case ShallowSetShort(j) => 6 + j
    case ShallowSet(j) => 10
    case DeepSet(_, _) => 11
    case SymRef(called, _) => if called then 13 else 12
    case ConstantRef(_) => 14
    case SymSet(_) => 17
    case ValSet(_) => 20
    case LoadFixnum(n) => if 0 <= n <= 4 then 80 + n else if n >= 0 then 85 else 86
    case LoadImmediate(k) => if k == 4 then 21 else if k == 5 then 22 else if k == 0 then 23 else if k > 0 then 87 else 88
    case LoadUnicode(_) => 89
    case Goto(off) => if off <= 240 then 34 else 31
    case JumpFalse(off) => if off <= 240 then 35 else 32
    case JumpTrue(off) => if off <= 240 then 36 else 33
    case PushValue => 37
    case PopReg1 => 39
    case SrcExpr(_) => 41
    case PopFunction => 42
    case PreserveState => 43
    case RestoreState => 44
    case CreateFunction(_, _, _, _, _, _) => 46
    case CreateClosure(_) => 47
    case FunctionInvoke => 48
    case FunctionGoto => 49
    case Return => 50
    case PushAbort(_) => 52
    case PopAbort => 53
    case AllocateFrame(size) => if 1 <= size <= 5 then 53 + size else 59
    case PopFrame(rank) => if rank < 4 then 62 + rank else 66
    case LinkFrame(_, _) => 67
    case UnlinkFrame => 68
    case PackFrame(_) => 69
    case PopListFrame(_) => 70
    case ExtendFrame(_, _) => 71
    case ArityEq(size) => if 1 <= size <= 4 then 71 + size else 76
    case ArityGe(_) => 77
    case Nop => 90
    case PrimCall0(_) => 91
    case PrimCall1(_) => 92
    case PrimCall2(_) => 93
    case SuppressRcse => 94
    case PopRcse => 95
    case Not => 96
    case PushBinding(kind, _) => if kind.Dynamic? then 100 else if kind.Environ? then 104 else 108
    case PopBinding(kind) => if kind.Dynamic? then 101 else if kind.Environ? then 105 else 109
    case BindingRef(environ, _) => if environ then 106 else 102
  }

  /** The operands written after the opcode. */
  function Operands(ins: Instr): seq<nat> {
    match ins
    case ShallowRef(j) => if j < 4 then [] else [j]
    case DeepRef(i, j) => [i, j]
    case ShallowSet(j) => [j]
    case DeepSet(i, j) => [i, j]
    case SymRef(_, si) => [si]
    case ConstantRef(ci) => [ci]
    case SymSet(si) => [si]
    case ValSet(vi) => [vi]
    case LoadFixnum(n) => if 0 <= n <= 4 then [] else if n >= 0 then [n] else [-n]
    case LoadImmediate(k) => if k == 4 || k == 5 || k == 0 then [] else if k > 0 then [k] else [-k]
    case LoadUnicode(u) => [u]
    case Goto(off) => [off]
    case JumpFalse(off) => [off]
    case JumpTrue(off) => [off]
    case SrcExpr(sei) => [sei]
    case CreateFunction(off, len, nci, fci, dsci, sei) => [off, len, nci, fci, dsci, sei]
    case CreateClosure(vi) => [vi]
    case PushAbort(off) => [off]
    case AllocateFrame(size) => if 1 <= size <= 5 then [] else [size]
    case PopFrame(rank) => if rank < 4 then [] else [rank]
    case LinkFrame(fci, sei) => [fci, sei]
    case PackFrame(arity) => [arity]
    case PopListFrame(arity) => [arity]
    case ExtendFrame(size, fci) => [size, fci]
    case ArityEq(size) => if 1 <= size <= 4 then [] else [size]
    case ArityGe(size) => [size]
    case PrimCall0(pd) => [pd]
    case PrimCall1(pd) => [pd]
    case PrimCall2(pd) => [pd]
    case PushBinding(_, si) => [si]
    case BindingRef(_, si) => [si]
    case _ => []
  }

  /** The operand kinds an opcode announces to the decoder; None for an opcode outside the model. */
  function Shape(op: byte): Option<seq<Kind>> {
    match op as int
    case 0 | 1 | 2 | 3 | 6 | 7 | 8 | 9 | 21 | 22 | 23 | 37 | 39 | 42 | 43 | 44 | 48 | 49 | 50 => Some([])
    case 53 | 54 | 55 | 56 | 57 | 58 | 62 | 63 | 64 | 65 | 68 | 72 | 73 | 74 | 75 => Some([])
    case 80 | 81 | 82 | 83 | 84 | 90 | 94 | 95 | 96 | 101 | 105 | 109 => Some([])
    case 4 | 10 | 14 | 31 | 32 | 33 | 41 | 52 | 59 | 66 | 69 | 70 | 76 | 77 | 85 | 86 | 87 | 88 | 89 | 91 | 92 | 93 => Some([Var])
    case 5 | 11 | 67 | 71 => Some([Var, Var])
    case 12 | 13 | 17 | 20 | 47 | 100 | 102 | 104 | 106 | 108 => Some([Ref])
    case 34 | 35 | 36 => Some([Short])
    case 46 => Some([Var, Var, Var, Var, Var, Var])
    case _ => None
  }

  /** The instruction an opcode and its operands stand for. */
  function Build(op: byte, xs: seq<nat>): Option<Instr>
    requires Shape(op).Some? && |xs| == |Shape(op).value|
  {
    match op as int
    case 0 => Some(ShallowRef(0)) case 1 => Some(ShallowRef(1))
    case 2 => Some(ShallowRef(2)) case 3 => Some(ShallowRef(3))
    case 4 => Some(ShallowRef(xs[0]))
    case 5 => Some(DeepRef(xs[0], xs[1]))
    case 6 => Some(ShallowSetShort(0)) case 7 => Some(ShallowSetShort(1))
    case 8 => Some(ShallowSetShort(2)) case 9 => Some(ShallowSetShort(3))
    case 10 => Some(ShallowSet(xs[0]))
    case 11 => Some(DeepSet(xs[0], xs[1]))
    case 12 => Some(SymRef(false, xs[0]))
    case 13 => Some(SymRef(true, xs[0]))
    case 14 => Some(ConstantRef(xs[0]))
    case 17 => Some(SymSet(xs[0]))
    case 20 => Some(ValSet(xs[0]))
    case 21 => Some(LoadImmediate(4)) case 22 => Some(LoadImmediate(5)) case 23 => Some(LoadImmediate(0))
    case 31 => Some(Goto(xs[0])) case 32 => Some(JumpFalse(xs[0])) case 33 => Some(JumpTrue(xs[0]))
    case 34 => Some(Goto(xs[0])) case 35 => Some(JumpFalse(xs[0])) case 36 => Some(JumpTrue(xs[0]))
    case 37 => Some(PushValue)
    case 39 => Some(PopReg1)
    case 41 => Some(SrcExpr(xs[0]))
    case 42 => Some(PopFunction)
    case 43 => Some(PreserveState)
    case 44 => Some(RestoreState)
    case 46 => Some(CreateFunction(xs[0], xs[1], xs[2], xs[3], xs[4], xs[5]))
    case 47 => Some(CreateClosure(xs[0]))
    case 48 => Some(FunctionInvoke)
    case 49 => Some(FunctionGoto)
    case 50 => Some(Return)
    case 52 => Some(PushAbort(xs[0])) case 53 => Some(PopAbort)
    case 54 => Some(AllocateFrame(1)) case 55 => Some(AllocateFrame(2)) case 56 => Some(AllocateFrame(3))
    case 57 => Some(AllocateFrame(4)) case 58 => Some(AllocateFrame(5))
    case 59 => Some(AllocateFrame(xs[0]))
    case 62 => Some(PopFrame(0)) case 63 => Some(PopFrame(1))
    case 64 => Some(PopFrame(2)) case 65 => Some(PopFrame(3))
    case 66 => Some(PopFrame(xs[0]))
    case 67 => Some(LinkFrame(xs[0], xs[1]))
    case 68 => Some(UnlinkFrame)
    case 69 => Some(PackFrame(xs[0]))
    case 70 => Some(PopListFrame(xs[0]))
    case 71 => Some(ExtendFrame(xs[0], xs[1]))
    case 72 => Some(ArityEq(1)) case 73 => Some(ArityEq(2)) case 74 => Some(ArityEq(3)) case 75 => Some(ArityEq(4))
    case 76 => Some(ArityEq(xs[0]))
    case 77 => Some(ArityGe(xs[0]))
    case 80 => Some(LoadFixnum(0)) case 81 => Some(LoadFixnum(1)) case 82 => Some(LoadFixnum(2))
    case 83 => Some(LoadFixnum(3)) case 84 => Some(LoadFixnum(4))
    case 85 => Some(LoadFixnum(xs[0]))
    case 86 => Some(LoadFixnum(0 - xs[0] as int))
    case 87 => Some(LoadImmediate(xs[0]))
    case 88 => Some(LoadImmediate(0 - xs[0] as int))
    case 89 => Some(LoadUnicode(xs[0]))
    case 90 => Some(Nop)
    case 91 => Some(PrimCall0(xs[0])) case 92 => Some(PrimCall1(xs[0])) case 93 => Some(PrimCall2(xs[0]))
    case 94 => Some(SuppressRcse)
    case 95 => Some(PopRcse)
    case 96 => Some(Not)
    case 100 => Some(PushBinding(Dynamic, xs[0])) case 104 => Some(PushBinding(Environ, xs[0]))
    case 108 => Some(PushBinding(Trap, xs[0]))
    case 101 => Some(PopBinding(Dynamic)) case 105 => Some(PopBinding(Environ)) case 109 => Some(PopBinding(Trap))
    case 102 => Some(BindingRef(false, xs[0])) case 106 => Some(BindingRef(true, xs[0]))
    case _ => None
  }

  function EncodeOperand(kind: Kind, n: nat): (s: seq<byte>) {
    match kind
    case Short => [n % 256]
    case Var => Varuint.Encode(n)
    case Ref => Big(n, 2)
  }

  predicate OperandFits(kind: Kind, n: nat) {
    match kind
    case Short => n < 256
    case Var => n < U64
    case Ref => n < 65536
  }

  function ReadOperand(kind: Kind, code: seq<byte>, pc: nat): (r: Option<(nat, nat)>) {
    match kind
    case Short => if pc < |code| then Some((code[pc] as nat, pc + 1)) else None
    case Var => Varuint.Read(code, pc)
    case Ref => if pc + 2 <= |code| then Some((ReadBig(code, pc, 2), pc + 2)) else None
  }

  function EncodeOperands(kinds: seq<Kind>, xs: seq<nat>): (s: seq<byte>)
    requires |kinds| == |xs|
    decreases |xs|
  {
    if xs == [] then [] else EncodeOperand(kinds[0], xs[0]) + EncodeOperands(kinds[1..], xs[1..])
  }

  predicate OperandsFit(kinds: seq<Kind>, xs: seq<nat>)
    requires |kinds| == |xs|
  {
    forall k :: 0 <= k < |xs| ==> OperandFits(kinds[k], xs[k])
  }

  function ReadOperands(kinds: seq<Kind>, code: seq<byte>, pc: nat): (r: Option<(seq<nat>, nat)>)
    ensures r.Some? ==> |r.value.0| == |kinds|
    decreases |kinds|
  {
    if kinds == [] then Some(([], pc))
    else
      match ReadOperand(kinds[0], code, pc)
      case None => None
      case Some((x, next)) =>
        match ReadOperands(kinds[1..], code, next)
        case None => None
        case Some((xs, end)) => Some(([x] + xs, end))
  }

  /** The two-byte references are in range; nothing else can fail to be written. */
  predicate RefsFit(ins: Instr) {
    match ins
    case SymRef(_, si) => si < 65536
    case SymSet(si) => si < 65536
    case ValSet(vi) => vi < 65536
    case CreateClosure(vi) => vi < 65536
    case PushBinding(_, si) => si < 65536
    case BindingRef(_, si) => si < 65536
    case _ => true
  }

  predicate OperandWritable(kind: Kind, n: nat) {
    kind.Var? || (kind.Short? && n < 256) || (kind.Ref? && n < 65536)
  }

  predicate OperandsWritable(kinds: seq<Kind>, xs: seq<nat>)
    requires |kinds| == |xs|
  {
    forall k :: 0 <= k < |xs| ==> OperandWritable(kinds[k], xs[k])
  }

  /** What the decoder makes of an instruction's opcode and operands. */
  ghost predicate Rebuilt(ins: Instr) {
    && Shape(Opcode(ins)).Some?
    && |Operands(ins)| == |Shape(Opcode(ins)).value|
    && Build(Opcode(ins), Operands(ins)) == Some(ins)
    && (Fits(ins) ==> OperandsFit(Shape(Opcode(ins)).value, Operands(ins)))
    && (RefsFit(ins) ==> OperandsWritable(Shape(Opcode(ins)).value, Operands(ins)))
  }

  predicate MovesValues(ins: Instr) {
    || ins.ShallowRef? || ins.DeepRef? || ins.ShallowSetShort? || ins.ShallowSet? || ins.DeepSet? || ins.SymRef?
    || ins.SymSet? || ins.ConstantRef? || ins.ValSet?
  }

  predicate Loads(ins: Instr) { ins.LoadFixnum? || ins.LoadImmediate? || ins.LoadUnicode? }

  predicate Jumps(ins: Instr) { ins.Goto? || ins.JumpFalse? || ins.JumpTrue? }

  predicate Controls(ins: Instr) {
    || ins.CreateFunction? || ins.CreateClosure? || ins.FunctionInvoke?
    || ins.FunctionGoto? || ins.Return? || ins.PushAbort? || ins.PopAbort? || ins.SrcExpr? || ins.Nop?
  }

  predicate BuildsFrames(ins: Instr) {
    ins.AllocateFrame? || ins.PopFrame? || ins.LinkFrame? || ins.UnlinkFrame?
  }

  predicate ChangesFrames(ins: Instr) {
    ins.PackFrame? || ins.PopListFrame? || ins.ExtendFrame? || ins.ArityEq? || ins.ArityGe?
  }

  lemma RebuildMoves(ins: Instr)
    requires MovesValues(ins)
    ensures Rebuilt(ins)
  {
  }

  lemma RebuildLoads(ins: Instr)
    requires Loads(ins)
    ensures Rebuilt(ins)
  {
  }

  lemma RebuildJumps(ins: Instr)
    requires Jumps(ins)
    ensures Rebuilt(ins)
  {
  }

  lemma RebuildControls(ins: Instr)
    requires Controls(ins)
    ensures Rebuilt(ins)
  {
  }

  lemma RebuildFrames(ins: Instr)
    requires BuildsFrames(ins)
    ensures Rebuilt(ins)
  {
  }

  lemma RebuildChanges(ins: Instr)
    requires ChangesFrames(ins)
    ensures Rebuilt(ins)
  {
  }

  lemma RebuildOthers(ins: Instr)
    requires !MovesValues(ins) && !Loads(ins) && !Jumps(ins) && !Controls(ins) && !BuildsFrames(ins) && !ChangesFrames(ins)
    ensures Rebuilt(ins)
  {
  }

  lemma Rebuild(ins: Instr)
    ensures Rebuilt(ins)
  {
    hide *;
    if MovesValues(ins) {
      RebuildMoves(ins);
    } else if Loads(ins) {
      RebuildLoads(ins);
    } else if Jumps(ins) {
      RebuildJumps(ins);
    } else if Controls(ins) {
      RebuildControls(ins);
    } else if BuildsFrames(ins) {
      RebuildFrames(ins);
    } else if ChangesFrames(ins) {
      RebuildChanges(ins);
    } else {
      RebuildOthers(ins);
    }
  }

  function Encode(ins: Instr): (s: seq<byte>)
    ensures |s| >= 1
  {
    Rebuild(ins);
    [Opcode(ins)] + EncodeOperands(Shape(Opcode(ins)).value, Operands(ins))
  }

  /** Every operand is in the range its written form can hold. */
  predicate Fits(ins: Instr) {
    match ins
    case DeepRef(i, j) => i < U64 && j < U64
    case DeepSet(i, j) => i < U64 && j < U64
    case ShallowRef(j) => j < U64
    case ShallowSet(j) => j < U64
    case SymRef(_, si) => si < 65536
    case SymSet(si) => si < 65536
    case ConstantRef(ci) => ci < U64
    case ValSet(vi) => vi < 65536
    case LoadFixnum(n) => -U64 < n < U64
    case LoadImmediate(k) => -U64 < k < U64
    case LoadUnicode(u) => u < U64
    case Goto(off) => off < U64
    case JumpFalse(off) => off < U64
    case JumpTrue(off) => off < U64
    case PushAbort(off) => off < U64
    case SrcExpr(sei) => sei < U64
    case CreateFunction(off, len, nci, fci, dsci, sei) =>
      off < U64 && len < U64 && nci < U64 && fci < U64 && dsci < U64 && sei < U64
    case CreateClosure(vi) => vi < 65536
    case AllocateFrame(size) => size < U64
    case PopFrame(rank) => rank < U64
    case LinkFrame(fci, sei) => fci < U64 && sei < U64
    case PackFrame(arity) => arity < U64
    case PopListFrame(arity) => arity < U64
    case ExtendFrame(size, fci) => size < U64 && fci < U64
    case ArityEq(size) => size < U64
    case ArityGe(size) => size < U64
    case PrimCall0(pd) => pd < U64
    case PrimCall1(pd) => pd < U64
    case PrimCall2(pd) => pd < U64
    case PushBinding(_, si) => si < 65536
    case BindingRef(_, si) => si < 65536
    case _ => true
  }

  /** The instruction at pc and the position after it. */
  function Decode(code: seq<byte>, pc: nat): (r: Option<(Instr, nat)>) {
    if pc >= |code| || Shape(code[pc]).None? then None
    else
      match ReadOperands(Shape(code[pc]).value, code, pc + 1)
      case None => None
      case Some((xs, next)) =>
        match Build(code[pc], xs)
        case None => None
        case Some(ins) => Some((ins, next))
  }

  lemma PopAbortByte()
    ensures |Encode(PopAbort)| == 1
  {
    hide Build;
    assert Opcode(PopAbort) == 53 && Operands(PopAbort) == [] && Shape(53) == Some([]);
    assert EncodeOperands([], []) == [];
  }

  lemma ReadOperandAt(kind: Kind, n: nat, code: seq<byte>, pc: nat)
    requires OperandFits(kind, n) && At(code, pc, EncodeOperand(kind, n))
    ensures ReadOperand(kind, code, pc) == Some((n, pc + |EncodeOperand(kind, n)|))
  {
    match kind
    case Short => assert code[pc + 0] == [n % 256][0];
    case Var => ReadEncode(code, pc, n);
    case Ref =>
      assert Power256(1) == 256;
      ReadBigAt(code, pc, n, 2);
  }

  lemma {:induction false} ReadOperandsAt(kinds: seq<Kind>, xs: seq<nat>, code: seq<byte>, pc: nat)
    requires |kinds| == |xs| && OperandsFit(kinds, xs) && At(code, pc, EncodeOperands(kinds, xs))
    ensures ReadOperands(kinds, code, pc) == Some((xs, pc + |EncodeOperands(kinds, xs)|))
    decreases |xs|
  {
    hide At, EncodeOperand, ReadOperand, OperandFits;
    if xs != [] {
      var first := EncodeOperand(kinds[0], xs[0]);
      AtSplit(code, pc, first, EncodeOperands(kinds[1..], xs[1..]));
      ReadOperandAt(kinds[0], xs[0], code, pc);
      ReadOperandsAt(kinds[1..], xs[1..], code, pc + |first|);
      assert [xs[0]] + xs[1..] == xs;
      assert |EncodeOperands(kinds, xs)| == |first| + |EncodeOperands(kinds[1..], xs[1..])|;
    }
  }

  /** An encoded instruction placed anywhere decodes to itself, whatever follows it. */
  lemma DecodeEncode(ins: Instr, code: seq<byte>, pc: nat)
    requires Fits(ins) && At(code, pc, Encode(ins))
    ensures Decode(code, pc) == Some((ins, pc + |Encode(ins)|))
  {
    hide Build, Opcode, Operands, Fits, OperandsFit, RefsFit, OperandsWritable, Shape;
    Rebuild(ins);
    var kinds, xs := Shape(Opcode(ins)).value, Operands(ins);
    assert code[pc + 0] == Encode(ins)[0];
    AtSplit(code, pc, [Opcode(ins)], EncodeOperands(kinds, xs));
    ReadOperandsAt(kinds, xs, code, pc + 1);
  }
}
