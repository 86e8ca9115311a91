/**
  The virtual machine that runs the byte code: a value register, one stack shared by values, return
  addresses, saved frames and scoped bindings, a chain of activation frames, and the table of
  top-level values.  A fault (a panic, a coding error or a raised condition) is None.
 */
module Machine {

  import opened Options
  import opened Varuint
  import opened Instructions

  /** A frame reference, or none. */
  datatype Link = NoFrame | Frm(a: nat)

  datatype Value =
    | Fixnum(n: int)
    | Immediate(k: int)
    | Unicode(u: nat)
    | Object(id: nat)
    | Pair(head: Value, tail: Value)
    | FrameRef(a: nat)
    | Closure(entry: nat, env: Link)
    | Primitive(p: nat)

  const NIL: Value := Immediate(0)
  const UNDEF: Value := Immediate(1)
  const TRUE: Value := Immediate(4)
  const FALSE: Value := Immediate(5)

  const FIXNUM_MAX: int := 0x1FFF_FFFF_FFFF_FFFF
  const FIXNUM_MIN: int := -0x2000_0000_0000_0000

  /** An activation frame; NALLOC is the length of args. */
  datatype Frame = Frame(args: seq<Value>, nparams: nat, next: Link)

  /** What code may change besides the registers: the frames and the table of top-level values. */
  datatype Store = Store(frames: seq<Frame>, values: map<nat, Value>)

  /** A stack item; a marked group of the real stack is one item. */
  datatype Item = Val(v: Value) | Ret(pc: nat) | Saved(frame: Link) | Bound(kind: Binding, si: nat, v: Value) | Abort(resume: nat)

  datatype Stack = Empty | Push(top: Item, rest: Stack)

  datatype State = State(pc: nat, val: Value, reg1: Value, func: Value, stack: Stack, rcse: Value, frame: Link, store: Store)

  /** The byte code, its constants, and the primitives of the host. */
  datatype Image = Image(code: seq<byte>, consts: seq<Value>, prim: (nat, seq<Value>) -> Option<Value>)

  /** The value is a proper list of just these, in order. */
  predicate Lists(v: Value, vs: seq<Value>)
    decreases |vs|
  {
    if vs == [] then v == NIL else v.Pair? && v.head == vs[0] && Lists(v.tail, vs[1..])
  }

  function ListOf(vs: seq<Value>): (v: Value)
    ensures Lists(v, vs)
    decreases |vs|
  {
    if vs == [] then NIL else Pair(vs[0], ListOf(vs[1..]))
  }

  /** There is only one such list. */
  lemma {:induction false} OneList(v: Value, w: Value, vs: seq<Value>)
    requires Lists(v, vs) && Lists(w, vs)
    ensures v == w
    decreases |vs|
  {
    if vs != [] {
      OneList(v.tail, w.tail, vs[1..]);
    }
  }

  // Frames

  /** d steps up the chain. */
  function Up(frames: seq<Frame>, f: Link, d: nat): (r: Link)
    decreases d
  {
    if d == 0 then f
    else if f.Frm? && f.a < |frames| then Up(frames, frames[f.a].next, d - 1)
    else NoFrame
  }

  predicate HasSlot(frames: seq<Frame>, f: Link, j: nat) {
    f.Frm? && f.a < |frames| && j < |frames[f.a].args|
  }

  function Fetch(frames: seq<Frame>, f: Link, d: nat, j: nat): (r: Option<Value>) {
    var g := Up(frames, f, d);
    if HasSlot(frames, g, j) then Some(frames[g.a].args[j]) else None
  }

  function Update(st: Store, f: Link, d: nat, j: nat, v: Value): (r: Option<Store>)
    ensures r.Some? ==> r.value.values == st.values && |r.value.frames| == |st.frames|
  {
    var g := Up(st.frames, f, d);
    if HasSlot(st.frames, g, j) then
      Some(st.(frames := st.frames[g.a := st.frames[g.a].(args := st.frames[g.a].args[j := v])]))
    else None
  }

  /** A frame with room for size - 1 parameters and the slot for further arguments. */
  function NewFrame(size: nat): (fr: Frame)
    requires size >= 1
  {
    Frame(seq(size - 1, _ => UNDEF) + [NIL], size - 1, NoFrame)
  }

  function Allocate(st: Store, size: nat): (r: Option<(Value, Store)>) {
    if size >= 1 then Some((FrameRef(|st.frames|), st.(frames := st.frames + [NewFrame(size)]))) else None
  }

  function LinkTo(st: Store, v: Value, f: Link): (r: Option<Store>)
    ensures r.Some? ==> r.value.values == st.values && |r.value.frames| == |st.frames|
  {
    if v.FrameRef? && v.a < |st.frames| then Some(st.(frames := st.frames[v.a := st.frames[v.a].(next := f)]))
    else None
  }

  /** Room for size slots, unless the frame has them or a packed call left it larger. */
  function Extended(fr: Frame, size: nat): (r: Frame) {
    if fr.nparams + 1 == size || size < |fr.args| then fr
    else fr.(args := fr.args + seq(size - |fr.args|, _ => UNDEF))
  }

  function Extend(st: Store, f: Link, size: nat): (r: Option<Store>)
    ensures r.Some? ==> r.value.values == st.values && |r.value.frames| == |st.frames|
  {
    if f.Frm? && f.a < |st.frames| && size >= 1 then
      Some(st.(frames := st.frames[f.a := Extended(st.frames[f.a], size)]))
    else None
  }

  /** The arguments from arity on become one list in slot arity. */
  function Pack(st: Store, v: Value, arity: nat): (r: Option<Store>)
    ensures r.Some? ==> r.value.values == st.values && |r.value.frames| == |st.frames|
  {
    if v.FrameRef? && v.a < |st.frames| && arity <= st.frames[v.a].nparams < |st.frames[v.a].args| then
      var fr := st.frames[v.a];
      Some(st.(frames := st.frames[v.a := fr.(args := fr.args[arity := ListOf(fr.args[arity..fr.nparams])])]))
    else None
  }

  /** The number of arguments a call frame carries, plus one. */
  function Supplied(st: Store, v: Value): (r: Option<nat>) {
    if v.FrameRef? && v.a < |st.frames| then Some(st.frames[v.a].nparams + 1) else None
  }

  /** A primitive of the host applied to arguments. */
  function Host(prim: (nat, seq<Value>) -> Option<Value>, p: nat, args: seq<Value>): (r: Option<Value>) {
    prim(p, args)
  }

  /** A primitive applied to a call frame: only without collected arguments. */
  function CallPrimitive(prim: (nat, seq<Value>) -> Option<Value>, st: Store, p: nat, v: Value): (r: Option<Value>) {
    if v.FrameRef? && v.a < |st.frames| && st.frames[v.a].nparams < |st.frames[v.a].args|
       && st.frames[v.a].args[st.frames[v.a].nparams] == NIL
    then Host(prim, p, st.frames[v.a].args[..st.frames[v.a].nparams])
    else None
  }

  // Bindings

  /** The nearest binding of si on the stack, looking down from the top. */
  function Nearest(stack: Stack, kind: Binding, si: nat): (r: Option<Value>) {
    match stack
    case Empty => None
    case Push(item, rest) =>
      if item.Bound? && item.kind == kind && item.si == si then Some(item.v) else Nearest(rest, kind, si)
  }

  function ValueOf(values: map<nat, Value>, si: nat): (r: Option<Value>)
    ensures r.Some? <==> si in values
    ensures r.Some? ==> r.value == values[si]
  {
    if si in values then Some(values[si]) else None
  }

  // Execution

  function WithVal(s: State, r: Option<Value>): (t: Option<State>) {
    match r
    case None => None
    case Some(v) => Some(s.(val := v))
  }

  function WithStore(s: State, r: Option<Store>): (t: Option<State>) {
    match r
    case None => None
    case Some(st) => Some(s.(store := st))
  }

  /** The function register applied to the frame in the value register; a call that is not in tail position leaves its return address. */
  function Invoke(im: Image, s: State, tail: bool): (t: Option<State>) {
    match s.func
    case Closure(entry, env) =>
      Some(s.(stack := if tail then s.stack else Push(Ret(s.pc), s.stack), frame := env, pc := entry))
    case Primitive(p) => WithVal(s, CallPrimitive(im.prim, s.store, p, s.val))
    case _ => None
  }

  /** One instruction, with the program counter already past it. */
  function Exec(im: Image, ins: Instr, s: State): (t: Option<State>) {
    match ins
    case ShallowRef(j) => WithVal(s, Fetch(s.store.frames, s.frame, 0, j))
    case DeepRef(i, j) => WithVal(s, Fetch(s.store.frames, s.frame, i, j))
    case ShallowSetShort(j) => WithStore(s, Update(s.store, s.frame, 0, j, s.val))
    case ShallowSet(j) => WithStore(s, Update(s.store, s.frame, 0, j, s.val))
    case DeepSet(i, j) => WithStore(s, Update(s.store, s.frame, i, j, s.val))
    case SymRef(_, si) => WithVal(s, ValueOf(s.store.values, si))
    case SymSet(si) => Some(s.(store := s.store.(values := s.store.values[si := s.val])))
    case ConstantRef(ci) => if ci < |im.consts| then Some(s.(val := im.consts[ci])) else None
    case ValSet(vi) => if vi > 0 then Some(s.(store := s.store.(values := s.store.values[vi := s.val]))) else None
    case LoadFixnum(n) => if FIXNUM_MIN <= n <= FIXNUM_MAX then Some(s.(val := Fixnum(n))) else None
    case LoadImmediate(k) => if FIXNUM_MIN <= k <= FIXNUM_MAX then Some(s.(val := Immediate(k))) else None
    case LoadUnicode(u) => if u <= FIXNUM_MAX then Some(s.(val := Unicode(u))) else None
    case Goto(off) => Some(s.(pc := s.pc + off))
    case JumpFalse(off) => Some(if s.val == FALSE then s.(pc := s.pc + off) else s)
    case JumpTrue(off) => Some(if s.val != FALSE then s.(pc := s.pc + off) else s)
    case PushValue => Some(s.(stack := Push(Val(s.val), s.stack)))
    case PopReg1 =>
      if s.stack.Push? && s.stack.top.Val? then Some(s.(reg1 := s.stack.top.v, stack := s.stack.rest)) else None
    case SrcExpr(_) => Some(s)
    case PopFunction =>
      if s.stack.Push? && s.stack.top.Val? then Some(s.(func := s.stack.top.v, stack := s.stack.rest)) else None
    case PreserveState => Some(s.(stack := Push(Saved(s.frame), s.stack)))
    case RestoreState =>
      if s.stack.Push? && s.stack.top.Saved? then Some(s.(frame := s.stack.top.frame, stack := s.stack.rest)) else None
    case CreateFunction(off, _, _, _, _, _) => Some(s.(val := Closure(s.pc + off, s.frame)))
    case CreateClosure(vi) =>
      if vi in s.store.values && s.store.values[vi].Closure? then
        Some(s.(val := Closure(s.store.values[vi].entry, s.frame)))
      else None
    case FunctionInvoke => Invoke(im, s, false)
    case FunctionGoto => Invoke(im, s, true)
    case Return =>
      if s.stack.Push? && s.stack.top.Ret? then Some(s.(pc := s.stack.top.pc, stack := s.stack.rest)) else None
    case PushAbort(off) => Some(s.(stack := Push(Abort(s.pc + off + 1), s.stack), rcse := FALSE, frame := NoFrame))
    case PopAbort => if s.stack.Push? && s.stack.top.Abort? then Some(s.(stack := s.stack.rest)) else None
    case AllocateFrame(size) =>
      (match Allocate(s.store, size)
       case None => None
       case Some((v, st)) => Some(s.(val := v, store := st)))
    case PopFrame(rank) =>
      if s.stack.Push? && s.stack.top.Val? && s.val.FrameRef? then
        WithStore(s.(stack := s.stack.rest), Update(s.store, Frm(s.val.a), 0, rank, s.stack.top.v))
      else None
    case LinkFrame(_, _) =>
      (match LinkTo(s.store, s.val, s.frame)
       case None => None
       case Some(st) => Some(s.(store := st, frame := Frm(s.val.a))))
    case UnlinkFrame =>
      if s.frame.Frm? && s.frame.a < |s.store.frames| then Some(s.(frame := s.store.frames[s.frame.a].next)) else None
    case PackFrame(arity) => WithStore(s, Pack(s.store, s.val, arity))
    case PopListFrame(arity) =>
      if s.stack.Push? && s.stack.top.Val? && s.val.FrameRef? && HasSlot(s.store.frames, Frm(s.val.a), arity) then
        WithStore(s.(stack := s.stack.rest),
                  Update(s.store, Frm(s.val.a), 0, arity, Pair(s.stack.top.v, s.store.frames[s.val.a].args[arity])))
      else None
    case ExtendFrame(size, _) => WithStore(s, Extend(s.store, s.frame, size))
    case ArityEq(size) => if Supplied(s.store, s.val) == Some(size) then Some(s) else None
    case ArityGe(size) =>
      (match Supplied(s.store, s.val)
       case None => None
       case Some(n) => if n >= size then Some(s) else None)
    case Nop => Some(s)
    case PrimCall0(pd) => WithVal(s, Host(im.prim, pd, []))
    case PrimCall1(pd) => WithVal(s, Host(im.prim, pd, [s.val]))
    case PrimCall2(pd) => WithVal(s, Host(im.prim, pd, [s.reg1, s.val]))
    case SuppressRcse => Some(s.(stack := Push(Val(s.rcse), s.stack), rcse := TRUE))
    case PopRcse =>
      if s.stack.Push? && s.stack.top.Val? then Some(s.(rcse := s.stack.top.v, stack := s.stack.rest)) else None
    case Not => Some(s.(val := if s.val == FALSE then TRUE else FALSE))
    case PushBinding(kind, si) =>
      if kind.Trap? && !s.val.Closure? && !s.val.Primitive? then None
      else Some(s.(stack := Push(Bound(kind, si, s.val), s.stack)))
    case PopBinding(kind) =>
      if s.stack.Push? && s.stack.top.Bound? && s.stack.top.kind == kind then Some(s.(stack := s.stack.rest)) else None
    case BindingRef(environ, si) =>
      WithVal(s, match Nearest(s.stack, if environ then Environ else Dynamic, si)
                 case Some(v) => Some(v)
                 case None => ValueOf(s.store.values, si))
  }

  function Step(im: Image, s: State): (t: Option<State>) {
    match Decode(im.code, s.pc)
    case None => None
    case Some((ins, next)) => Exec(im, ins, s.(pc := next))
  }

  /** n steps. */
  function Run(im: Image, s: State, n: nat): (t: Option<State>)
    decreases n
  {
    if n == 0 then Some(s)
    else
      match Step(im, s)
      case None => None
      case Some(u) => Run(im, u, n - 1)
  }

  ghost predicate Reaches(im: Image, s: State, t: State) {
    exists n: nat :: Run(im, s, n) == Some(t)
  }

  lemma {:induction false} RunAdd(im: Image, s: State, m: nat, t: State, n: nat)
    requires Run(im, s, m) == Some(t)
    ensures Run(im, s, m + n) == Run(im, t, n)
    decreases m
  {
    hide Step;
    if m > 0 {
      RunAdd(im, Step(im, s).value, m - 1, t, n);
    }
  }

  lemma ReachesSelf(im: Image, s: State)
    ensures Reaches(im, s, s)
  {
    hide Step;
    assert Run(im, s, 0) == Some(s);
  }

  lemma ReachesThen(im: Image, s: State, t: State, u: State)
    requires Reaches(im, s, t) && Reaches(im, t, u)
    ensures Reaches(im, s, u)
  {
    hide Step;
    var m: nat :| Run(im, s, m) == Some(t);
    var n: nat :| Run(im, t, n) == Some(u);
    RunAdd(im, s, m, t, n);
  }

  /** The run comes to an instruction it cannot execute. */
  ghost predicate Halts(im: Image, s: State) {
    exists u :: Reaches(im, s, u) && u.pc < |im.code| && Step(im, u).None?
  }

  /** The run goes on for at least n steps. */
  predicate Lasts(im: Image, s: State, n: nat) { Run(im, s, n).Some? }

  lemma {:induction false} LastsLess(im: Image, s: State, n: nat, less: nat)
    requires Lasts(im, s, n) && less <= n
    ensures Lasts(im, s, less)
    decreases less
  {
    hide Step;
    if less > 0 {
      LastsLess(im, Step(im, s).value, n - 1, less - 1);
    }
  }

  /** A run that comes from s to t lasts longer than the one from t, unless they are the same. */
  lemma LastsBefore(im: Image, s: State, t: State, n: nat)
    requires Reaches(im, s, t) && Lasts(im, t, n)
    ensures Lasts(im, s, n) && (s != t ==> Lasts(im, s, n + 1))
  {
    hide Step;
    var m: nat :| Run(im, s, m) == Some(t);
    RunAdd(im, s, m, t, n);
    LastsLess(im, s, m + n, n);
    if s != t {
      LastsLess(im, s, m + n, n + 1);
    }
  }

  lemma HaltsBefore(im: Image, s: State, t: State)
    requires Reaches(im, s, t) && Halts(im, t)
    ensures Halts(im, s)
  {
    hide Reaches, Step;
    var u :| Reaches(im, t, u) && u.pc < |im.code| && Step(im, u).None?;
    ReachesThen(im, s, t, u);
  }

  /** An instruction that cannot be executed is where the run halts. */
  lemma Refuses(im: Image, s: State, ins: Instr)
    requires Fits(ins) && At(im.code, s.pc, Instructions.Encode(ins)) && |Instructions.Encode(ins)| > 0
    requires Exec(im, ins, s.(pc := s.pc + |Instructions.Encode(ins)|)).None?
    ensures Halts(im, s)
  {
    hide Exec, Decode, Reaches, Fits, Instructions.Encode;
    DecodeEncode(ins, im.code, s.pc);
    StepDecoded(im, s, ins, s.pc + |Instructions.Encode(ins)|);
    ReachesSelf(im, s);
  }

  /** An instruction standing at the program counter is the one executed, and execution goes on from there. */
  lemma Does(im: Image, s: State, ins: Instr, t: State)
    requires Fits(ins) && At(im.code, s.pc, Instructions.Encode(ins))
    requires Exec(im, ins, s.(pc := s.pc + |Instructions.Encode(ins)|)) == Some(t)
    ensures Reaches(im, s, t)
  {
    hide *;
    assert Step(im, s) == Some(t) by {
      DecodeEncode(ins, im.code, s.pc);
      StepDecoded(im, s, ins, s.pc + |Instructions.Encode(ins)|);
    }
    OneStep(im, s, t);
  }

  lemma StepDecoded(im: Image, s: State, ins: Instr, next: nat)
    requires Decode(im.code, s.pc) == Some((ins, next))
    ensures Step(im, s) == Exec(im, ins, s.(pc := next))
  {
    hide Exec, Decode;
  }

  lemma OneStep(im: Image, s: State, t: State)
    requires Step(im, s) == Some(t)
    ensures Reaches(im, s, t)
  {
    hide Step;
    assert Run(im, t, 0) == Some(t);
    assert Run(im, s, 1) == Some(t);
  }
}
