/** What the machine does on meeting each instruction; a run that has come from s0 to s goes on to t. */
module Steps {

  import opened Options
  import opened Varuint
  import opened Instructions
  import opened Machine
  import opened Icode

  lemma Takes(im: Image, s0: State, s: State, ins: Instr) returns (t: State)
    requires Reaches(im, s0, s) && At(im.code, s.pc, E(ins)) && Fits(ins)
    requires Exec(im, ins, s.(pc := s.pc + |E(ins)|)).Some?
    ensures Reaches(im, s0, t) && Some(t) == Exec(im, ins, s.(pc := s.pc + |E(ins)|))
  {
    hide Exec, Reaches, At, Fits;
    t := Exec(im, ins, s.(pc := s.pc + |E(ins)|)).value;
    Does(im, s, ins, t);
    ReachesThen(im, s0, s, t);
  }

  lemma TakesLoad(im: Image, s0: State, s: State, c: Value) returns (t: State)
    requires Reaches(im, s0, s) && At(im.code, s.pc, E(Load(c, im.consts))) && ConstantFits(c, im.consts) && |im.consts| < U64
    ensures Reaches(im, s0, t) && t == s.(pc := s.pc + |E(Load(c, im.consts))|, val := c)
  {
    hide Reaches, At, E;
    t := Takes(im, s0, s, Load(c, im.consts));
  }

  lemma TakesFetch(im: Image, s0: State, s: State, d: nat, j: nat, ins: Instr) returns (t: State)
    requires Reaches(im, s0, s) && At(im.code, s.pc, E(ins)) && (ins == DeepRef(d, j) || (d == 0 && ins == ShallowRef(j)))
    requires Fits(ins) && Fetch(s.store.frames, s.frame, d, j).Some?
    ensures Reaches(im, s0, t) && t == s.(pc := s.pc + |E(ins)|, val := Fetch(s.store.frames, s.frame, d, j).value)
  {
    hide Reaches, At, E, Fetch;
    t := Takes(im, s0, s, ins);
  }

  lemma TakesUpdate(im: Image, s0: State, s: State, d: nat, j: nat, ins: Instr) returns (t: State)
    requires Reaches(im, s0, s) && At(im.code, s.pc, E(ins)) && (ins == DeepSet(d, j) || (d == 0 && (ins == SetArgument(j) || ins == ShallowSet(j))))
    requires Fits(ins) && Update(s.store, s.frame, d, j, s.val).Some?
    ensures Reaches(im, s0, t) && t == s.(pc := s.pc + |E(ins)|, store := Update(s.store, s.frame, d, j, s.val).value)
  {
    hide Reaches, At, E, Update;
    t := Takes(im, s0, s, ins);
  }

  lemma TakesSymRef(im: Image, s0: State, s: State, called: bool, si: nat) returns (t: State)
    requires Reaches(im, s0, s) && At(im.code, s.pc, E(SymRef(called, si))) && si < 65536 && ValueOf(s.store.values, si).Some?
    ensures Reaches(im, s0, t) && t == s.(pc := s.pc + |E(SymRef(called, si))|, val := ValueOf(s.store.values, si).value)
  {
    hide Reaches, At, E, ValueOf;
    t := Takes(im, s0, s, SymRef(called, si));
  }

  lemma TakesSymSet(im: Image, s0: State, s: State, si: nat) returns (t: State)
    requires Reaches(im, s0, s) && At(im.code, s.pc, E(SymSet(si))) && si < 65536
    ensures Reaches(im, s0, t) && t == s.(pc := s.pc + |E(SymSet(si))|, store := s.store.(values := s.store.values[si := s.val]))
  {
    hide Reaches, At, E;
    t := Takes(im, s0, s, SymSet(si));
  }

  lemma TakesValSet(im: Image, s0: State, s: State, vi: nat) returns (t: State)
    requires Reaches(im, s0, s) && At(im.code, s.pc, E(ValSet(vi))) && 0 < vi < 65536
    ensures Reaches(im, s0, t) && t == s.(pc := s.pc + |E(ValSet(vi))|, store := s.store.(values := s.store.values[vi := s.val]))
  {
    hide Reaches, At, E;
    t := Takes(im, s0, s, ValSet(vi));
  }

  lemma TakesGoto(im: Image, s0: State, s: State, off: nat) returns (t: State)
    requires Reaches(im, s0, s) && At(im.code, s.pc, E(Goto(off))) && off < U64
    ensures Reaches(im, s0, t) && t == s.(pc := s.pc + |E(Goto(off))| + off)
  {
    hide Reaches, At, E;
    t := Takes(im, s0, s, Goto(off));
  }

  lemma TakesJump(im: Image, s0: State, s: State, conj: bool, off: nat) returns (t: State)
    requires Reaches(im, s0, s) && At(im.code, s.pc, E(Jump(conj, off))) && off < U64
    ensures Reaches(im, s0, t) && t == s.(pc := s.pc + |E(Jump(conj, off))| + if conj == (s.val == FALSE) then off else 0)
  {
    hide Reaches, At, E;
    t := Takes(im, s0, s, Jump(conj, off));
  }

  lemma TakesPushValue(im: Image, s0: State, s: State) returns (t: State)
    requires Reaches(im, s0, s) && At(im.code, s.pc, E(PushValue))
    ensures Reaches(im, s0, t) && t == s.(pc := s.pc + |E(PushValue)|, stack := Push(Val(s.val), s.stack))
  {
    hide Reaches, At, E;
    t := Takes(im, s0, s, PushValue);
  }

  lemma TakesPopReg1(im: Image, s0: State, s: State) returns (t: State)
    requires Reaches(im, s0, s) && At(im.code, s.pc, E(PopReg1)) && s.stack.Push? && s.stack.top.Val?
    ensures Reaches(im, s0, t) && t == s.(pc := s.pc + |E(PopReg1)|, reg1 := s.stack.top.v, stack := s.stack.rest)
  {
    hide Reaches, At, E;
    t := Takes(im, s0, s, PopReg1);
  }

  lemma TakesPopFunction(im: Image, s0: State, s: State) returns (t: State)
    requires Reaches(im, s0, s) && At(im.code, s.pc, E(PopFunction)) && s.stack.Push? && s.stack.top.Val?
    ensures Reaches(im, s0, t) && t == s.(pc := s.pc + |E(PopFunction)|, func := s.stack.top.v, stack := s.stack.rest)
  {
    hide Reaches, At, E;
    t := Takes(im, s0, s, PopFunction);
  }

  lemma TakesSuppress(im: Image, s0: State, s: State) returns (t: State)
    requires Reaches(im, s0, s) && At(im.code, s.pc, E(SuppressRcse))
    ensures Reaches(im, s0, t) && t == s.(pc := s.pc + |E(SuppressRcse)|, stack := Push(Val(s.rcse), s.stack), rcse := TRUE)
  {
    hide Reaches, At, E;
    t := Takes(im, s0, s, SuppressRcse);
  }

  lemma TakesPopRcse(im: Image, s0: State, s: State) returns (t: State)
    requires Reaches(im, s0, s) && At(im.code, s.pc, E(PopRcse)) && s.stack.Push? && s.stack.top.Val?
    ensures Reaches(im, s0, t) && t == s.(pc := s.pc + |E(PopRcse)|, rcse := s.stack.top.v, stack := s.stack.rest)
  {
    hide Reaches, At, E;
    t := Takes(im, s0, s, PopRcse);
  }

  lemma TakesPreserve(im: Image, s0: State, s: State) returns (t: State)
    requires Reaches(im, s0, s) && At(im.code, s.pc, E(PreserveState))
    ensures Reaches(im, s0, t) && t == s.(pc := s.pc + |E(PreserveState)|, stack := Push(Saved(s.frame), s.stack))
  {
    hide Reaches, At, E;
    t := Takes(im, s0, s, PreserveState);
  }

  lemma TakesRestore(im: Image, s0: State, s: State) returns (t: State)
    requires Reaches(im, s0, s) && At(im.code, s.pc, E(RestoreState)) && s.stack.Push? && s.stack.top.Saved?
    ensures Reaches(im, s0, t) && t == s.(pc := s.pc + |E(RestoreState)|, frame := s.stack.top.frame, stack := s.stack.rest)
  {
    hide Reaches, At, E;
    t := Takes(im, s0, s, RestoreState);
  }

  lemma TakesPushAbort(im: Image, s0: State, s: State, off: nat) returns (t: State)
    requires Reaches(im, s0, s) && At(im.code, s.pc, E(PushAbort(off))) && off < U64
    ensures Reaches(im, s0, t)
    ensures var pc := s.pc + |E(PushAbort(off))|;
      t == s.(pc := pc, stack := Push(Abort(pc + off + 1), s.stack), rcse := FALSE, frame := NoFrame)
  {
    hide Reaches, At, E;
    t := Takes(im, s0, s, PushAbort(off));
  }

  lemma TakesPopAbort(im: Image, s0: State, s: State) returns (t: State)
    requires Reaches(im, s0, s) && At(im.code, s.pc, E(PopAbort)) && s.stack.Push? && s.stack.top.Abort?
    ensures Reaches(im, s0, t) && t == s.(pc := s.pc + |E(PopAbort)|, stack := s.stack.rest)
  {
    hide Reaches, At, E;
    t := Takes(im, s0, s, PopAbort);
  }

  lemma TakesReturn(im: Image, s0: State, s: State) returns (t: State)
    requires Reaches(im, s0, s) && At(im.code, s.pc, E(Return)) && s.stack.Push? && s.stack.top.Ret?
    ensures Reaches(im, s0, t) && t == s.(pc := s.stack.top.pc, stack := s.stack.rest)
  {
    hide Reaches, At, E;
    t := Takes(im, s0, s, Return);
  }

  lemma TakesClosure(im: Image, s0: State, s: State, vi: nat) returns (t: State)
    requires Reaches(im, s0, s) && At(im.code, s.pc, E(CreateClosure(vi))) && vi < 65536
    requires vi in s.store.values && s.store.values[vi].Closure?
    ensures Reaches(im, s0, t) && t == s.(pc := s.pc + |E(CreateClosure(vi))|, val := Closure(s.store.values[vi].entry, s.frame))
  {
    hide Reaches, At, E;
    t := Takes(im, s0, s, CreateClosure(vi));
  }

  lemma TakesInvoke(im: Image, s0: State, s: State) returns (t: State)
    requires Reaches(im, s0, s) && At(im.code, s.pc, E(FunctionInvoke)) && s.func.Closure?
    ensures Reaches(im, s0, t) && t == s.(pc := s.func.entry, stack := Push(Ret(s.pc + |E(FunctionInvoke)|), s.stack), frame := s.func.env)
  {
    hide Reaches, At, E;
    t := Takes(im, s0, s, FunctionInvoke);
  }

  lemma TakesTailCall(im: Image, s0: State, s: State) returns (t: State)
    requires Reaches(im, s0, s) && At(im.code, s.pc, E(FunctionGoto)) && s.func.Closure?
    ensures Reaches(im, s0, t) && t == s.(pc := s.func.entry, frame := s.func.env)
  {
    hide Reaches, At, E;
    t := Takes(im, s0, s, FunctionGoto);
  }

  lemma TakesPrimitiveCall(im: Image, s0: State, s: State, ins: Instr) returns (t: State)
    requires Reaches(im, s0, s) && At(im.code, s.pc, E(ins)) && (ins == FunctionInvoke || ins == FunctionGoto) && s.func.Primitive?
    requires CallPrimitive(im.prim, s.store, s.func.p, s.val).Some?
    ensures Reaches(im, s0, t) && t == s.(pc := s.pc + |E(ins)|, val := CallPrimitive(im.prim, s.store, s.func.p, s.val).value)
  {
    hide Reaches, At, E, CallPrimitive;
    t := Takes(im, s0, s, ins);
  }

  lemma TakesAllocate(im: Image, s0: State, s: State, size: nat) returns (t: State)
    requires Reaches(im, s0, s) && At(im.code, s.pc, E(AllocateFrame(size))) && 1 <= size < U64
    ensures Reaches(im, s0, t) && t == s.(pc := s.pc + |E(AllocateFrame(size))|, val := FrameRef(|s.store.frames|), store := s.store.(frames := s.store.frames + [NewFrame(size)]))
  {
    hide Reaches, At, E;
    t := Takes(im, s0, s, AllocateFrame(size));
  }

  lemma TakesPopFrame(im: Image, s0: State, s: State, rank: nat) returns (t: State)
    requires Reaches(im, s0, s) && At(im.code, s.pc, E(PopFrame(rank))) && rank < U64 && s.stack.Push? && s.stack.top.Val? && s.val.FrameRef?
    requires Update(s.store, Frm(s.val.a), 0, rank, s.stack.top.v).Some?
    ensures Reaches(im, s0, t) && t == s.(pc := s.pc + |E(PopFrame(rank))|, stack := s.stack.rest, store := Update(s.store, Frm(s.val.a), 0, rank, s.stack.top.v).value)
  {
    hide Reaches, At, E, Update;
    t := Takes(im, s0, s, PopFrame(rank));
  }

  lemma TakesPopList(im: Image, s0: State, s: State, arity: nat, w: Value) returns (t: State)
    requires Reaches(im, s0, s) && At(im.code, s.pc, E(PopListFrame(arity))) && arity < U64
    requires s.stack.Push? && s.stack.top.Val? && s.val.FrameRef? && Fetch(s.store.frames, Frm(s.val.a), 0, arity) == Some(w)
    requires Update(s.store, Frm(s.val.a), 0, arity, Pair(s.stack.top.v, w)).Some?
    ensures Reaches(im, s0, t)
    ensures t == s.(pc := s.pc + |E(PopListFrame(arity))|, stack := s.stack.rest,
                    store := Update(s.store, Frm(s.val.a), 0, arity, Pair(s.stack.top.v, w)).value)
  {
    hide Reaches, At, E, Update;
    t := Takes(im, s0, s, PopListFrame(arity));
  }

  lemma TakesLink(im: Image, s0: State, s: State, fci: nat, sei: nat) returns (t: State)
    requires Reaches(im, s0, s) && At(im.code, s.pc, E(LinkFrame(fci, sei))) && fci < U64 && sei < U64
    requires s.val.FrameRef? && LinkTo(s.store, s.val, s.frame).Some?
    ensures Reaches(im, s0, t) && t == s.(pc := s.pc + |E(LinkFrame(fci, sei))|, store := LinkTo(s.store, s.val, s.frame).value, frame := Frm(s.val.a))
  {
    hide Reaches, At, E, LinkTo;
    t := Takes(im, s0, s, LinkFrame(fci, sei));
  }

  lemma TakesUnlink(im: Image, s0: State, s: State) returns (t: State)
    requires Reaches(im, s0, s) && At(im.code, s.pc, E(UnlinkFrame)) && s.frame.Frm? && s.frame.a < |s.store.frames|
    ensures Reaches(im, s0, t) && t == s.(pc := s.pc + |E(UnlinkFrame)|, frame := s.store.frames[s.frame.a].next)
  {
    hide Reaches, At, E;
    t := Takes(im, s0, s, UnlinkFrame);
  }

  lemma TakesExtend(im: Image, s0: State, s: State, size: nat, fci: nat) returns (t: State)
    requires Reaches(im, s0, s) && At(im.code, s.pc, E(ExtendFrame(size, fci))) && size < U64 && fci < U64
    requires Extend(s.store, s.frame, size).Some?
    ensures Reaches(im, s0, t) && t == s.(pc := s.pc + |E(ExtendFrame(size, fci))|, store := Extend(s.store, s.frame, size).value)
  {
    hide Reaches, At, E, Extend;
    t := Takes(im, s0, s, ExtendFrame(size, fci));
  }

  lemma TakesNot(im: Image, s0: State, s: State) returns (t: State)
    requires Reaches(im, s0, s) && At(im.code, s.pc, E(Not))
    ensures Reaches(im, s0, t) && t == s.(pc := s.pc + |E(Not)|, val := if s.val == FALSE then TRUE else FALSE)
  {
    hide Reaches, At, E;
    t := Takes(im, s0, s, Not);
  }

  lemma TakesBind(im: Image, s0: State, s: State, kind: Binding, si: nat) returns (t: State)
    requires Reaches(im, s0, s) && At(im.code, s.pc, E(PushBinding(kind, si))) && si < 65536
    requires kind.Trap? ==> s.val.Closure? || s.val.Primitive?
    ensures Reaches(im, s0, t) && t == s.(pc := s.pc + |E(PushBinding(kind, si))|, stack := Push(Bound(kind, si, s.val), s.stack))
  {
    hide Reaches, At, E;
    t := Takes(im, s0, s, PushBinding(kind, si));
  }

  lemma TakesUnbind(im: Image, s0: State, s: State, kind: Binding) returns (t: State)
    requires Reaches(im, s0, s) && At(im.code, s.pc, E(PopBinding(kind))) && s.stack.Push? && s.stack.top.Bound? && s.stack.top.kind == kind
    ensures Reaches(im, s0, t) && t == s.(pc := s.pc + |E(PopBinding(kind))|, stack := s.stack.rest)
  {
    hide Reaches, At, E;
    t := Takes(im, s0, s, PopBinding(kind));
  }

  lemma TakesSrc(im: Image, s0: State, s: State, src: bool, n: nat) returns (t: State)
    requires Reaches(im, s0, s) && At(im.code, s.pc, Src(src, n))
    ensures Reaches(im, s0, t) && t == s.(pc := s.pc + |Src(src, n)|)
  {
    hide Reaches, At, E;
    if src {
      t := Takes(im, s0, s, SrcExpr(n % U64));
    } else {
      t := s;
    }
  }
}
