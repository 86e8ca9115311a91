/**
  What a function sees of its call: each slot its own argument, the slot for a rest the arguments that are left, in
  order.  Said of I-code and of the bytes.
 */
module Calls {

  import opened Options
  import opened Varuint
  import opened Instructions
  import opened Machine
  import opened Icode
  import opened Meaning
  import opened Steps
  import opened Correct

  // Frames

  /** The frame of a call, as it comes from the caller. */
  function CallFrame(vs: seq<Value>, next: Link): Frame { Frame(vs + [NIL], |vs|, next) }

  /** The call has as many arguments as a function of arity parameters takes, or more if it takes a rest. */
  predicate Fit(nary: bool, arity: nat, vs: seq<Value>) {
    if nary then |vs| >= arity else |vs| == arity
  }

  /** The frame as the function sees it. */
  predicate Sees(fr: Frame, nary: bool, arity: nat, vs: seq<Value>, next: Link) {
    && Fit(nary, arity, vs)
    && fr.nparams == |vs| && fr.next == next && |fr.args| == |vs| + 1
    && (forall i :: 0 <= i < arity ==> fr.args[i] == vs[i])
    && Lists(fr.args[arity], vs[arity..])
  }

  /** Nothing changed but that frame. */
  predicate Only(st: Store, a: nat, after: Store) {
    && after.values == st.values && |after.frames| == |st.frames|
    && forall b :: 0 <= b < |st.frames| && b != a ==> after.frames[b] == st.frames[b]
  }

  /** The function takes the call exactly if the number of arguments fits; and then it sees them. */
  lemma Accepts(fun: Icode, vs: seq<Value>, a: nat, next: Link, st: Store)
    requires fun.Abstraction? && a < |st.frames| && st.frames[a] == CallFrame(vs, next)
    ensures Accept(fun, a, st).Some? <==> Fit(fun.nary, fun.arity, vs)
    ensures Accept(fun, a, st).Some? ==>
      Only(st, a, Accept(fun, a, st).value) && Sees(Accept(fun, a, st).value.frames[a], fun.nary, fun.arity, vs, next)
  {
    hide ListOf;
    if Fit(fun.nary, fun.arity, vs) {
      assert (vs + [NIL])[fun.arity..|vs|] == vs[fun.arity..];
      assert vs[|vs|..] == [];
    }
  }

  lemma Linking(st: Store, a: nat, nary: bool, arity: nat, vs: seq<Value>, next: Link, f: Link)
    requires a < |st.frames| && Sees(st.frames[a], nary, arity, vs, next)
    ensures LinkTo(st, FrameRef(a), f).Some? && Only(st, a, LinkTo(st, FrameRef(a), f).value)
    ensures var fr := LinkTo(st, FrameRef(a), f).value.frames[a]; Sees(fr, nary, arity, vs, f) && fr.next == f
  {
    hide Lists;
  }

  // I-code

  /** The body runs in the frame with the arguments where they belong; a call that does not fit is a fault. */
  lemma BodySees(P: Program, entry: nat, env: Link, vs: seq<Value>, a: nat, next: Link, d: Scope, st: Store, fuel: nat) returns (after: Store)
    requires entry in P.funs && P.funs[entry].Abstraction? && a < |st.frames| && st.frames[a] == CallFrame(vs, next)
    ensures var fun, o := P.funs[entry], Apply(P, Closure(entry, env), a, d, st, fuel);
      if !Fit(fun.nary, fun.arity, vs) then o == Stuck(Fault)
      else if fuel == 0 then o == Stuck(Deep)
      else Only(st, a, after) && Sees(after.frames[a], fun.nary, fun.arity, vs, env) && o == Eval(P, fun.mp, Frm(a), d, after, fuel - 1)
  {
    hide Eval, Accept, LinkTo, Sees;
    var fun := P.funs[entry];
    Accepts(fun, vs, a, next, st);
    after := st;
    if Accept(fun, a, st).Some? && fuel > 0 {
      var s1 := Accept(fun, a, st).value;
      Linking(s1, a, fun.nary, fun.arity, vs, next, env);
      after := LinkTo(s1, FrameRef(a), env).value;
    }
  }

  // Bytes

  /**
    A function's code, entered with such a frame, comes to the first byte of its body with the arguments where they
    belong and everything else as it was, exactly if the call fits; otherwise the machine halts.
   */
  lemma BytesSee(im: Image, s: State, fun: Icode, n: nat, vs: seq<Value>, a: nat, next: Link, fuel: nat) returns (t: State)
    requires fun.Abstraction? && Sized(fun, im.consts) && |im.consts| < U64 && At(im.code, s.pc, FunctionCode(fun, im.consts, n))
    requires s.val == FrameRef(a) && a < |s.store.frames| && s.store.frames[a] == CallFrame(vs, next)
    ensures !Fit(fun.nary, fun.arity, vs) ==> Halts(im, s)
    ensures Fit(fun.nary, fun.arity, vs) ==>
      && Reaches(im, s, t) && At(im.code, t.pc, Emit(fun.mp, im.consts, n + 1) + E(Return))
      && t.frame == Frm(a) && Only(s.store, a, t.store) && Sees(t.store.frames[a], fun.nary, fun.arity, vs, s.frame)
      && t.stack == s.stack && t.rcse == s.rcse
  {
    hide Exec, At, Reaches, E, EmitArity, Emit, Accept, LinkTo, Sees, Halts;
    var ins := LinkFrame(Index(im.consts, fun.formals), n % U64);
    var body := Emit(fun.mp, im.consts, n + 1) + E(Return);
    AtSplit(im.code, s.pc, EmitArity(fun), E(ins) + body);
    AtSplit(im.code, s.pc + |EmitArity(fun)|, E(ins), body);
    ReachesSelf(im, s);
    Accepts(fun, vs, a, next, s.store);
    t := RunsArity(im, s, s, fun, fuel);
    if Fit(fun.nary, fun.arity, vs) {
      Linking(t.store, a, fun.nary, fun.arity, vs, next, t.frame);
      t := TakesLink(im, s, t, Index(im.consts, fun.formals), n % U64);
    }
  }

  // Primitives

  /** A primitive is applied to just the arguments of the call, in order. */
  lemma PrimitiveTakes(prim: (nat, seq<Value>) -> Option<Value>, st: Store, p: nat, vs: seq<Value>, a: nat, next: Link)
    requires a < |st.frames| && st.frames[a] == CallFrame(vs, next)
    ensures CallPrimitive(prim, st, p, FrameRef(a)) == prim(p, vs)
  {
    assert (vs + [NIL])[..|vs|] == vs;
  }

  /** So the instruction that applies one leaves its value, or halts if it has none. */
  lemma PrimitiveRuns(im: Image, s: State, ins: Instr, vs: seq<Value>, a: nat, next: Link) returns (t: State)
    requires (ins == FunctionInvoke || ins == FunctionGoto) && At(im.code, s.pc, E(ins)) && s.func.Primitive?
    requires s.val == FrameRef(a) && a < |s.store.frames| && s.store.frames[a] == CallFrame(vs, next)
    ensures var r := im.prim(s.func.p, vs);
      if r.None? then Halts(im, s) else Reaches(im, s, t) && t == s.(pc := s.pc + |E(ins)|, val := r.value)
  {
    hide At, Reaches, E, CallPrimitive, Halts, Fails;
    PrimitiveTakes(im.prim, s.store, s.func.p, vs, a, next);
    ReachesSelf(im, s);
    t := s;
    if im.prim(s.func.p, vs).Some? {
      t := TakesPrimitiveCall(im, s, s, ins);
    } else {
      RefusesCall(im, s, s, ins, 0);
      FaultIsHalt(im, s);
    }
  }

  lemma FaultIsHalt(im: Image, s: State)
    requires Fails(im, s, Fault, 0)
    ensures Halts(im, s)
  {
    hide Halts;
  }
}
