/** What is in force while a part of the code runs: trap handlers, and the suppression of conditions for failing commands. */
module InForce {

  import opened Varuint
  import opened Instructions
  import opened Machine
  import opened Icode
  import opened Meaning
  import opened Keeping
  import opened Steps
  import opened Correct
  import L = Lexical
  import V = Evaluate

  // Traps

  /** One trap for each condition, the first one written on top, with the same handler; below them the stack as it was. */
  predicate TrapsAbove(stack: Stack, sis: seq<nat>, handler: Value, below: Stack)
    decreases |sis|
  {
    if sis == [] then stack == below
    else stack.Push? && stack.top == Bound(Trap, sis[0], handler) && TrapsAbove(stack.rest, sis[1..], handler, below)
  }

  lemma {:induction false} TrapsAreAbove(stack: Stack, sis: seq<nat>, handler: Value)
    ensures TrapsAbove(Trapped(stack, V.Backwards(sis), handler), sis, handler, stack)
    decreases |sis|
  {
    if sis != [] {
      var r := V.Backwards(sis);
      TrappedLast(stack, r, handler);
      assert r[..|r| - 1] == V.Backwards(sis[1..]);
      TrapsAreAbove(stack, sis[1..], handler);
    }
  }

  /** The I-code's handler, whatever the tail flag. */
  function HandlerOf(G: V.Globals, e: V.Expr, nt: seq<L.Level>, fl: V.Flags, v: nat): (r: V.Made)
    requires e.TrapIn?
  {
    V.Meaning(G, e.handler, nt, V.NotTail(fl), v)
  }

  /**
    When the machine starts on the body of a trap, the stack holds exactly one trap for each condition, with the
    handler's value, in the order they are looked for, and below them what was there before.
   */
  lemma TrapsInForce(G: V.Globals, e: V.Expr, nt: seq<L.Level>, fl: V.Flags, v: nat, P: Program, im: Image, n: nat, s: State, fuel: nat)
    returns (t: State)
    requires e.TrapIn? && Linked(P, im, s.store.values) && Fine(V.Meaning(G, e, nt, fl, v).m, im.consts, false)
    requires At(im.code, s.pc, Emit(V.Meaning(G, e, nt, fl, v).m, im.consts, n))
    requires var o := Eval(P, HandlerOf(G, e, nt, fl, v).m, s.frame, ScopeOf(s.stack), s.store, fuel);
      o.Done? && (o.v.Closure? || o.v.Primitive?)
    ensures var r := HandlerOf(G, e, nt, fl, v);
      var o := Eval(P, r.m, s.frame, ScopeOf(s.stack), s.store, fuel);
      && Reaches(im, s, t) && TrapsAbove(t.stack, e.sis, o.v, s.stack) && t.frame == s.frame && t.store == o.st && t.rcse == s.rcse
      && At(im.code, t.pc, Emit(V.Meaning(G, V.Block(e.body), nt, V.NotTail(fl), r.v).m, im.consts, n + Sources(r.m)))
  {
    hide Sources, Exec, At, Reaches, Linked, E, PushTraps, PopTraps, ScopeOf, Eval, Emit, Fails, V.Meaning, V.MeaningEach, TrapsAbove, Trapped, V.NotTail;
    var m, r := V.Meaning(G, e, nt, fl, v).m, HandlerOf(G, e, nt, fl, v);
    TrapMeaning(G, e, nt, fl, v);
    EmitByRule(m, im.consts, n);
    var c1, c2, n1 := Emit(r.m, im.consts, n), Emit(m.mp, im.consts, n + Sources(r.m)), n + Sources(r.m);
    AtSplit(im.code, s.pc, c1, PushTraps(m.sis) + (c2 + PopTraps(m.sis)));
    AtSplit(im.code, s.pc + |c1|, PushTraps(m.sis), c2 + PopTraps(m.sis));
    AtSplit(im.code, s.pc + |c1| + |PushTraps(m.sis)|, c2, PopTraps(m.sis));
    ReachesSelf(im, s);
    t := RunsFrom(P, im, r.m, n, false, s, s, fuel);
    TrapsAreAbove(t.stack, e.sis, t.val);
    t := TakesPushTraps(im, s, t, m.sis);
  }

  lemma TrapMeaning(G: V.Globals, e: V.Expr, nt: seq<L.Level>, fl: V.Flags, v: nat)
    requires e.TrapIn?
    ensures var r := HandlerOf(G, e, nt, fl, v);
      V.Meaning(G, e, nt, fl, v).m == Trapping(V.Backwards(e.sis), r.m, V.Meaning(G, V.Block(e.body), nt, V.NotTail(fl), r.v).m)
  {
    hide V.Meaning, V.MeaningEach;
    V.MeaningByRule(G, e, nt, fl, v);
    V.MeaningByRule(G, V.Block(e.body), nt, V.NotTail(fl), HandlerOf(G, e, nt, fl, v).v);
    V.TailFlags(fl);
  }

  // Suppression

  /** While a test runs, failing commands raise nothing; the arm that follows runs as the whole did. */
  lemma TestSuppressed(P: Program, im: Image, m: Icode, n: nat, s: State, fuel: nat) returns (t: State, u: State)
    requires m.Alternative? && Linked(P, im, s.store.values) && Fine(m, im.consts, true) && At(im.code, s.pc, Emit(m, im.consts, n))
    ensures Reaches(im, s, t) && t.rcse == TRUE && At(im.code, t.pc, Emit(m.m1, im.consts, n + Count(m.src)))
    ensures var o := Eval(P, m.m1, s.frame, ScopeOf(s.stack), s.store, fuel);
      var n2 := n + Count(m.src) + Sources(m.m1);
      o.Done? ==>
        && Reaches(im, s, u) && u.rcse == s.rcse && u.stack == s.stack && u.frame == s.frame && u.store == o.st
        && At(im.code, u.pc, if o.v != FALSE then Emit(m.m2, im.consts, n2) else Emit(m.m3, im.consts, n2 + Sources(m.m2)))
  {
    hide Sources, Exec, At, Reaches, Linked, E, Src, Branches, ScopeOf, Eval, Emit, Fails;
    EmitByRule(m, im.consts, n);
    LinkedSizes(P, im, s.store.values);
    var K, n1 := im.consts, n + Count(m.src);
    var n2 := n1 + Sources(m.m1);
    var n3 := n2 + Sources(m.m2);
    var c1, c2, c3 := Emit(m.m1, K, n1), Emit(m.m2, K, n2), Emit(m.m3, K, n3);
    AtSplit(im.code, s.pc, Src(m.src, n), Quiet(true, c1) + Branches(c2, c3));
    AtSplit(im.code, s.pc + |Src(m.src, n)|, Quiet(true, c1), Branches(c2, c3));
    AtSplit(im.code, s.pc + |Src(m.src, n)|, E(SuppressRcse), c1 + E(PopRcse));
    AtSplit(im.code, s.pc + |Src(m.src, n)| + |E(SuppressRcse)|, c1, E(PopRcse));
    ReachesSelf(im, s);
    var q := TakesSrc(im, s, s, m.src, n);
    t := TakesSuppress(im, s, q);
    u := RunsQuiet(P, im, true, m.m1, n1, false, s, q, fuel);
    if Eval(P, m.m1, s.frame, ScopeOf(s.stack), s.store, fuel).Done? {
      u := TakesBranch(im, s, u, c2, c3);
    }
  }

  /** The jump leads to the arm the value chooses. */
  lemma TakesBranch(im: Image, s0: State, s: State, c2: seq<byte>, c3: seq<byte>) returns (t: State)
    requires Reaches(im, s0, s) && At(im.code, s.pc, Branches(c2, c3)) && |im.code| < U64
    ensures Reaches(im, s0, t) && t == s.(pc := t.pc) && At(im.code, t.pc, if s.val != FALSE then c2 else c3)
  {
    hide Exec, At, Reaches, E;
    var g := E(Goto(|c3|));
    var j := E(JumpFalse(|c2| + |g|));
    AtSplit(im.code, s.pc, j, c2 + (g + c3));
    AtSplit(im.code, s.pc + |j|, c2, g + c3);
    AtSplit(im.code, s.pc + |j| + |c2|, g, c3);
    AtInside(im.code, s.pc + |j|, c2 + (g + c3));
    assert Jump(true, |c2| + |g|) == JumpFalse(|c2| + |g|);
    t := TakesJump(im, s0, s, true, |c2| + |g|);
  }

  /** So it is in every clause of a connective, and in a negation, that is not in tail position. */
  lemma ClauseSuppressed(im: Image, conj: bool, last: bool, ms: Codes, n: nat, s: State) returns (t: State)
    requires At(im.code, s.pc, EmitJunction(conj, last, ms, im.consts, n))
    ensures Reaches(im, s, t) && At(im.code, t.pc, Emit(ms.head, im.consts, n)) && t.rcse == if ms.More? || !last then TRUE else s.rcse
  {
    hide Exec, At, Reaches, E, Emit, Quiet, Sources;
    if ms.More? {
      var others := EmitJunction(conj, last, ms.rest, im.consts, n + Sources(ms.head));
      AtSplit(im.code, s.pc, Quiet(true, Emit(ms.head, im.consts, n)), E(Jump(conj, |others|)) + others);
    }
    t := StartsQuiet(im, s, ms.More? || !last, Emit(ms.head, im.consts, n));
  }

  lemma NegationSuppressed(im: Image, m: Icode, n: nat, s: State) returns (t: State)
    requires m.Negation? && At(im.code, s.pc, Emit(m, im.consts, n))
    ensures Reaches(im, s, t) && At(im.code, t.pc, Emit(m.m1, im.consts, n)) && t.rcse == if m.tail then s.rcse else TRUE
  {
    hide Exec, At, Reaches, E, Emit, Quiet;
    EmitByRule(m, im.consts, n);
    AtSplit(im.code, s.pc, Quiet(!m.tail, Emit(m.m1, im.consts, n)), E(Not));
    t := StartsQuiet(im, s, !m.tail, Emit(m.m1, im.consts, n));
  }

  lemma StartsQuiet(im: Image, s: State, on: bool, code: seq<byte>) returns (t: State)
    requires At(im.code, s.pc, Quiet(on, code))
    ensures Reaches(im, s, t) && At(im.code, t.pc, code) && t.rcse == if on then TRUE else s.rcse
  {
    hide Exec, At, Reaches, E;
    ReachesSelf(im, s);
    t := s;
    if on {
      AtSplit(im.code, s.pc, E(SuppressRcse), code + E(PopRcse));
      AtSplit(im.code, s.pc + |E(SuppressRcse)|, code, E(PopRcse));
      t := TakesSuppress(im, s, s);
    }
  }

  // Calls

  /**
    When a function is entered by a tail call, the stack is what it was when the call's code started; by any other
    call, the caller's frame and the address behind the call are on top of it.
   */
  lemma CallEnters(P: Program, im: Image, m: Icode, n: nat, s: State, fuel: nat) returns (t: State, back: nat)
    requires m.Call? && Linked(P, im, s.store.values) && Fine(m, im.consts, true) && At(im.code, s.pc, Emit(m, im.consts, n))
    requires var o := Eval(P, m.m1, s.frame, ScopeOf(s.stack), s.store, fuel);
      o.Done? && o.v.Closure? && EvalArgs(P, m.args, s.frame, ScopeOf(s.stack), o.st, fuel).Built?
    ensures var o := Eval(P, m.m1, s.frame, ScopeOf(s.stack), s.store, fuel);
      var q := EvalArgs(P, m.args, s.frame, ScopeOf(s.stack), o.st, fuel);
      && Reaches(im, s, t) && t.pc == o.v.entry && t.frame == o.v.env && t.val == FrameRef(q.a) && t.store == q.st && t.rcse == s.rcse
      && (m.tail ==> t.stack == s.stack)
      && (!m.tail ==> t.stack == Push(Ret(back), Push(Saved(s.frame), s.stack)) && At(im.code, back, E(RestoreState)))
  {
    hide Fetch, Update, Extend, Pack, LinkTo, CallPrimitive, Nearest, EvalArgs, EmitArgs, Sources, Exec, At, Reaches;
    hide Linked, E, Src, Eval, Emit, Host, ValueOf, Supplied, Fails, ScopeOf;
    EmitByRule(m, im.consts, n);
    LinkedSizes(P, im, s.store.values);
    var n1 := n + Sources(m.m1);
    var n2 := n1 + SourcesArgs(m.args);
    var c1, c2, c3 := Emit(m.m1, im.consts, n), EmitArgs(m.args, im.consts, n1), EmitCall(m.tail);
    var p1 := s.pc + |c1| + |E(PushValue)|;
    AtSplit(im.code, s.pc, c1, E(PushValue) + (c2 + (Src(m.src, n2) + c3)));
    AtSplit(im.code, s.pc + |c1|, E(PushValue), c2 + (Src(m.src, n2) + c3));
    AtSplit(im.code, p1, c2, Src(m.src, n2) + c3);
    AtSplit(im.code, p1 + |c2|, Src(m.src, n2), c3);
    ReachesSelf(im, s);
    t := RunsFrom(P, im, m.m1, n, false, s, s, fuel);
    ScopeBehindValue(t);
    t := TakesPushValue(im, s, t);
    t := RunsArgs(P, im, m.args, n1, s, t, fuel);
    t := TakesSrc(im, s, t, m.src, n2);
    t, back := Enters(im, s, t, m.tail);
  }

  lemma ScopeBehindValue(s: State)
    ensures ScopeOf(Push(Val(s.val), s.stack)) == ScopeOf(s.stack)
  {
  }

  lemma Enters(im: Image, s0: State, s: State, tail: bool) returns (t: State, back: nat)
    requires Reaches(im, s0, s) && At(im.code, s.pc, EmitCall(tail)) && s.stack.Push? && s.stack.top.Val? && s.stack.top.v.Closure?
    ensures var f := s.stack.top.v; Reaches(im, s0, t) && t.pc == f.entry && t.frame == f.env && t.val == s.val && t.store == s.store && t.rcse == s.rcse
    ensures tail ==> t.stack == s.stack.rest
    ensures !tail ==> t.stack == Push(Ret(back), Push(Saved(s.frame), s.stack.rest)) && At(im.code, back, E(RestoreState))
  {
    hide Exec, At, Reaches, E;
    back := 0;
    if tail {
      AtSplit(im.code, s.pc, E(PopFunction), E(FunctionGoto));
      t := TakesPopFunction(im, s0, s);
      t := TakesTailCall(im, s0, t);
    } else {
      var rest := E(FunctionInvoke) + E(RestoreState);
      AtSplit(im.code, s.pc, E(PopFunction), E(PreserveState) + rest);
      AtSplit(im.code, s.pc + |E(PopFunction)|, E(PreserveState), rest);
      AtSplit(im.code, s.pc + |E(PopFunction)| + |E(PreserveState)|, E(FunctionInvoke), E(RestoreState));
      t := TakesPopFunction(im, s0, s);
      t := TakesPreserve(im, s0, t);
      back := t.pc + |E(FunctionInvoke)|;
      t := TakesInvoke(im, s0, t);
    }
  }
}
