/** The byte code of a fragment does what the fragment means. */
module Correct {

  import opened Options
  import opened Varuint
  import opened Instructions
  import opened Machine
  import opened Icode
  import opened Meaning
  import opened Keeping
  import opened Steps

  /** The dynamic and environment bindings a stack holds. */
  function ScopeOf(stack: Stack): (d: Scope) {
    match stack
    case Empty => NoScope
    case Push(item, rest) =>
      if item.Bound? && !item.kind.Trap? then Bind(item.kind.Environ?, item.si, item.v, ScopeOf(rest)) else ScopeOf(rest)
  }

  /** Searching the stack finds the binding in force. */
  lemma {:induction false} NearestInScope(stack: Stack, environ: bool, si: nat)
    ensures Nearest(stack, if environ then Environ else Dynamic, si) == Lookup(ScopeOf(stack), environ, si)
  {
    if stack.Push? {
      NearestInScope(stack.rest, environ, si);
    }
  }

  /** The function's code stands at its label. */
  ghost predicate Placed(im: Image, entry: nat, fun: Icode, n: nat) {
    && fun.Abstraction?
    && Sized(fun, im.consts)
    && TailOK(fun, true)
    && At(im.code, entry, FunctionCode(fun, im.consts, n))
  }

  /** The machine holds the program: every function is placed, every closure number leads to its label. */
  ghost predicate Linked(P: Program, im: Image, values: map<nat, Value>) {
    && P.prim == im.prim
    && |im.code| < U64
    && |im.consts| < U64
    && (forall vi :: vi in P.labels ==> vi in values && values[vi].Closure? && values[vi].entry == P.labels[vi])
    && (forall entry :: entry in P.funs ==> exists n: nat :: Placed(im, entry, P.funs[entry], n))
  }

  lemma LinkedAfter(P: Program, im: Image, st: Store, after: Store)
    requires Linked(P, im, st.values) && Keeps(P, st, after)
    ensures Linked(P, im, after.values)
  {
  }

  lemma LinkedSizes(P: Program, im: Image, values: map<nat, Value>)
    requires Linked(P, im, values)
    ensures |im.code| < U64 && |im.consts| < U64 && P.prim == im.prim
  {
  }

  /** The fragment's operands can be read back, and its tail calls are in place. */
  ghost predicate Fine(m: Icode, K: seq<Value>, tail: bool) {
    Sized(m, K) && TailOK(m, tail)
  }

  /** The code of a function body has its return address on top of the stack. */
  predicate Returnable(tail: bool, s: State) {
    tail ==> s.stack.Push? && s.stack.top.Ret?
  }

  /** A run from s has come to the end of the fragment, with nothing left on the stack and suppression as it was. */
  predicate Falls(tail: bool, s: State, t: State, end: nat) {
    t.pc == end && t.stack == s.stack && t.rcse == s.rcse && (tail || t.frame == s.frame)
  }

  /** A run from s has left by a tail call, and that call has returned to the caller's address. */
  predicate Leaves(s: State, t: State) {
    s.stack.Push? && s.stack.top.Ret? && t.pc == s.stack.top.pc && t.stack == s.stack.rest && t.rcse == s.rcse
  }

  predicate Ends(tail: bool, s: State, t: State, end: nat, o: Outcome) {
    o.Done? && t.val == o.v && t.store == o.st && (Falls(tail, s, t, end) || (tail && Leaves(s, t)))
  }

  /** What the run of a fragment without a value does: it halts, or it takes more steps than fuel allows calls. */
  ghost predicate Fails(im: Image, s: State, why: Reason, fuel: nat) {
    match why
    case Fault => Halts(im, s)
    case Deep => Lasts(im, s, fuel)
    case Foreign => true
  }

  /** A run that has come from s0 to s goes on as the outcome of the fragment at s says. */
  ghost predicate Goes(im: Image, tail: bool, s0: State, s: State, t: State, end: nat, o: Outcome, fuel: nat) {
    if o.Done? then Reaches(im, s0, t) && Ends(tail, s, t, end, o) else Fails(im, s0, o.why, fuel)
  }

  /** The fragment stands at the program counter of a machine that holds the program. */
  ghost predicate Pre(P: Program, im: Image, m: Icode, n: nat, tail: bool, s: State) {
    && Linked(P, im, s.store.values)
    && Fine(m, im.consts, tail)
    && At(im.code, s.pc, Emit(m, im.consts, n))
    && Returnable(tail, s)
  }

  ghost predicate Post(P: Program, im: Image, m: Icode, n: nat, tail: bool, s: State, fuel: nat, t: State) {
    Goes(im, tail, s, s, t, s.pc + |Emit(m, im.consts, n)|, Eval(P, m, s.frame, ScopeOf(s.stack), s.store, fuel), fuel)
  }

  // Pieces

  lemma FailsFrom(im: Image, s0: State, s: State, why: Reason, fuel: nat)
    requires Reaches(im, s0, s) && Fails(im, s, why, fuel)
    ensures Fails(im, s0, why, fuel)
  {
    hide Reaches, Halts, Lasts;
    match why
    case Fault => HaltsBefore(im, s0, s);
    case Deep => LastsBefore(im, s0, s, fuel);
    case Foreign =>
  }

  /** One step more for one call more. */
  lemma FailsLater(im: Image, s0: State, s: State, u: State, why: Reason, fuel: nat)
    requires Reaches(im, s0, s) && Reaches(im, s, u) && s.pc != u.pc && Fails(im, u, why, fuel)
    ensures Fails(im, s0, why, fuel + 1)
  {
    hide Reaches, Halts, Lasts;
    if why.Deep? {
      LastsBefore(im, s, u, fuel);
      LastsBefore(im, s0, s, fuel + 1);
    } else {
      FailsFrom(im, s, u, why, fuel);
      FailsFrom(im, s0, s, why, fuel);
    }
  }

  /** Nothing is said of code that leaves the program. */
  lemma FailsAnyhow(im: Image, s: State, fuel: nat)
    ensures Fails(im, s, Foreign, fuel)
  {
  }

  lemma FailsAt(im: Image, s0: State, s: State, ins: Instr, fuel: nat)
    requires Reaches(im, s0, s) && At(im.code, s.pc, E(ins)) && Fits(ins) && Exec(im, ins, s.(pc := s.pc + |E(ins)|)).None?
    ensures Fails(im, s0, Fault, fuel)
  {
    hide Exec, Reaches, At, Fits, Halts;
    Refuses(im, s, ins);
    HaltsBefore(im, s0, s);
  }

  lemma {:induction false} RunsFrom(P: Program, im: Image, m: Icode, n: nat, tail: bool, s0: State, s: State, fuel: nat)
    returns (t: State)
    requires Reaches(im, s0, s) && Pre(P, im, m, n, tail, s)
    ensures var o := Eval(P, m, s.frame, ScopeOf(s.stack), s.store, fuel);
      Goes(im, tail, s0, s, t, s.pc + |Emit(m, im.consts, n)|, o, fuel) && (o.Done? ==> Linked(P, im, t.store.values))
    decreases fuel, m, 4
  {
    hide Reaches, Linked, Eval, Emit, Fine, Keeps, Fails;
    t := Runs(P, im, m, n, tail, s, fuel);
    if Eval(P, m, s.frame, ScopeOf(s.stack), s.store, fuel).Done? {
      ReachesThen(im, s0, s, t);
      EvalKeeps(P, m, s.frame, ScopeOf(s.stack), s.store, fuel);
      LinkedAfter(P, im, s.store, t.store);
    } else {
      FailsFrom(im, s0, s, Eval(P, m, s.frame, ScopeOf(s.stack), s.store, fuel).why, fuel);
    }
  }

  lemma {:induction false} RunsQuiet(P: Program, im: Image, on: bool, m: Icode, n: nat, tail: bool, s0: State, s: State, fuel: nat)
    returns (t: State)
    requires Reaches(im, s0, s) && Linked(P, im, s.store.values)
    requires At(im.code, s.pc, Quiet(on, Emit(m, im.consts, n)))
    requires Fine(m, im.consts, tail) && (on ==> !tail) && Returnable(tail, s)
    ensures var o := Eval(P, m, s.frame, ScopeOf(s.stack), s.store, fuel);
      Goes(im, tail, s0, s, t, s.pc + |Quiet(on, Emit(m, im.consts, n))|, o, fuel) && (o.Done? ==> Linked(P, im, t.store.values))
    decreases fuel, m, 5
  {
    hide Sources, Exec, At, Reaches, Linked, E, Eval, Emit, Fine, Fails;
    var c := Emit(m, im.consts, n);
    if on {
      AtSplit(im.code, s.pc, E(SuppressRcse), c + E(PopRcse));
      AtSplit(im.code, s.pc + |E(SuppressRcse)|, c, E(PopRcse));
      t := TakesSuppress(im, s0, s);
      t := RunsFrom(P, im, m, n, false, s0, t, fuel);
      if Eval(P, m, s.frame, ScopeOf(s.stack), s.store, fuel).Done? {
        t := TakesPopRcse(im, s0, t);
      }
    } else {
      t := RunsFrom(P, im, m, n, tail, s0, s, fuel);
    }
  }

  lemma {:induction false} RunsBranches(P: Program, im: Image, m2: Icode, n2: nat, m3: Icode, n3: nat, tail: bool, s0: State, s: State, fuel: nat)
    returns (t: State)
    requires Reaches(im, s0, s) && Linked(P, im, s.store.values)
    requires At(im.code, s.pc, Branches(Emit(m2, im.consts, n2), Emit(m3, im.consts, n3)))
    requires Fine(m2, im.consts, tail) && Fine(m3, im.consts, tail) && Returnable(tail, s)
    ensures Goes(im, tail, s0, s, t, s.pc + |Branches(Emit(m2, im.consts, n2), Emit(m3, im.consts, n3))|,
      Eval(P, if s.val != FALSE then m2 else m3, s.frame, ScopeOf(s.stack), s.store, fuel), fuel)
    decreases fuel, if s.val != FALSE then m2 else m3, 5
  {
    hide Sources, Exec, At, Reaches, Linked, E, Eval, Emit, Fine, Fails;
    LinkedSizes(P, im, s.store.values);
    var c2, c3 := Emit(m2, im.consts, n2), Emit(m3, im.consts, n3);
    var g := E(Goto(|c3|));
    var j := E(JumpFalse(|c2| + |g|));
    AtSplit(im.code, s.pc, j, c2 + (g + c3));
    AtSplit(im.code, s.pc + |j|, c2, g + c3);
    AtSplit(im.code, s.pc + |j| + |c2|, g, c3);
    AtInside(im.code, s.pc + |j|, c2 + (g + c3));
    assert Jump(true, |c2| + |g|) == JumpFalse(|c2| + |g|);
    var u := TakesJump(im, s0, s, true, |c2| + |g|);
    if s.val == FALSE {
      t := RunsFrom(P, im, m3, n3, tail, s0, u, fuel);
    } else {
      t := RunsFrom(P, im, m2, n2, tail, s0, u, fuel);
      if Eval(P, m2, s.frame, ScopeOf(s.stack), s.store, fuel).Done? && Falls(tail, u, t, u.pc + |c2|) {
        t := TakesGoto(im, s0, t, |c3|);
      }
    }
  }

  lemma {:induction false} RunsEach(P: Program, im: Image, ms: Codes, n: nat, tail: bool, s0: State, s: State, fuel: nat)
    returns (t: State)
    requires Reaches(im, s0, s) && Linked(P, im, s.store.values)
    requires At(im.code, s.pc, EmitEach(ms, im.consts, n))
    requires FineEach(ms, im.consts, tail) && Returnable(tail, s)
    ensures Goes(im, tail, s0, s, t, s.pc + |EmitEach(ms, im.consts, n)|, EvalEach(P, ms, s.frame, ScopeOf(s.stack), s.store, fuel), fuel)
    decreases fuel, ms, 5
  {
    hide Exec, At, Reaches, Linked, Eval, Emit, Sized, TailOK, Sources, ScopeOf, Fails;
    match ms
    case One(m) => t := RunsFrom(P, im, m, n, tail, s0, s, fuel);
    case More(m, rest) =>
      AtSplit(im.code, s.pc, Emit(m, im.consts, n), EmitEach(rest, im.consts, n + Sources(m)));
      t := RunsFrom(P, im, m, n, false, s0, s, fuel);
      if Eval(P, m, s.frame, ScopeOf(s.stack), s.store, fuel).Done? {
        t := RunsEach(P, im, rest, n + Sources(m), tail, s0, t, fuel);
      }
  }

  /** Whatever the clauses, each jump lands exactly at the end of the whole. */
  lemma {:induction false} RunsJunction(P: Program, im: Image, conj: bool, last: bool, ms: Codes, n: nat, tail: bool, s0: State, s: State, fuel: nat)
    returns (t: State)
    requires Reaches(im, s0, s) && Linked(P, im, s.store.values)
    requires At(im.code, s.pc, EmitJunction(conj, last, ms, im.consts, n))
    requires FineEach(ms, im.consts, tail && last) && Returnable(tail, s)
    ensures Goes(im, tail, s0, s, t, s.pc + |EmitJunction(conj, last, ms, im.consts, n)|,
      EvalJunction(P, conj, ms, s.frame, ScopeOf(s.stack), s.store, fuel), fuel)
    decreases fuel, ms, 6
  {
    hide Exec, At, Reaches, Linked, E, Eval, Emit, Quiet, Sized, TailOK, Sources, ScopeOf, Fails;
    LinkedSizes(P, im, s.store.values);
    match ms
    case One(m) => t := RunsQuiet(P, im, !last, m, n, tail && last, s0, s, fuel);
    case More(m, rest) =>
      var others := EmitJunction(conj, last, rest, im.consts, n + Sources(m));
      var c := Quiet(true, Emit(m, im.consts, n));
      var j := Jump(conj, |others|);
      AtSplit(im.code, s.pc, c, E(j) + others);
      AtSplit(im.code, s.pc + |c|, E(j), others);
      AtInside(im.code, s.pc + |c| + |E(j)|, others);
      t := RunsQuiet(P, im, true, m, n, false, s0, s, fuel);
      if Eval(P, m, s.frame, ScopeOf(s.stack), s.store, fuel).Done? {
        t := TakesJump(im, s0, t, conj, |others|);
        if conj != (t.val == FALSE) {
          t := RunsJunction(P, im, conj, last, rest, n + Sources(m), tail, s0, t, fuel);
        }
      }
  }

  ghost predicate FineEach(ms: Codes, K: seq<Value>, tail: bool) {
    SizedEach(ms, K) && TailEach(ms, tail)
  }

  ghost predicate FineArgs(args: Args, K: seq<Value>) {
    SizedArgs(args, K) && TailArgs(args)
  }

  /** Building an argument frame leaves the stack as it was and the new frame in the value register. */
  lemma {:induction false} RunsArgs(P: Program, im: Image, args: Args, n: nat, s0: State, s: State, fuel: nat)
    returns (t: State)
    requires Reaches(im, s0, s) && Linked(P, im, s.store.values)
    requires At(im.code, s.pc, EmitArgs(args, im.consts, n)) && FineArgs(args, im.consts)
    ensures var o := EvalArgs(P, args, s.frame, ScopeOf(s.stack), s.store, fuel);
      if o.Built? then
        && Reaches(im, s0, t) && Falls(false, s, t, s.pc + |EmitArgs(args, im.consts, n)|)
        && Linked(P, im, t.store.values) && t.val == FrameRef(o.a) && t.store == o.st
      else Fails(im, s0, o.why, fuel)
    decreases fuel, args, 5
  {
    hide Extend, Pack, LinkTo, CallPrimitive, Nearest, Exec, At, Reaches, Linked, E, Eval, Emit, Sized, TailOK, Fails;
    hide Sources, Update;
    if args.AllocFrame? {
      t := TakesAllocate(im, s0, s, args.arity + 1);
    } else {
      var c1, c2 := Emit(args.m1, im.consts, n), EmitArgs(args.rest, im.consts, n + Sources(args.m1));
      var last := if args.StoreArgument? then PopFrame(args.rank) else PopListFrame(args.arity);
      AtSplit(im.code, s.pc, c1, E(PushValue) + (c2 + E(last)));
      AtSplit(im.code, s.pc + |c1|, E(PushValue), c2 + E(last));
      AtSplit(im.code, s.pc + |c1| + |E(PushValue)|, c2, E(last));
      t := RunsFrom(P, im, args.m1, n, false, s0, s, fuel);
      if Eval(P, args.m1, s.frame, ScopeOf(s.stack), s.store, fuel).Done? {
        var u := TakesPushValue(im, s0, t);
        t := RunsArgs(P, im, args.rest, n + Sources(args.m1), s0, u, fuel);
        if EvalArgs(P, args.rest, u.frame, ScopeOf(u.stack), u.store, fuel).Built? {
          t := RunsPop(P, im, args, s0, t, fuel);
        }
      }
    }
  }

  /** The argument goes from the stack into the frame, or the frame has no slot for it. */
  lemma RunsPop(P: Program, im: Image, args: Args, s0: State, s: State, fuel: nat) returns (t: State)
    requires !args.AllocFrame? && (if args.StoreArgument? then args.rank else args.arity) < U64
    requires var last := if args.StoreArgument? then PopFrame(args.rank) else PopListFrame(args.arity);
      Reaches(im, s0, s) && At(im.code, s.pc, E(last))
    requires s.stack.Push? && s.stack.top.Val? && s.val.FrameRef? && Linked(P, im, s.store.values)
    ensures var last := if args.StoreArgument? then PopFrame(args.rank) else PopListFrame(args.arity);
      match Put(args, s.stack.top.v, s.val.a, s.store)
      case None => Fails(im, s0, Fault, fuel)
      case Some(st) => Reaches(im, s0, t) && Linked(P, im, st.values) && t == s.(pc := s.pc + |E(last)|, stack := s.stack.rest, store := st)
  {
    hide Reaches, Linked, At, E, Update, Fails;
    t := s;
    if args.StoreArgument? {
      if Update(s.store, Frm(s.val.a), 0, args.rank, s.stack.top.v).Some? {
        t := TakesPopFrame(im, s0, s, args.rank);
      } else {
        FailsAt(im, s0, s, PopFrame(args.rank), fuel);
      }
    } else {
      if HasSlot(s.store.frames, Frm(s.val.a), args.arity) && Put(args, s.stack.top.v, s.val.a, s.store).Some? {
        t := TakesPopList(im, s0, s, args.arity, Fetch(s.store.frames, Frm(s.val.a), 0, args.arity).value);
      } else {
        FailsAt(im, s0, s, PopListFrame(args.arity), fuel);
      }
    }
  }

  /** The store once the argument is in its slot. */
  function Put(args: Args, v: Value, a: nat, st: Store): (r: Option<Store>)
    requires !args.AllocFrame?
  {
    if args.StoreArgument? then Update(st, Frm(a), 0, args.rank, v)
    else
      match Fetch(st.frames, Frm(a), 0, args.arity)
      case None => None
      case Some(w) => Update(st, Frm(a), 0, args.arity, Pair(v, w))
  }

  // One lemma for each kind of I-code

  lemma {:induction false} RunsAlternative(P: Program, im: Image, src: bool, m1: Icode, m2: Icode, m3: Icode, n: nat, tail: bool, s: State, fuel: nat)
    returns (t: State)
    requires Pre(P, im, Alternative(src, m1, m2, m3), n, tail, s)
    ensures Post(P, im, Alternative(src, m1, m2, m3), n, tail, s, fuel, t)
    decreases fuel, Alternative(src, m1, m2, m3), 2
  {
    hide Sources, Exec, At, Reaches, Linked, E, Quiet, Src, Branches, ScopeOf, Eval, Emit, Host, ValueOf, Supplied, Fails;
    EvalByRule(P, Alternative(src, m1, m2, m3), s.frame, ScopeOf(s.stack), s.store, fuel);
    EmitByRule(Alternative(src, m1, m2, m3), im.consts, n);
    var K := im.consts;
    var n1 := n + Count(src);
    var n2 := n1 + Sources(m1);
    var n3 := n2 + Sources(m2);
    var c1, c := Emit(m1, K, n1), Branches(Emit(m2, K, n2), Emit(m3, K, n3));
    AtSplit(im.code, s.pc, Src(src, n), Quiet(true, c1) + c);
    AtSplit(im.code, s.pc + |Src(src, n)|, Quiet(true, c1), c);
    ReachesSelf(im, s);
    t := TakesSrc(im, s, s, src, n);
    t := RunsQuiet(P, im, true, m1, n1, false, s, t, fuel);
    if Eval(P, m1, s.frame, ScopeOf(s.stack), s.store, fuel).Done? {
      t := RunsBranches(P, im, m2, n2, m3, n3, tail, s, t, fuel);
    }
  }

  lemma RunsLeaf(P: Program, im: Image, m: Icode, n: nat, tail: bool, s: State, fuel: nat) returns (t: State)
    requires m.ConstantOf? || m.ShallowArgumentRef? || m.DeepArgumentRef? || m.SymbolRef?
    requires Pre(P, im, m, n, tail, s)
    ensures Post(P, im, m, n, tail, s, fuel, t)
  {
    hide Exec, At, Reaches, Linked, E, Fetch, ValueOf, ScopeOf, Eval, Emit, Fails;
    EvalByRule(P, m, s.frame, ScopeOf(s.stack), s.store, fuel);
    EmitByRule(m, im.consts, n);
    LinkedSizes(P, im, s.store.values);
    ReachesSelf(im, s);
    t := s;
    match m
    case ConstantOf(c) => t := TakesLoad(im, s, s, c);
    case ShallowArgumentRef(j) => t := RunsFetch(im, s, 0, j, ShallowRef(j), fuel);
    case DeepArgumentRef(i, j) => t := RunsFetch(im, s, i, j, DeepRef(i, j), fuel);
    case SymbolRef(called, si) =>
      if ValueOf(s.store.values, si).Some? {
        t := TakesSymRef(im, s, s, called, si);
      } else {
        RefusesSymRef(im, s, called, si, fuel);
      }
  }

  lemma RunsFetch(im: Image, s: State, d: nat, j: nat, ins: Instr, fuel: nat) returns (t: State)
    requires At(im.code, s.pc, E(ins)) && (ins == DeepRef(d, j) || (d == 0 && ins == ShallowRef(j))) && Fits(ins)
    ensures Goes(im, false, s, s, t, s.pc + |E(ins)|, Yields(Fetch(s.store.frames, s.frame, d, j), s.store), fuel)
  {
    hide Reaches, At, E, Fetch, Fails;
    t := s;
    ReachesSelf(im, s);
    if Fetch(s.store.frames, s.frame, d, j).Some? {
      t := TakesFetch(im, s, s, d, j, ins);
    } else {
      FailsAt(im, s, s, ins, fuel);
    }
  }

  lemma RefusesSymRef(im: Image, s: State, called: bool, si: nat, fuel: nat)
    requires At(im.code, s.pc, E(SymRef(called, si))) && si < 65536 && ValueOf(s.store.values, si).None?
    ensures Fails(im, s, Fault, fuel)
  {
    hide Reaches, At, E, ValueOf, Fails;
    ReachesSelf(im, s);
    FailsAt(im, s, s, SymRef(called, si), fuel);
  }

  lemma RunsAbstraction(P: Program, im: Image, m: Icode, n: nat, tail: bool, s: State, fuel: nat) returns (t: State)
    requires m.Abstraction? && Pre(P, im, m, n, tail, s)
    ensures Post(P, im, m, n, tail, s, fuel, t)
  {
    hide Exec, At, Reaches, Placed, E, ScopeOf, Eval, Emit, Fails;
    EvalByRule(P, m, s.frame, ScopeOf(s.stack), s.store, fuel);
    EmitByRule(m, im.consts, n);
    ReachesSelf(im, s);
    t := s;
    if m.vi in P.labels {
      t := TakesClosure(im, s, s, m.vi);
    } else {
      FailsAnyhow(im, s, fuel);
    }
  }

  lemma RunsScopedRef(P: Program, im: Image, m: Icode, n: nat, tail: bool, s: State, fuel: nat) returns (t: State)
    requires m.ScopedRef? && Pre(P, im, m, n, tail, s)
    ensures Post(P, im, m, n, tail, s, fuel, t)
  {
    hide At, Reaches, Linked, E, ValueOf, ScopeOf, Nearest, Lookup, Eval, Emit, Fails;
    EvalByRule(P, m, s.frame, ScopeOf(s.stack), s.store, fuel);
    EmitByRule(m, im.consts, n);
    ReachesSelf(im, s);
    NearestInScope(s.stack, m.environ, m.si);
    t := s;
    if Exec(im, BindingRef(m.environ, m.si), s.(pc := s.pc + |E(BindingRef(m.environ, m.si))|)).Some? {
      t := Takes(im, s, s, BindingRef(m.environ, m.si));
    } else {
      FailsAt(im, s, s, BindingRef(m.environ, m.si), fuel);
    }
  }

  lemma {:induction false} RunsAssignment(P: Program, im: Image, m: Icode, n: nat, tail: bool, s: State, fuel: nat) returns (t: State)
    requires m.ShallowArgumentSet? || m.DeepArgumentSet?
    requires Pre(P, im, m, n, tail, s)
    ensures Post(P, im, m, n, tail, s, fuel, t)
    decreases fuel, m, 2
  {
    hide Sources, Exec, At, Reaches, Linked, E, Update, Fetch, ScopeOf, Eval, Emit, Host, ValueOf, Supplied, Fails;
    EvalByRule(P, m, s.frame, ScopeOf(s.stack), s.store, fuel);
    EmitByRule(m, im.consts, n);
    ReachesSelf(im, s);
    var d := if m.ShallowArgumentSet? then 0 else m.i;
    var ins := if m.ShallowArgumentSet? then SetArgument(m.j) else DeepSet(m.i, m.j);
    AtSplit(im.code, s.pc, Emit(m.m1, im.consts, n), E(ins));
    t := RunsFrom(P, im, m.m1, n, false, s, s, fuel);
    if Eval(P, m.m1, s.frame, ScopeOf(s.stack), s.store, fuel).Done? {
      t := RunsUpdate(im, s, t, d, m.j, ins, fuel);
    }
  }

  lemma RunsUpdate(im: Image, s0: State, s: State, d: nat, j: nat, ins: Instr, fuel: nat) returns (t: State)
    requires Reaches(im, s0, s) && At(im.code, s.pc, E(ins)) && Fits(ins)
    requires ins == DeepSet(d, j) || (d == 0 && (ins == SetArgument(j) || ins == ShallowSet(j)))
    ensures Goes(im, false, s0, s, t, s.pc + |E(ins)|, Changes(s.val, Update(s.store, s.frame, d, j, s.val)), fuel)
  {
    hide Reaches, At, E, Update, Fails;
    t := s;
    if Update(s.store, s.frame, d, j, s.val).Some? {
      t := TakesUpdate(im, s0, s, d, j, ins);
    } else {
      FailsAt(im, s0, s, ins, fuel);
    }
  }

  lemma {:induction false} RunsSourced(P: Program, im: Image, m: Icode, n: nat, tail: bool, s: State, fuel: nat) returns (t: State)
    requires m.SymbolSet? || m.Primitive1?
    requires Pre(P, im, m, n, tail, s)
    ensures Post(P, im, m, n, tail, s, fuel, t)
    decreases fuel, m, 2
  {
    hide Sources, Exec, At, Reaches, Linked, E, Update, Fetch, Src, ScopeOf, Eval, Emit, Host, ValueOf, Supplied, Fails;
    EvalByRule(P, m, s.frame, ScopeOf(s.stack), s.store, fuel);
    EmitByRule(m, im.consts, n);
    LinkedSizes(P, im, s.store.values);
    ReachesSelf(im, s);
    var c := Emit(m.m1, im.consts, n);
    var n1 := n + Sources(m.m1);
    var ins := if m.SymbolSet? then SymSet(m.si) else PrimCall1(m.pd);
    AtSplit(im.code, s.pc, c, Src(m.src, n1) + E(ins));
    AtSplit(im.code, s.pc + |c|, Src(m.src, n1), E(ins));
    t := RunsFrom(P, im, m.m1, n, false, s, s, fuel);
    if Eval(P, m.m1, s.frame, ScopeOf(s.stack), s.store, fuel).Done? {
      t := TakesSrc(im, s, t, m.src, n1);
      if m.SymbolSet? {
        FailsAnyhow(im, s, fuel);
        t := TakesSymSet(im, s, t, m.si);
      } else {
        t := RunsHost(im, s, t, ins, m.pd, [t.val], fuel);
      }
    }
  }

  /** A call of a primitive with its arguments in the registers. */
  lemma RunsHost(im: Image, s0: State, s: State, ins: Instr, pd: nat, vs: seq<Value>, fuel: nat) returns (t: State)
    requires Reaches(im, s0, s) && At(im.code, s.pc, E(ins)) && pd < U64
    requires (ins == PrimCall0(pd) && vs == []) || (ins == PrimCall1(pd) && vs == [s.val]) || (ins == PrimCall2(pd) && vs == [s.reg1, s.val])
    ensures Goes(im, false, s0, s, t, s.pc + |E(ins)|, Yields(Host(im.prim, pd, vs), s.store), fuel)
  {
    hide Reaches, At, E, Host, Fails;
    t := s;
    if Host(im.prim, pd, vs).None? {
      FailsAt(im, s0, s, ins, fuel);
    } else {
      t := Takes(im, s0, s, ins);
    }
  }

  lemma {:induction false} RunsPrimitive0(P: Program, im: Image, src: bool, pd: nat, n: nat, tail: bool, s: State, fuel: nat) returns (t: State)
    requires Pre(P, im, Primitive0(src, pd), n, tail, s)
    ensures Post(P, im, Primitive0(src, pd), n, tail, s, fuel, t)
  {
    hide Sources, Exec, At, Reaches, Linked, E, Src, Eval, Emit, Host, ValueOf, Supplied, Fails;
    EvalByRule(P, Primitive0(src, pd), s.frame, ScopeOf(s.stack), s.store, fuel);
    EmitByRule(Primitive0(src, pd), im.consts, n);
    LinkedSizes(P, im, s.store.values);
    ReachesSelf(im, s);
    AtSplit(im.code, s.pc, Src(src, n), E(PrimCall0(pd)));
    t := TakesSrc(im, s, s, src, n);
    t := RunsHost(im, s, t, PrimCall0(pd), pd, [], fuel);
  }

  lemma {:induction false} RunsPrimitive2(P: Program, im: Image, src: bool, m1: Icode, m2: Icode, pd: nat, n: nat, tail: bool, s: State, fuel: nat)
    returns (t: State)
    requires Pre(P, im, Primitive2(src, m1, m2, pd), n, tail, s)
    ensures Post(P, im, Primitive2(src, m1, m2, pd), n, tail, s, fuel, t)
    decreases fuel, Primitive2(src, m1, m2, pd), 2
  {
    hide Fetch, Update, Extend, Pack, LinkTo, CallPrimitive, Nearest, Sources, Exec, At, Reaches, Linked, E, Src, Fails;
    hide Eval, Emit, Host, ValueOf, Supplied;
    EvalByRule(P, Primitive2(src, m1, m2, pd), s.frame, ScopeOf(s.stack), s.store, fuel);
    EmitByRule(Primitive2(src, m1, m2, pd), im.consts, n);
    LinkedSizes(P, im, s.store.values);
    var n1 := n + Sources(m1);
    var c1 := Emit(m1, im.consts, n);
    var rest := Emit(m2, im.consts, n1) + (E(PopReg1) + (Src(src, n1 + Sources(m2)) + E(PrimCall2(pd))));
    AtSplit(im.code, s.pc, c1, E(PushValue) + rest);
    AtSplit(im.code, s.pc + |c1|, E(PushValue), rest);
    ReachesSelf(im, s);
    t := RunsFrom(P, im, m1, n, false, s, s, fuel);
    if Eval(P, m1, s.frame, ScopeOf(s.stack), s.store, fuel).Done? {
      t := TakesPushValue(im, s, t);
      t := RunsSecond(P, im, src, m2, pd, n1, s, t, fuel);
    }
  }

  /** The second operand of a primitive, the first being on the stack. */
  lemma {:induction false} RunsSecond(P: Program, im: Image, src: bool, m: Icode, pd: nat, n: nat, s0: State, s: State, fuel: nat)
    returns (t: State)
    requires Reaches(im, s0, s) && Linked(P, im, s.store.values) && Fine(m, im.consts, false) && pd < U64
    requires At(im.code, s.pc, Emit(m, im.consts, n) + (E(PopReg1) + (Src(src, n + Sources(m)) + E(PrimCall2(pd)))))
    requires s.stack.Push? && s.stack.top.Val?
    ensures var o := Eval(P, m, s.frame, ScopeOf(s.stack), s.store, fuel);
      Goes(im, false, s0, s.(stack := s.stack.rest), t, s.pc + |Emit(m, im.consts, n) + (E(PopReg1) + (Src(src, n + Sources(m)) + E(PrimCall2(pd))))|,
           if o.Done? then Yields(Host(P.prim, pd, [s.stack.top.v, o.v]), o.st) else o, fuel)
    decreases fuel, m, 5
  {
    hide Sources, Exec, At, Reaches, Linked, E, Src, Eval, Emit, Host, Fails, Fine, ScopeOf;
    LinkedSizes(P, im, s.store.values);
    var c, n1 := Emit(m, im.consts, n), n + Sources(m);
    AtSplit(im.code, s.pc, c, E(PopReg1) + (Src(src, n1) + E(PrimCall2(pd))));
    AtSplit(im.code, s.pc + |c|, E(PopReg1), Src(src, n1) + E(PrimCall2(pd)));
    AtSplit(im.code, s.pc + |c| + |E(PopReg1)|, Src(src, n1), E(PrimCall2(pd)));
    t := RunsFrom(P, im, m, n, false, s0, s, fuel);
    if Eval(P, m, s.frame, ScopeOf(s.stack), s.store, fuel).Done? {
      t := TakesPopReg1(im, s0, t);
      t := TakesSrc(im, s0, t, src, n1);
      t := RunsHost(im, s0, t, PrimCall2(pd), pd, [t.reg1, t.val], fuel);
    }
  }

  lemma {:induction false} RunsSequence(P: Program, im: Image, m1: Icode, mp: Icode, n: nat, tail: bool, s: State, fuel: nat) returns (t: State)
    requires Pre(P, im, Sequence(m1, mp), n, tail, s)
    ensures Post(P, im, Sequence(m1, mp), n, tail, s, fuel, t)
    decreases fuel, Sequence(m1, mp), 2
  {
    hide Sources, Exec, At, Reaches, Linked, E, ScopeOf, Eval, Emit, Host, ValueOf, Supplied, Fails;
    EvalByRule(P, Sequence(m1, mp), s.frame, ScopeOf(s.stack), s.store, fuel);
    EmitByRule(Sequence(m1, mp), im.consts, n);
    AtSplit(im.code, s.pc, Emit(m1, im.consts, n), Emit(mp, im.consts, n + Sources(m1)));
    ReachesSelf(im, s);
    t := RunsFrom(P, im, m1, n, false, s, s, fuel);
    if Eval(P, m1, s.frame, ScopeOf(s.stack), s.store, fuel).Done? {
      t := RunsFrom(P, im, mp, n + Sources(m1), tail, s, t, fuel);
    }
  }

  lemma {:induction false} RunsSeries(P: Program, im: Image, m: Icode, n: nat, tail: bool, s: State, fuel: nat) returns (t: State)
    requires m.Each? || m.Begin? || m.Junction?
    requires Pre(P, im, m, n, tail, s)
    ensures Post(P, im, m, n, tail, s, fuel, t)
    decreases fuel, m, 2
  {
    hide Sources, Exec, At, Reaches, Linked, E, Quiet, ScopeOf, Eval, Emit, Host, ValueOf, Supplied, Fails;
    EvalByRule(P, m, s.frame, ScopeOf(s.stack), s.store, fuel);
    EmitByRule(m, im.consts, n);
    ReachesSelf(im, s);
    match m
    case Each(ms) => t := RunsEach(P, im, ms, n, tail, s, s, fuel);
    case Begin(_, ms) => t := RunsEach(P, im, ms, n, tail, s, s, fuel);
    case Junction(conj, last, ms) => t := RunsJunction(P, im, conj, last, ms, n, tail, s, s, fuel);
  }

  lemma {:induction false} RunsNegation(P: Program, im: Image, last: bool, m1: Icode, n: nat, tail: bool, s: State, fuel: nat) returns (t: State)
    requires Pre(P, im, Negation(last, m1), n, tail, s)
    ensures Post(P, im, Negation(last, m1), n, tail, s, fuel, t)
    decreases fuel, Negation(last, m1), 2
  {
    hide Sources, Exec, At, Reaches, Linked, E, Quiet, ScopeOf, Eval, Emit, Host, ValueOf, Supplied, Fails;
    EvalByRule(P, Negation(last, m1), s.frame, ScopeOf(s.stack), s.store, fuel);
    EmitByRule(Negation(last, m1), im.consts, n);
    AtSplit(im.code, s.pc, Quiet(!last, Emit(m1, im.consts, n)), E(Not));
    ReachesSelf(im, s);
    t := RunsQuiet(P, im, !last, m1, n, false, s, s, fuel);
    if Eval(P, m1, s.frame, ScopeOf(s.stack), s.store, fuel).Done? {
      t := TakesNot(im, s, t);
    }
  }

  /** The body runs in the new frame; unless the let is in tail position, the old frame is put back. */
  lemma {:induction false} RunsFixLet(P: Program, im: Image, last: bool, args: Args, mp: Icode, formals: Value, n: nat, tail: bool, s: State, fuel: nat)
    returns (t: State)
    requires Pre(P, im, FixLet(last, args, mp, formals), n, tail, s)
    ensures Post(P, im, FixLet(last, args, mp, formals), n, tail, s, fuel, t)
    decreases fuel, FixLet(last, args, mp, formals), 2
  {
    hide Fetch, Update, Extend, Pack, CallPrimitive, Nearest, EvalEach, EvalJunction, Apply, EvalArgs, EmitEach;
    hide EmitJunction, EmitArgs, TailArgs, SizedArgs, SourcesArgs, Sources, Exec, At, Reaches, Linked, E, ScopeOf, Fails;
    hide Keeps, Eval, Emit, Host, ValueOf, Supplied;
    EvalByRule(P, FixLet(last, args, mp, formals), s.frame, ScopeOf(s.stack), s.store, fuel);
    EmitByRule(FixLet(last, args, mp, formals), im.consts, n);
    LinkedSizes(P, im, s.store.values);
    var d := ScopeOf(s.stack);
    var n1 := n + 1 + SourcesArgs(args);
    var c1, c2 := EmitArgs(args, im.consts, n + 1), Emit(mp, im.consts, n1);
    var ins := LinkFrame(Index(im.consts, formals), n % U64);
    var end := if last then [] else E(UnlinkFrame);
    AtSplit(im.code, s.pc, c1, E(ins) + (c2 + end));
    AtSplit(im.code, s.pc + |c1|, E(ins), c2 + end);
    AtSplit(im.code, s.pc + |c1| + |E(ins)|, c2, end);
    ReachesSelf(im, s);
    var o := EvalArgs(P, args, s.frame, d, s.store, fuel);
    t := RunsArgs(P, im, args, n + 1, s, s, fuel);
    if o.Built? && LinkTo(o.st, FrameRef(o.a), s.frame).None? {
      RefusesLink(im, s, t, ins, fuel);
    } else if o.Built? {
      var u := TakesLink(im, s, t, Index(im.consts, formals), n % U64);
      var q := Eval(P, mp, Frm(o.a), d, u.store, fuel);
      assert EvalIn(P, mp, o.a, s.frame, d, o.st, fuel) == q;
      t := RunsFrom(P, im, mp, n1, last, s, u, fuel);
      if !last && q.Done? {
        EvalKeeps(P, mp, Frm(o.a), d, u.store, fuel);
        FrameKept(P, u.store, t.store, o.a);
        t := TakesUnlink(im, s, t);
      }
    }
  }

  lemma FrameKept(P: Program, st: Store, after: Store, a: nat)
    requires Keeps(P, st, after) && a < |st.frames|
    ensures a < |after.frames| && after.frames[a].next == st.frames[a].next
  {
  }

  lemma RefusesExtend(im: Image, s0: State, s: State, size: nat, fci: nat, fuel: nat)
    requires Reaches(im, s0, s) && At(im.code, s.pc, E(ExtendFrame(size, fci))) && size < U64 && fci < U64
    requires Extend(s.store, s.frame, size).None?
    ensures Fails(im, s0, Fault, fuel)
  {
    hide At, Reaches, E, Fails, Extend;
    FailsAt(im, s0, s, ExtendFrame(size, fci), fuel);
  }

  /** A local's slot is made and set. */
  lemma RunsSlot(im: Image, s0: State, s: State, src: bool, n: nat, size: nat, fci: nat, j: nat, fuel: nat) returns (t: State)
    requires Reaches(im, s0, s) && size < U64 && fci < U64 && j < U64
    requires At(im.code, s.pc, Src(src, n)) && At(im.code, s.pc + |Src(src, n)|, E(ExtendFrame(size, fci)) + E(ShallowSet(j)))
    ensures Goes(im, false, s0, s, t, s.pc + |Src(src, n)| + |E(ExtendFrame(size, fci)) + E(ShallowSet(j))|,
      Slotted(s.store, s.frame, size, j, s.val), fuel)
  {
    hide At, Reaches, E, Src, Extend, Update, Exec, Fails;
    AtSplit(im.code, s.pc + |Src(src, n)|, E(ExtendFrame(size, fci)), E(ShallowSet(j)));
    t := TakesSrc(im, s0, s, src, n);
    if Extend(s.store, s.frame, size).None? {
      RefusesExtend(im, s0, t, size, fci, fuel);
    } else {
      t := TakesExtend(im, s0, t, size, fci);
      t := RunsUpdate(im, s0, t, 0, j, ShallowSet(j), fuel);
    }
  }

  lemma {:induction false} RunsLocal(P: Program, im: Image, src: bool, j: nat, m1: Icode, mp: Icode, size: nat, formals: Value, n: nat, tail: bool, s: State, fuel: nat)
    returns (t: State)
    requires Pre(P, im, Local(src, j, m1, mp, size, formals), n, tail, s)
    ensures Post(P, im, Local(src, j, m1, mp, size, formals), n, tail, s, fuel, t)
    decreases fuel, Local(src, j, m1, mp, size, formals), 2
  {
    hide Fetch, Pack, LinkTo, CallPrimitive, Nearest, EvalArgs, Apply, EmitArgs, Sources, Exec, At, Reaches, Linked, Fails;
    hide E, ScopeOf, Src, Extend, Update, Eval, Emit, Host, ValueOf, Supplied;
    EvalByRule(P, Local(src, j, m1, mp, size, formals), s.frame, ScopeOf(s.stack), s.store, fuel);
    EmitByRule(Local(src, j, m1, mp, size, formals), im.consts, n);
    LinkedSizes(P, im, s.store.values);
    var n1 := n + Sources(m1);
    var n2 := n1 + Count(src);
    var c1, c2 := Emit(m1, im.consts, n), Emit(mp, im.consts, n2);
    var ext, set1 := ExtendFrame(size, Index(im.consts, formals)), ShallowSet(j);
    var p1 := s.pc + |c1|;
    var p2 := p1 + |Src(src, n1)|;
    AtSplit(im.code, s.pc, c1, Src(src, n1) + (E(ext) + (E(set1) + c2)));
    AtSplit(im.code, p1, Src(src, n1), E(ext) + (E(set1) + c2));
    assert E(ext) + (E(set1) + c2) == E(ext) + E(set1) + c2;
    AtSplit(im.code, p2, E(ext) + E(set1), c2);
    ReachesSelf(im, s);
    var o := Eval(P, m1, s.frame, ScopeOf(s.stack), s.store, fuel);
    t := RunsFrom(P, im, m1, n, false, s, s, fuel);
    if o.Done? {
      t := RunsSlot(im, s, t, src, n1, size, Index(im.consts, formals), j, fuel);
      var s2 := Extend(o.st, s.frame, size);
      if s2.Some? && Update(s2.value, s.frame, 0, j, o.v).Some? {
        t := RunsFrom(P, im, mp, n2, tail, s, t, fuel);
      }
    }
  }

  lemma {:induction false} RunsScopedLet(P: Program, im: Image, environ: bool, si: nat, m1: Icode, mp: Icode, n: nat, tail: bool, s: State, fuel: nat)
    returns (t: State)
    requires Pre(P, im, ScopedLet(environ, si, m1, mp), n, tail, s)
    ensures Post(P, im, ScopedLet(environ, si, m1, mp), n, tail, s, fuel, t)
    decreases fuel, ScopedLet(environ, si, m1, mp), 2
  {
    hide Fetch, Update, Extend, Pack, LinkTo, CallPrimitive, Nearest, Index, Sources, Exec, At, Reaches, Linked, E, Fails;
    hide Eval, Emit, Host, ValueOf, Supplied;
    EvalByRule(P, ScopedLet(environ, si, m1, mp), s.frame, ScopeOf(s.stack), s.store, fuel);
    EmitByRule(ScopedLet(environ, si, m1, mp), im.consts, n);
    var kind := if environ then Environ else Dynamic;
    var n1 := n + Sources(m1);
    var c1, c2 := Emit(m1, im.consts, n), Emit(mp, im.consts, n1);
    var push, pop := PushBinding(kind, si), PopBinding(kind);
    AtSplit(im.code, s.pc, c1, E(push) + (c2 + E(pop)));
    AtSplit(im.code, s.pc + |c1|, E(push), c2 + E(pop));
    AtSplit(im.code, s.pc + |c1| + |E(push)|, c2, E(pop));
    ReachesSelf(im, s);
    t := RunsFrom(P, im, m1, n, false, s, s, fuel);
    if Eval(P, m1, s.frame, ScopeOf(s.stack), s.store, fuel).Done? {
      var u := TakesBind(im, s, t, kind, si);
      t := RunsFrom(P, im, mp, n1, false, s, u, fuel);
      if Eval(P, mp, u.frame, ScopeOf(u.stack), u.store, fuel).Done? {
        t := TakesUnbind(im, s, t, kind);
      }
    }
  }

  /** The stack with one trap for each condition on top. */
  function Trapped(stack: Stack, sis: seq<nat>, v: Value): (r: Stack)
    decreases |sis|
  {
    if sis == [] then stack else Trapped(Push(Bound(Trap, sis[0], v), stack), sis[1..], v)
  }

  lemma {:induction false} TakesPushTraps(im: Image, s0: State, s: State, sis: seq<nat>) returns (t: State)
    requires Reaches(im, s0, s) && At(im.code, s.pc, PushTraps(sis))
    requires forall k :: 0 <= k < |sis| ==> sis[k] < 65536
    requires sis != [] ==> s.val.Closure? || s.val.Primitive?
    ensures Reaches(im, s0, t)
    ensures t == s.(pc := s.pc + |PushTraps(sis)|, stack := Trapped(s.stack, sis, s.val))
    ensures ScopeOf(t.stack) == ScopeOf(s.stack)
    decreases |sis|
  {
    hide Sources, Exec, At, Reaches, E, Fails;
    if sis == [] {
      t := s;
    } else {
      AtSplit(im.code, s.pc, E(PushBinding(Trap, sis[0])), PushTraps(sis[1..]));
      var u := TakesBind(im, s0, s, Trap, sis[0]);
      t := TakesPushTraps(im, s0, u, sis[1..]);
    }
  }

  lemma RefusesTrap(im: Image, s0: State, s: State, sis: seq<nat>, fuel: nat)
    requires Reaches(im, s0, s) && At(im.code, s.pc, PushTraps(sis)) && sis != [] && sis[0] < 65536
    requires !s.val.Closure? && !s.val.Primitive?
    ensures Fails(im, s0, Fault, fuel)
  {
    hide At, Reaches, E, Fails;
    AtSplit(im.code, s.pc, E(PushBinding(Trap, sis[0])), PushTraps(sis[1..]));
    FailsAt(im, s0, s, PushBinding(Trap, sis[0]), fuel);
  }

  /** As many traps come off as went on. */
  lemma {:induction false} TakesPopTraps(im: Image, s0: State, s: State, sis: seq<nat>, stack: Stack, v: Value) returns (t: State)
    requires Reaches(im, s0, s) && At(im.code, s.pc, PopTraps(sis)) && s.stack == Trapped(stack, sis, v)
    ensures Reaches(im, s0, t) && t == s.(pc := s.pc + |PopTraps(sis)|, stack := stack)
    decreases |sis|
  {
    hide Sources, Exec, At, Reaches, E, Fails;
    if sis == [] {
      t := s;
    } else {
      var k := |sis| - 1;
      TrappedLast(stack, sis, v);
      PopTrapsLength(sis, sis[..k]);
      AtSplit(im.code, s.pc, E(PopBinding(Trap)), PopTraps(sis[1..]));
      var u := TakesUnbind(im, s0, s, Trap);
      t := TakesPopTraps(im, s0, u, sis[..k], stack, v);
    }
  }

  lemma {:induction false} TrappedLast(stack: Stack, sis: seq<nat>, v: Value)
    requires sis != []
    ensures Trapped(stack, sis, v) == Push(Bound(Trap, sis[|sis| - 1], v), Trapped(stack, sis[..|sis| - 1], v))
    decreases |sis|
  {
    if |sis| > 1 {
      TrappedLast(Push(Bound(Trap, sis[0], v), stack), sis[1..], v);
      assert sis[1..][..|sis| - 2] == sis[..|sis| - 1][1..];
    }
  }

  /** The pops do not depend on which conditions were trapped. */
  lemma {:induction false} PopTrapsLength(sis: seq<nat>, fewer: seq<nat>)
    requires |sis| == |fewer| + 1
    ensures PopTraps(sis[1..]) == PopTraps(fewer)
    decreases |sis|
  {
    if fewer != [] {
      PopTrapsLength(sis[1..], fewer[1..]);
    }
  }

  lemma {:induction false} RunsTrapping(P: Program, im: Image, sis: seq<nat>, m1: Icode, mp: Icode, n: nat, tail: bool, s: State, fuel: nat)
    returns (t: State)
    requires Pre(P, im, Trapping(sis, m1, mp), n, tail, s)
    ensures Post(P, im, Trapping(sis, m1, mp), n, tail, s, fuel, t)
    decreases fuel, Trapping(sis, m1, mp), 2
  {
    hide Sources, Exec, At, Reaches, Linked, E, PushTraps, PopTraps, ScopeOf, Trapped, Eval, Emit, Host, ValueOf, Fails;
    hide Supplied;
    EvalByRule(P, Trapping(sis, m1, mp), s.frame, ScopeOf(s.stack), s.store, fuel);
    EmitByRule(Trapping(sis, m1, mp), im.consts, n);
    var n1 := n + Sources(m1);
    var c1, c2 := Emit(m1, im.consts, n), Emit(mp, im.consts, n1);
    AtSplit(im.code, s.pc, c1, PushTraps(sis) + (c2 + PopTraps(sis)));
    AtSplit(im.code, s.pc + |c1|, PushTraps(sis), c2 + PopTraps(sis));
    AtSplit(im.code, s.pc + |c1| + |PushTraps(sis)|, c2, PopTraps(sis));
    ReachesSelf(im, s);
    var u := RunsFrom(P, im, m1, n, false, s, s, fuel);
    t := u;
    var o := Eval(P, m1, s.frame, ScopeOf(s.stack), s.store, fuel);
    if o.Done? && sis != [] && !o.v.Closure? && !o.v.Primitive? {
      RefusesTrap(im, s, u, sis, fuel);
    } else if o.Done? {
      t := TakesPushTraps(im, s, u, sis);
      t := RunsFrom(P, im, mp, n1, false, s, t, fuel);
      if Eval(P, mp, s.frame, ScopeOf(s.stack), o.st, fuel).Done? {
        t := TakesPopTraps(im, s, t, sis, s.stack, u.val);
      }
    }
  }

  // Calls

  /** The arity check lets through exactly the frames the function accepts. */
  lemma RunsArity(im: Image, s0: State, s: State, fun: Icode, fuel: nat) returns (t: State)
    requires fun.Abstraction? && fun.arity + 1 < U64
    requires Reaches(im, s0, s) && At(im.code, s.pc, EmitArity(fun))
    requires s.val.FrameRef?
    ensures match Accept(fun, s.val.a, s.store)
      case None => Fails(im, s0, Fault, fuel)
      case Some(st) => Reaches(im, s0, t) && t == s.(pc := s.pc + |EmitArity(fun)|, store := st)
  {
    hide Sources, At, Reaches, E, Pack, Fails;
    t := s;
    var check := if fun.nary then ArityGe(fun.arity + 1) else ArityEq(fun.arity + 1);
    if fun.nary {
      AtSplit(im.code, s.pc, E(check), E(PackFrame(fun.arity)));
    }
    if Exec(im, check, s.(pc := s.pc + |E(check)|)).None? {
      FailsAt(im, s0, s, check, fuel);
    } else {
      t := Takes(im, s0, s, check);
      if fun.nary && Pack(s.store, s.val, fun.arity).None? {
        FailsAt(im, s0, t, PackFrame(fun.arity), fuel);
      } else if fun.nary {
        t := Takes(im, s0, t, PackFrame(fun.arity));
      }
    }
  }

  lemma PlacedAt(P: Program, im: Image, values: map<nat, Value>, entry: nat) returns (n: nat)
    requires Linked(P, im, values) && entry in P.funs
    ensures Placed(im, entry, P.funs[entry], n)
  {
    n :| Placed(im, entry, P.funs[entry], n);
  }

  /** A function entered with its arguments runs to its return address, however it leaves. */
  lemma {:induction false} RunsFunction(P: Program, im: Image, env: Link, a: nat, s0: State, s: State, fuel: nat) returns (t: State)
    requires Reaches(im, s0, s) && Linked(P, im, s.store.values)
    requires s.frame == env && s.val == FrameRef(a) && Returnable(true, s)
    requires s.pc in P.funs
    ensures var o := Apply(P, Closure(s.pc, env), a, ScopeOf(s.stack), s.store, fuel);
      if o.Done? then Reaches(im, s0, t) && Leaves(s, t) && t.val == o.v && t.store == o.st else Fails(im, s0, o.why, fuel)
    decreases fuel, P.funs, 2
  {
    hide Sources, Exec, At, Reaches, Linked, E, EmitArity, ScopeOf, Eval, Emit, Accept, Fails;
    LinkedSizes(P, im, s.store.values);
    var fun := P.funs[s.pc];
    var n := PlacedAt(P, im, s.store.values, s.pc);
    AtSplit(im.code, s.pc, EmitArity(fun), E(LinkFrame(Index(im.consts, fun.formals), n % U64)) + (Emit(fun.mp, im.consts, n + 1) + E(Return)));
    ReachesSelf(im, s);
    t := RunsArity(im, s, s, fun, fuel);
    if Accept(fun, a, s.store).None? {
      FailsFrom(im, s0, s, Fault, fuel);
    } else if fuel == 0 {
      NoSteps(im, s0);
    } else {
      AcceptValues(fun, a, s.store);
      t := RunsBody(P, im, fun, n, a, s0, s, t, fuel - 1);
    }
  }

  /** The body of a function, once its frame has been accepted. */
  lemma {:induction false} RunsBody(P: Program, im: Image, fun: Icode, n: nat, a: nat, s0: State, s: State, s1: State, fuel: nat) returns (t: State)
    requires Reaches(im, s0, s) && Reaches(im, s, s1) && s.pc <= s1.pc && Linked(P, im, s1.store.values)
    requires fun.Abstraction? && Fine(fun.mp, im.consts, true) && Returnable(true, s1) && s1.val == FrameRef(a)
    requires At(im.code, s1.pc, E(LinkFrame(Index(im.consts, fun.formals), n % U64)) + (Emit(fun.mp, im.consts, n + 1) + E(Return)))
    ensures var o := EvalIn(P, fun.mp, a, s1.frame, ScopeOf(s1.stack), s1.store, fuel);
      if o.Done? then Reaches(im, s0, t) && Leaves(s1, t) && t.val == o.v && t.store == o.st else Fails(im, s0, o.why, fuel + 1)
    decreases fuel, fun.mp, 6
  {
    hide Sources, Exec, At, Reaches, Linked, E, ScopeOf, Eval, Emit, Fails, LinkTo, Fine;
    LinkedSizes(P, im, s1.store.values);
    var c := Emit(fun.mp, im.consts, n + 1);
    var ins := LinkFrame(Index(im.consts, fun.formals), n % U64);
    AtSplit(im.code, s1.pc, E(ins), c + E(Return));
    AtSplit(im.code, s1.pc + |E(ins)|, c, E(Return));
    t := s1;
    if LinkTo(s1.store, FrameRef(a), s1.frame).None? {
      RefusesLink(im, s, s1, ins, fuel + 1);
      FailsFrom(im, s0, s, Fault, fuel + 1);
    } else {
      var u := TakesLink(im, s, s1, Index(im.consts, fun.formals), n % U64);
      ReachesSelf(im, u);
      t := RunsFrom(P, im, fun.mp, n + 1, true, u, u, fuel);
      var o := Eval(P, fun.mp, u.frame, ScopeOf(u.stack), u.store, fuel);
      if o.Stuck? {
        FailsLater(im, s0, s, u, o.why, fuel);
      } else {
        ReachesThen(im, s0, s, u);
        ReachesThen(im, s0, u, t);
        if Falls(true, u, t, u.pc + |c|) {
          t := TakesReturn(im, s0, t);
        }
      }
    }
  }

  lemma RefusesLink(im: Image, s0: State, s: State, ins: Instr, fuel: nat)
    requires Reaches(im, s0, s) && ins.LinkFrame? && Fits(ins) && At(im.code, s.pc, E(ins)) && LinkTo(s.store, s.val, s.frame).None?
    ensures Fails(im, s0, Fault, fuel)
  {
    hide At, Reaches, E, Fails, LinkTo;
    FailsAt(im, s0, s, ins, fuel);
  }

  lemma NoSteps(im: Image, s: State)
    ensures Fails(im, s, Deep, 0)
  {
    hide Step;
  }

  lemma AcceptValues(fun: Icode, a: nat, st: Store)
    requires fun.Abstraction? && Accept(fun, a, st).Some?
    ensures Accept(fun, a, st).value.values == st.values
  {
    hide Pack;
  }

  /** After the function and its frame: a regular call comes back, a tail call leaves. */
  lemma {:induction false} RunsApply(P: Program, im: Image, last: bool, v: Value, a: nat, s0: State, s: State, fuel: nat) returns (t: State)
    requires Reaches(im, s0, s) && Linked(P, im, s.store.values) && At(im.code, s.pc, EmitCall(last))
    requires s.stack.Push? && s.stack.top == Val(v) && s.val == FrameRef(a) && Returnable(last, s.(stack := s.stack.rest))
    ensures Goes(im, last, s0, s.(stack := s.stack.rest), t, s.pc + |EmitCall(last)|, Apply(P, v, a, ScopeOf(s.stack), s.store, fuel), fuel)
    decreases fuel, P.funs, 4
  {
    hide Sources, Exec, At, Reaches, Linked, E, Apply, Fails;
    LinkedSizes(P, im, s.store.values);
    var ins, after := if last then FunctionGoto else FunctionInvoke, if last then [] else E(RestoreState);
    if last {
      assert EmitCall(last) == E(PopFunction) + (E(ins) + after);
      AtSplit(im.code, s.pc, E(PopFunction), E(ins) + after);
      t := TakesPopFunction(im, s0, s);
    } else {
      AtSplit(im.code, s.pc, E(PopFunction), E(PreserveState) + (E(ins) + after));
      AtSplit(im.code, s.pc + |E(PopFunction)|, E(PreserveState), E(ins) + after);
      t := TakesPopFunction(im, s0, s);
      t := TakesPreserve(im, s0, t);
    }
    AtSplit(im.code, t.pc, E(ins), after);
    t := RunsInvoke(P, im, last, a, s0, t, fuel);
    if !last && Apply(P, v, a, ScopeOf(s.stack), s.store, fuel).Done? {
      t := TakesRestore(im, s0, t);
    }
  }

  /** The function in the function register applied to the frame in the value register. */
  lemma {:induction false} RunsInvoke(P: Program, im: Image, last: bool, a: nat, s0: State, s: State, fuel: nat) returns (t: State)
    requires Reaches(im, s0, s) && Linked(P, im, s.store.values) && s.val == FrameRef(a) && Returnable(last, s)
    requires At(im.code, s.pc, E(if last then FunctionGoto else FunctionInvoke))
    ensures var ins := if last then FunctionGoto else FunctionInvoke;
      Goes(im, true, s0, s, t, s.pc + |E(ins)|, Apply(P, s.func, a, ScopeOf(s.stack), s.store, fuel), fuel)
    decreases fuel, P.funs, 3
  {
    hide Sources, Exec, At, Reaches, Linked, E, EvalIn, Accept, CallPrimitive, Fails;
    LinkedSizes(P, im, s.store.values);
    var ins := if last then FunctionGoto else FunctionInvoke;
    t := s;
    if s.func.Closure? {
      if s.func.entry in P.funs {
        if last {
          t := TakesTailCall(im, s0, s);
        } else {
          t := TakesInvoke(im, s0, s);
        }
        t := RunsFunction(P, im, s.func.env, a, s0, t, fuel);
      } else {
        FailsAnyhow(im, s0, fuel);
      }
    } else if s.func.Primitive? && CallPrimitive(im.prim, s.store, s.func.p, s.val).Some? {
      t := TakesPrimitiveCall(im, s0, s, ins);
    } else {
      RefusesCall(im, s0, s, ins, fuel);
    }
  }

  lemma RefusesCall(im: Image, s0: State, s: State, ins: Instr, fuel: nat)
    requires Reaches(im, s0, s) && At(im.code, s.pc, E(ins)) && (ins == FunctionInvoke || ins == FunctionGoto) && !s.func.Closure?
    requires s.func.Primitive? ==> CallPrimitive(im.prim, s.store, s.func.p, s.val).None?
    ensures Fails(im, s0, Fault, fuel)
  {
    hide At, Reaches, E, Fails, CallPrimitive;
    FailsAt(im, s0, s, ins, fuel);
  }

  /** The call itself, a step or more after the start of the fragment. */
  lemma {:induction false} RunsLater(P: Program, im: Image, last: bool, v: Value, a: nat, s0: State, s: State, fuel: nat) returns (t: State)
    requires Reaches(im, s0, s) && s0.pc != s.pc && Linked(P, im, s.store.values) && At(im.code, s.pc, EmitCall(last))
    requires s.stack.Push? && s.stack.top == Val(v) && s.val == FrameRef(a) && Returnable(last, s.(stack := s.stack.rest))
    ensures Goes(im, last, s0, s.(stack := s.stack.rest), t, s.pc + |EmitCall(last)|, Apply(P, v, a, ScopeOf(s.stack), s.store, fuel), fuel + 1)
    decreases fuel, P.funs, 5
  {
    hide Sources, At, Reaches, Linked, EmitCall, Apply, Fails, ScopeOf;
    ReachesSelf(im, s0);
    ReachesSelf(im, s);
    t := RunsApply(P, im, last, v, a, s, s, fuel);
    var o := Apply(P, v, a, ScopeOf(s.stack), s.store, fuel);
    if o.Done? {
      ReachesThen(im, s0, s, t);
    } else {
      FailsLater(im, s0, s0, s, o.why, fuel);
    }
  }

  lemma {:induction false} RunsCall(P: Program, im: Image, last: bool, src: bool, m1: Icode, args: Args, n: nat, tail: bool, s: State, fuel: nat)
    returns (t: State)
    requires Pre(P, im, Call(last, src, m1, args), n, tail, s)
    ensures Post(P, im, Call(last, src, m1, args), n, tail, s, fuel, t)
    decreases fuel, Call(last, src, m1, args), 2
  {
    hide Fetch, Update, Extend, Pack, LinkTo, CallPrimitive, Nearest, EvalArgs, EmitArgs, Sources, Exec, At, Reaches, Fails;
    hide Linked, E, EmitCall, Src, Apply, Eval, Emit, Host, ValueOf, Supplied;
    EvalByRule(P, Call(last, src, m1, args), s.frame, ScopeOf(s.stack), s.store, fuel);
    EmitByRule(Call(last, src, m1, args), im.consts, n);
    LinkedSizes(P, im, s.store.values);
    var n1 := n + Sources(m1);
    var n2 := n1 + SourcesArgs(args);
    var c1, c2, c3 := Emit(m1, im.consts, n), EmitArgs(args, im.consts, n1), EmitCall(last);
    var p1 := s.pc + |c1| + |E(PushValue)|;
    AtSplit(im.code, s.pc, c1, E(PushValue) + (c2 + (Src(src, n2) + c3)));
    AtSplit(im.code, s.pc + |c1|, E(PushValue), c2 + (Src(src, n2) + c3));
    AtSplit(im.code, p1, c2, Src(src, n2) + c3);
    AtSplit(im.code, p1 + |c2|, Src(src, n2), c3);
    ReachesSelf(im, s);
    var o := Eval(P, m1, s.frame, ScopeOf(s.stack), s.store, fuel);
    t := RunsFrom(P, im, m1, n, false, s, s, fuel);
    if o.Done? {
      t := TakesPushValue(im, s, t);
      t := RunsArgs(P, im, args, n1, s, t, fuel);
      if EvalArgs(P, args, s.frame, ScopeOf(s.stack), o.st, fuel).Built? {
        var u := TakesSrc(im, s, t, src, n2);
        if fuel == 0 {
          NoSteps(im, s);
        } else {
          t := RunsLater(P, im, last, o.v, t.val.a, s, u, fuel - 1);
        }
      }
    }
  }

  /**
    Code generation is correct: the bytes of a fragment, inside any surrounding code, run exactly to the
    fragment's end with the value the fragment has, whichever short or long jumps were chosen; stack,
    suppression and frame are as before.  A tail call instead returns to the address on the stack.  A fragment that
    faults halts the machine, and one that needs more calls than fuel allows takes at least as many steps.
   */
  lemma {:induction false} Runs(P: Program, im: Image, m: Icode, n: nat, tail: bool, s: State, fuel: nat) returns (t: State)
    requires Pre(P, im, m, n, tail, s)
    ensures Post(P, im, m, n, tail, s, fuel, t)
    decreases fuel, m, 3
  {
    hide *;
    match m
    case ConstantOf(_) => t := RunsLeaf(P, im, m, n, tail, s, fuel);
    case ShallowArgumentRef(_) => t := RunsLeaf(P, im, m, n, tail, s, fuel);
    case DeepArgumentRef(_, _) => t := RunsLeaf(P, im, m, n, tail, s, fuel);
    case SymbolRef(_, _) => t := RunsLeaf(P, im, m, n, tail, s, fuel);
    case Abstraction(_, _, _, _, _, _, _) => t := RunsAbstraction(P, im, m, n, tail, s, fuel);
    case ScopedRef(_, _) => t := RunsScopedRef(P, im, m, n, tail, s, fuel);
    case ShallowArgumentSet(_, _) => t := RunsAssignment(P, im, m, n, tail, s, fuel);
    case DeepArgumentSet(_, _, _) => t := RunsAssignment(P, im, m, n, tail, s, fuel);
    case SymbolSet(_, _, _) => t := RunsSourced(P, im, m, n, tail, s, fuel);
    case Primitive1(_, _, _) => t := RunsSourced(P, im, m, n, tail, s, fuel);
    case Alternative(src, m1, m2, m3) => t := RunsAlternative(P, im, src, m1, m2, m3, n, tail, s, fuel);
    case Sequence(m1, mp) => t := RunsSequence(P, im, m1, mp, n, tail, s, fuel);
    case Each(_) => t := RunsSeries(P, im, m, n, tail, s, fuel);
    case Begin(_, _) => t := RunsSeries(P, im, m, n, tail, s, fuel);
    case Junction(_, _, _) => t := RunsSeries(P, im, m, n, tail, s, fuel);
    case Negation(last, m1) => t := RunsNegation(P, im, last, m1, n, tail, s, fuel);
    case FixLet(last, args, mp, formals) => t := RunsFixLet(P, im, last, args, mp, formals, n, tail, s, fuel);
    case Local(src, j, m1, mp, size, formals) => t := RunsLocal(P, im, src, j, m1, mp, size, formals, n, tail, s, fuel);
    case Primitive0(src, pd) => t := RunsPrimitive0(P, im, src, pd, n, tail, s, fuel);
    case Primitive2(src, m1, m2, pd) => t := RunsPrimitive2(P, im, src, m1, m2, pd, n, tail, s, fuel);
    case Call(last, src, m1, args) => t := RunsCall(P, im, last, src, m1, args, n, tail, s, fuel);
    case ScopedLet(environ, si, m1, mp) => t := RunsScopedLet(P, im, environ, si, m1, mp, n, tail, s, fuel);
    case Trapping(sis, m1, mp) => t := RunsTrapping(P, im, sis, m1, mp, n, tail, s, fuel);
  }

  lemma AtInside(code: seq<byte>, pc: nat, bytes: seq<byte>)
    requires At(code, pc, bytes)
    ensures pc + |bytes| <= |code|
  {
  }
}
