/**
  Code that stays in its program: where every function value at hand is one of the program's, and no code assigns a
  function's own number, no run calls a function from elsewhere.
 */
module Staying {

  import opened Machine
  import opened Icode
  import opened Meaning

  // Values

  /** Every function in the value is one of the program's. */
  predicate Own(P: Program, v: Value) {
    match v
    case Closure(entry, _) => entry in P.funs && P.funs[entry].Abstraction?
    case Pair(head, tail) => Own(P, head) && Own(P, tail)
    case _ => true
  }

  predicate OwnAll(P: Program, vs: seq<Value>) {
    forall i :: 0 <= i < |vs| ==> Own(P, vs[i])
  }

  ghost predicate OwnStore(P: Program, st: Store) {
    && (forall a :: 0 <= a < |st.frames| ==> OwnAll(P, st.frames[a].args))
    && (forall si :: si in st.values ==> Own(P, st.values[si]))
  }

  predicate OwnScope(P: Program, d: Scope) {
    match d
    case NoScope => true
    case Bind(_, _, v, rest) => Own(P, v) && OwnScope(P, rest)
  }

  // Code

  predicate Stays(P: Program, m: Icode) {
    match m
    case ConstantOf(c) => Own(P, c)
    case SymbolSet(_, si, m1) => si !in P.labels && Stays(P, m1)
    case Abstraction(_, _, _, _, _, _, vi) => vi in P.labels && P.labels[vi] in P.funs && P.funs[P.labels[vi]].Abstraction?
    case ShallowArgumentSet(_, m1) => Stays(P, m1)
    case DeepArgumentSet(_, _, m1) => Stays(P, m1)
    case Alternative(_, m1, m2, m3) => Stays(P, m1) && Stays(P, m2) && Stays(P, m3)
    case Sequence(m1, mp) => Stays(P, m1) && Stays(P, mp)
    case Each(ms) => StaysEach(P, ms)
    case Begin(_, ms) => StaysEach(P, ms)
    case Junction(_, _, ms) => StaysEach(P, ms)
    case Negation(_, m1) => Stays(P, m1)
    case FixLet(_, args, mp, _) => StaysArgs(P, args) && Stays(P, mp)
    case Local(_, _, m1, mp, _, _) => Stays(P, m1) && Stays(P, mp)
    case Primitive1(_, m1, _) => Stays(P, m1)
    case Primitive2(_, m1, m2, _) => Stays(P, m1) && Stays(P, m2)
    case Call(_, _, m1, args) => Stays(P, m1) && StaysArgs(P, args)
    case ScopedLet(_, _, m1, mp) => Stays(P, m1) && Stays(P, mp)
    case Trapping(_, m1, mp) => Stays(P, m1) && Stays(P, mp)
    case _ => true
  }

  predicate StaysEach(P: Program, ms: Codes) {
    Stays(P, ms.head) && (ms.More? ==> StaysEach(P, ms.rest))
  }

  predicate StaysArgs(P: Program, args: Args) {
    !args.AllocFrame? ==> Stays(P, args.m1) && StaysArgs(P, args.rest)
  }

  /** The bodies stay in the program, and the host makes no function values of its own. */
  ghost predicate Settled(P: Program) {
    && (forall entry :: entry in P.funs && P.funs[entry].Abstraction? ==> Stays(P, P.funs[entry].mp))
    && (forall p, vs {:trigger P.prim(p, vs)} :: OwnAll(P, vs) && P.prim(p, vs).Some? ==> Own(P, P.prim(p, vs).value))
  }

  /** The code did not leave the program and left nothing from elsewhere behind. */
  ghost predicate Stayed(P: Program, o: Outcome) {
    match o
    case Done(v, st) => Own(P, v) && OwnStore(P, st)
    case Stuck(why) => why != Foreign
  }

  ghost predicate StayedFramed(P: Program, o: Framed) {
    match o
    case Built(_, st) => OwnStore(P, st)
    case NotBuilt(why) => why != Foreign
  }

  // Steps

  lemma OwnFetch(P: Program, st: Store, f: Link, d: nat, j: nat)
    requires OwnStore(P, st) && Fetch(st.frames, f, d, j).Some?
    ensures Own(P, Fetch(st.frames, f, d, j).value)
  {
    hide Own, Up;
  }

  lemma OwnUpdate(P: Program, st: Store, f: Link, d: nat, j: nat, v: Value)
    requires OwnStore(P, st) && Own(P, v) && Update(st, f, d, j, v).Some?
    ensures OwnStore(P, Update(st, f, d, j, v).value)
  {
    hide Own, Up;
  }

  lemma OwnExtend(P: Program, st: Store, f: Link, size: nat)
    requires OwnStore(P, st) && Extend(st, f, size).Some?
    ensures OwnStore(P, Extend(st, f, size).value)
  {
  }

  lemma OwnLink(P: Program, st: Store, v: Value, f: Link)
    requires OwnStore(P, st) && LinkTo(st, v, f).Some?
    ensures OwnStore(P, LinkTo(st, v, f).value)
  {
    hide Own;
  }

  lemma OwnNewFrame(P: Program, st: Store, size: nat)
    requires OwnStore(P, st) && size >= 1
    ensures OwnStore(P, st.(frames := st.frames + [NewFrame(size)]))
  {
    var fr := NewFrame(size);
    assert OwnAll(P, fr.args);
  }

  lemma {:induction false} OwnList(P: Program, vs: seq<Value>)
    requires OwnAll(P, vs)
    ensures Own(P, ListOf(vs))
    decreases |vs|
  {
    if vs != [] {
      OwnList(P, vs[1..]);
    }
  }

  lemma OwnAccept(P: Program, fun: Icode, a: nat, st: Store)
    requires fun.Abstraction? && OwnStore(P, st) && Accept(fun, a, st).Some?
    ensures OwnStore(P, Accept(fun, a, st).value)
  {
    hide Own, ListOf;
    if fun.nary {
      var fr := st.frames[a];
      OwnList(P, fr.args[fun.arity..fr.nparams]);
    }
  }

  lemma {:induction false} OwnLookup(P: Program, d: Scope, environ: bool, si: nat)
    requires OwnScope(P, d) && Lookup(d, environ, si).Some?
    ensures Own(P, Lookup(d, environ, si).value)
  {
    hide Own;
    if !(d.environ == environ && d.si == si) {
      OwnLookup(P, d.rest, environ, si);
    }
  }

  lemma OwnHost(P: Program, pd: nat, vs: seq<Value>)
    requires Settled(P) && OwnAll(P, vs) && Host(P.prim, pd, vs).Some?
    ensures Own(P, Host(P.prim, pd, vs).value)
  {
    hide Own, OwnAll, Stays;
  }

  lemma StayedHost(P: Program, pd: nat, vs: seq<Value>, st: Store)
    requires Settled(P) && OwnAll(P, vs) && OwnStore(P, st)
    ensures Stayed(P, Yields(Host(P.prim, pd, vs), st))
  {
    hide Own, OwnAll, OwnStore, Settled, Host;
    if Host(P.prim, pd, vs).Some? {
      OwnHost(P, pd, vs);
    }
  }

  lemma StayedFetch(P: Program, f: Link, d: nat, j: nat, st: Store)
    requires OwnStore(P, st)
    ensures Stayed(P, Yields(Fetch(st.frames, f, d, j), st))
  {
    hide Own, OwnStore, Fetch;
    if Fetch(st.frames, f, d, j).Some? {
      OwnFetch(P, st, f, d, j);
    }
  }

  lemma StayedUpdate(P: Program, f: Link, d: nat, j: nat, v: Value, st: Store)
    requires OwnStore(P, st) && Own(P, v)
    ensures Stayed(P, Changes(v, Update(st, f, d, j, v)))
  {
    hide Own, OwnStore, Update;
    if Update(st, f, d, j, v).Some? {
      OwnUpdate(P, st, f, d, j, v);
    }
  }

  lemma StayedValue(P: Program, si: nat, st: Store)
    requires OwnStore(P, st)
    ensures Stayed(P, Yields(ValueOf(st.values, si), st))
  {
    hide Own, OwnAll;
  }

  lemma OwnAssigned(P: Program, st: Store, si: nat, v: Value)
    requires OwnStore(P, st) && Own(P, v)
    ensures OwnStore(P, st.(values := st.values[si := v]))
  {
    hide Own, OwnAll;
  }

  lemma OwnOne(P: Program, v: Value)
    requires Own(P, v)
    ensures OwnAll(P, [v])
  {
    hide Own;
  }

  lemma OwnTwo(P: Program, v: Value, w: Value)
    requires Own(P, v) && Own(P, w)
    ensures OwnAll(P, [v, w])
  {
    hide Own;
  }

  // Trees

  /** Where all is the program's own, evaluation stays in the program and everything stays its own. */
  lemma {:induction false} EvalStays(P: Program, m: Icode, f: Link, d: Scope, st: Store, fuel: nat)
    requires Settled(P) && Stays(P, m) && OwnScope(P, d) && OwnStore(P, st)
    ensures Stayed(P, Eval(P, m, f, d, st, fuel))
    decreases fuel, m, 1
  {
    hide Eval, Own, OwnStore, Settled, OwnScope, EvalEach, EvalJunction, EvalArgs, EvalIn, Apply, Fetch, Update, Extend, Host, ValueOf, Lookup;
    EvalByRule(P, m, f, d, st, fuel);
    match m
    case ShallowArgumentRef(j) => StayedFetch(P, f, 0, j, st);
    case DeepArgumentRef(i, j) => StayedFetch(P, f, i, j, st);
    case SymbolRef(_, si) => StayedValue(P, si, st);
    case ScopedRef(environ, si) =>
      StayedValue(P, si, st);
      if Lookup(d, environ, si).Some? {
        OwnLookup(P, d, environ, si);
      }
    case ShallowArgumentSet(_, _) => AssignmentStays(P, m, f, d, st, fuel);
    case DeepArgumentSet(_, _, _) => AssignmentStays(P, m, f, d, st, fuel);
    case SymbolSet(_, _, _) => AssignmentStays(P, m, f, d, st, fuel);
    case Negation(_, m1) =>
      EvalStays(P, m1, f, d, st, fuel);
      TruthOwn(P);
    case Abstraction(_, _, _, _, _, _, vi) => ClosureOwn(P, vi, f);
    case Each(ms) => EachStays(P, ms, f, d, st, fuel);
    case Begin(_, ms) => EachStays(P, ms, f, d, st, fuel);
    case Junction(conj, _, ms) => JunctionStays(P, conj, ms, f, d, st, fuel);
    case Primitive0(_, pd) =>
      NoneOwn(P);
      StayedHost(P, pd, [], st);
    case Primitive1(_, _, _) => PrimitiveStays(P, m, f, d, st, fuel);
    case Primitive2(_, _, _, _) => PrimitiveStays(P, m, f, d, st, fuel);
    case FixLet(_, args, mp, _) =>
      ArgsStay(P, args, f, d, st, fuel);
      var r := EvalArgs(P, args, f, d, st, fuel);
      if r.Built? {
        InStays(P, mp, r.a, f, d, r.st, fuel);
      }
    case Call(_, _, m1, args) =>
      EvalStays(P, m1, f, d, st, fuel);
      var r := Eval(P, m1, f, d, st, fuel);
      if r.Done? {
        ArgsStay(P, args, f, d, r.st, fuel);
        var q := EvalArgs(P, args, f, d, r.st, fuel);
        if q.Built? && fuel > 0 {
          ApplyStays(P, r.v, q.a, d, q.st, fuel - 1);
        }
      }
    case ConstantOf(_) =>
    case Alternative(_, _, _, _) => TwoStay(P, m, f, d, st, fuel);
    case Sequence(_, _) => TwoStay(P, m, f, d, st, fuel);
    case Local(_, _, _, _, _, _) => TwoStay(P, m, f, d, st, fuel);
    case ScopedLet(_, _, _, _) => TwoStay(P, m, f, d, st, fuel);
    case Trapping(_, _, _) => TwoStay(P, m, f, d, st, fuel);
  }

  lemma TruthOwn(P: Program)
    ensures Own(P, TRUE) && Own(P, FALSE)
  {
  }

  lemma NoneOwn(P: Program)
    ensures OwnAll(P, [])
  {
  }

  lemma ClosureOwn(P: Program, vi: nat, f: Link)
    requires vi in P.labels && P.labels[vi] in P.funs && P.funs[P.labels[vi]].Abstraction?
    ensures Own(P, Closure(P.labels[vi], f))
  {
  }

  lemma {:induction false} AssignmentStays(P: Program, m: Icode, f: Link, d: Scope, st: Store, fuel: nat)
    requires m.ShallowArgumentSet? || m.DeepArgumentSet? || m.SymbolSet?
    requires Settled(P) && Stays(P, m) && OwnScope(P, d) && OwnStore(P, st)
    ensures Stayed(P, EvalRule(P, m, f, d, st, fuel))
    decreases fuel, m, 0
  {
    hide Eval, Own, OwnStore, Settled, OwnScope, Update;
    EvalStays(P, m.m1, f, d, st, fuel);
    var r := Eval(P, m.m1, f, d, st, fuel);
    if r.Done? {
      match m
      case ShallowArgumentSet(j, _) => StayedUpdate(P, f, 0, j, r.v, r.st);
      case DeepArgumentSet(i, j, _) => StayedUpdate(P, f, i, j, r.v, r.st);
      case SymbolSet(_, si, _) => OwnAssigned(P, r.st, si, r.v);
    }
  }

  lemma {:induction false} PrimitiveStays(P: Program, m: Icode, f: Link, d: Scope, st: Store, fuel: nat)
    requires m.Primitive1? || m.Primitive2?
    requires Settled(P) && Stays(P, m) && OwnScope(P, d) && OwnStore(P, st)
    ensures Stayed(P, EvalRule(P, m, f, d, st, fuel))
    decreases fuel, m, 0
  {
    hide Eval, Own, OwnStore, Settled, OwnScope, OwnAll, Host;
    EvalStays(P, m.m1, f, d, st, fuel);
    var r := Eval(P, m.m1, f, d, st, fuel);
    if r.Done? && m.Primitive1? {
      OwnOne(P, r.v);
      StayedHost(P, m.pd, [r.v], r.st);
    } else if r.Done? {
      EvalStays(P, m.m2, f, d, r.st, fuel);
      var q := Eval(P, m.m2, f, d, r.st, fuel);
      if q.Done? {
        OwnTwo(P, r.v, q.v);
        StayedHost(P, m.pd, [r.v, q.v], q.st);
      }
    }
  }

  lemma {:induction false} TwoStay(P: Program, m: Icode, f: Link, d: Scope, st: Store, fuel: nat)
    requires m.Alternative? || m.Sequence? || m.Local? || m.ScopedLet? || m.Trapping?
    requires Settled(P) && Stays(P, m) && OwnScope(P, d) && OwnStore(P, st)
    ensures Stayed(P, EvalRule(P, m, f, d, st, fuel))
    decreases fuel, m, 0
  {
    hide Eval, Own, OwnStore, Settled, Update, Extend;
    EvalStays(P, m.m1, f, d, st, fuel);
    var r := Eval(P, m.m1, f, d, st, fuel);
    if r.Done? {
      match m
      case Alternative(_, _, m2, m3) => EvalStays(P, if r.v != FALSE then m2 else m3, f, d, r.st, fuel);
      case Sequence(_, mp) => EvalStays(P, mp, f, d, r.st, fuel);
      case Local(_, j, _, mp, size, _) =>
        if Extend(r.st, f, size).Some? {
          var s2 := Extend(r.st, f, size).value;
          OwnExtend(P, r.st, f, size);
          if Update(s2, f, 0, j, r.v).Some? {
            OwnUpdate(P, s2, f, 0, j, r.v);
            EvalStays(P, mp, f, d, Update(s2, f, 0, j, r.v).value, fuel);
          }
        }
      case ScopedLet(environ, si, _, mp) => EvalStays(P, mp, f, Bind(environ, si, r.v, d), r.st, fuel);
      case Trapping(_, _, mp) => EvalStays(P, mp, f, d, r.st, fuel);
    }
  }

  lemma {:induction false} EachStays(P: Program, ms: Codes, f: Link, d: Scope, st: Store, fuel: nat)
    requires Settled(P) && StaysEach(P, ms) && OwnScope(P, d) && OwnStore(P, st)
    ensures Stayed(P, EvalEach(P, ms, f, d, st, fuel))
    decreases fuel, ms, 0
  {
    hide Eval, Own, OwnStore, Settled, OwnScope, Stays;
    EvalStays(P, ms.head, f, d, st, fuel);
    var r := Eval(P, ms.head, f, d, st, fuel);
    if ms.More? && r.Done? {
      EachStays(P, ms.rest, f, d, r.st, fuel);
    }
  }

  lemma {:induction false} JunctionStays(P: Program, conj: bool, ms: Codes, f: Link, d: Scope, st: Store, fuel: nat)
    requires Settled(P) && StaysEach(P, ms) && OwnScope(P, d) && OwnStore(P, st)
    ensures Stayed(P, EvalJunction(P, conj, ms, f, d, st, fuel))
    decreases fuel, ms, 0
  {
    hide Eval, Own, OwnStore, Settled, OwnScope, Stays;
    EvalStays(P, ms.head, f, d, st, fuel);
    var r := Eval(P, ms.head, f, d, st, fuel);
    if ms.More? && r.Done? {
      JunctionStays(P, conj, ms.rest, f, d, r.st, fuel);
    }
  }

  lemma {:induction false} ArgsStay(P: Program, args: Args, f: Link, d: Scope, st: Store, fuel: nat)
    requires Settled(P) && StaysArgs(P, args) && OwnScope(P, d) && OwnStore(P, st)
    ensures StayedFramed(P, EvalArgs(P, args, f, d, st, fuel))
    decreases fuel, args, 0
  {
    hide Eval, OwnStore, Settled, OwnScope, Stays, Update, Fetch;
    if args.AllocFrame? {
      OwnNewFrame(P, st, args.arity + 1);
    } else {
      EvalStays(P, args.m1, f, d, st, fuel);
      var r := Eval(P, args.m1, f, d, st, fuel);
      if r.Done? {
        ArgsStay(P, args.rest, f, d, r.st, fuel);
        var q := EvalArgs(P, args.rest, f, d, r.st, fuel);
        if q.Built? && args.StoreArgument? {
          if Update(q.st, Frm(q.a), 0, args.rank, r.v).Some? {
            OwnUpdate(P, q.st, Frm(q.a), 0, args.rank, r.v);
          }
        } else if q.Built? && Fetch(q.st.frames, Frm(q.a), 0, args.arity).Some? {
          OwnFetch(P, q.st, Frm(q.a), 0, args.arity);
          var w := Pair(r.v, Fetch(q.st.frames, Frm(q.a), 0, args.arity).value);
          if Update(q.st, Frm(q.a), 0, args.arity, w).Some? {
            OwnUpdate(P, q.st, Frm(q.a), 0, args.arity, w);
          }
        }
      }
    }
  }

  lemma {:induction false} InStays(P: Program, m: Icode, a: nat, f: Link, d: Scope, st: Store, fuel: nat)
    requires Settled(P) && Stays(P, m) && OwnScope(P, d) && OwnStore(P, st)
    ensures Stayed(P, EvalIn(P, m, a, f, d, st, fuel))
    decreases fuel, m, 2
  {
    hide Eval, Own, OwnStore, Settled, OwnScope, Stays, LinkTo;
    if LinkTo(st, FrameRef(a), f).Some? {
      OwnLink(P, st, FrameRef(a), f);
      EvalStays(P, m, Frm(a), d, LinkTo(st, FrameRef(a), f).value, fuel);
    }
  }

  lemma {:induction false} ApplyStays(P: Program, v: Value, a: nat, d: Scope, st: Store, fuel: nat)
    requires Settled(P) && Own(P, v) && OwnScope(P, d) && OwnStore(P, st)
    ensures Stayed(P, Apply(P, v, a, d, st, fuel))
    decreases fuel, P.funs, 3
  {
    hide EvalIn, OwnStore, OwnScope, Stays, Accept, CallPrimitive;
    match v
    case Closure(entry, env) =>
      var fun := P.funs[entry];
      if Accept(fun, a, st).Some? && fuel > 0 {
        OwnAccept(P, fun, a, st);
        InStays(P, fun.mp, a, env, d, Accept(fun, a, st).value, fuel - 1);
      }
    case Primitive(p) => CallStays(P, p, a, st);
    case _ =>
  }

  lemma CallStays(P: Program, p: nat, a: nat, st: Store)
    requires Settled(P) && OwnStore(P, st)
    ensures Stayed(P, Yields(CallPrimitive(P.prim, st, p, FrameRef(a)), st))
  {
    hide Own, Settled, Host;
    if CallPrimitive(P.prim, st, p, FrameRef(a)).Some? {
      StayedHost(P, p, st.frames[a].args[..st.frames[a].nparams], st);
    }
  }
}
