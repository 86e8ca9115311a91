/**
  What evaluation never disturbs: frames stay where they are in the chain, and the function values
  of the program stay in the table.
 */
module Keeping {

  import opened Machine
  import opened Icode
  import opened Meaning

  ghost predicate Keeps(P: Program, st: Store, after: Store) {
    && |st.frames| <= |after.frames|
    && (forall a :: 0 <= a < |st.frames| ==>
      after.frames[a].next == st.frames[a].next && after.frames[a].nparams == st.frames[a].nparams)
    && (forall vi :: vi in P.labels && vi in st.values ==> vi in after.values && after.values[vi] == st.values[vi])
  }

  lemma KeepsThen(P: Program, s1: Store, s2: Store, s3: Store)
    requires Keeps(P, s1, s2) && Keeps(P, s2, s3)
    ensures Keeps(P, s1, s3)
  {
  }

  lemma KeepsSelf(P: Program, st: Store)
    ensures Keeps(P, st, st)
  {
  }

  lemma KeepsSize(P: Program, st: Store, after: Store)
    requires Keeps(P, st, after)
    ensures |st.frames| <= |after.frames|
  {
  }

  lemma SymbolSetKeeps(P: Program, st: Store, si: nat, v: Value)
    requires si !in P.labels
    ensures Keeps(P, st, st.(values := st.values[si := v]))
  {
  }

  lemma UpdateKeeps(P: Program, st: Store, f: Link, d: nat, j: nat, v: Value)
    requires Update(st, f, d, j, v).Some?
    ensures Keeps(P, st, Update(st, f, d, j, v).value)
  {
  }

  lemma ExtendKeeps(P: Program, st: Store, f: Link, size: nat)
    requires Extend(st, f, size).Some?
    ensures Keeps(P, st, Extend(st, f, size).value)
  {
  }

  lemma AllocateKeeps(P: Program, st: Store, size: nat)
    requires size >= 1
    ensures Keeps(P, st, st.(frames := st.frames + [NewFrame(size)]))
  {
  }

  /** Linking touches only a frame made since s0. */
  lemma LinkKeeps(P: Program, s0: Store, st: Store, a: nat, f: Link)
    requires Keeps(P, s0, st) && a >= |s0.frames| && LinkTo(st, FrameRef(a), f).Some?
    ensures Keeps(P, s0, LinkTo(st, FrameRef(a), f).value)
  {
  }

  lemma AcceptKeeps(P: Program, fun: Icode, a: nat, st: Store)
    requires fun.Abstraction? && Accept(fun, a, st).Some?
    ensures Keeps(P, st, Accept(fun, a, st).value)
  {
  }

  lemma {:induction false} EvalKeeps(P: Program, m: Icode, f: Link, d: Scope, st: Store, fuel: nat)
    requires Eval(P, m, f, d, st, fuel).Done?
    ensures Keeps(P, st, Eval(P, m, f, d, st, fuel).st)
    decreases fuel, m, 1
  {
    hide Keeps, Eval, Update, Extend, EvalEach, EvalJunction, EvalArgs, EvalIn, Apply;
    KeepsSelf(P, st);
    EvalByRule(P, m, f, d, st, fuel);
    match m
    case ShallowArgumentSet(j, m1) =>
      var r := Eval(P, m1, f, d, st, fuel);
      EvalKeeps(P, m1, f, d, st, fuel);
      UpdateKeeps(P, r.st, f, 0, j, r.v);
      KeepsThen(P, st, r.st, Update(r.st, f, 0, j, r.v).value);
    case DeepArgumentSet(i, j, m1) =>
      var r := Eval(P, m1, f, d, st, fuel);
      EvalKeeps(P, m1, f, d, st, fuel);
      UpdateKeeps(P, r.st, f, i, j, r.v);
      KeepsThen(P, st, r.st, Update(r.st, f, i, j, r.v).value);
    case SymbolSet(_, si, m1) =>
      var r := Eval(P, m1, f, d, st, fuel);
      EvalKeeps(P, m1, f, d, st, fuel);
      SymbolSetKeeps(P, r.st, si, r.v);
      KeepsThen(P, st, r.st, r.st.(values := r.st.values[si := r.v]));
    case Alternative(_, m1, m2, m3) =>
      var r := Eval(P, m1, f, d, st, fuel);
      EvalKeeps(P, m1, f, d, st, fuel);
      var mx := if r.v != FALSE then m2 else m3;
      EvalKeeps(P, mx, f, d, r.st, fuel);
      KeepsThen(P, st, r.st, Eval(P, mx, f, d, r.st, fuel).st);
    case Sequence(m1, mp) =>
      EvalKeeps(P, m1, f, d, st, fuel);
      var s1 := Eval(P, m1, f, d, st, fuel).st;
      EvalKeeps(P, mp, f, d, s1, fuel);
      KeepsThen(P, st, s1, Eval(P, mp, f, d, s1, fuel).st);
    case Each(ms) => EvalEachKeeps(P, ms, f, d, st, fuel);
    case Begin(_, ms) => EvalEachKeeps(P, ms, f, d, st, fuel);
    case Junction(conj, _, ms) => EvalJunctionKeeps(P, conj, ms, f, d, st, fuel);
    case Negation(_, m1) => EvalKeeps(P, m1, f, d, st, fuel);
    case FixLet(_, args, mp, _) =>
      var r := EvalArgs(P, args, f, d, st, fuel);
      EvalArgsKeeps(P, args, f, d, st, fuel);
      EvalInKeeps(P, mp, r.a, f, d, st, r.st, fuel);
    case Local(_, j, m1, mp, size, _) =>
      var r := Eval(P, m1, f, d, st, fuel);
      EvalKeeps(P, m1, f, d, st, fuel);
      ExtendKeeps(P, r.st, f, size);
      var s2 := Extend(r.st, f, size).value;
      KeepsThen(P, st, r.st, s2);
      UpdateKeeps(P, s2, f, 0, j, r.v);
      var s3 := Update(s2, f, 0, j, r.v).value;
      KeepsThen(P, st, s2, s3);
      EvalKeeps(P, mp, f, d, s3, fuel);
      KeepsThen(P, st, s3, Eval(P, mp, f, d, s3, fuel).st);
    case Primitive1(_, m1, pd) => EvalKeeps(P, m1, f, d, st, fuel);
    case Primitive2(_, m1, m2, pd) =>
      EvalKeeps(P, m1, f, d, st, fuel);
      var s1 := Eval(P, m1, f, d, st, fuel).st;
      EvalKeeps(P, m2, f, d, s1, fuel);
      KeepsThen(P, st, s1, Eval(P, m2, f, d, s1, fuel).st);
    case Call(_, _, m1, args) =>
      var r := Eval(P, m1, f, d, st, fuel);
      EvalKeeps(P, m1, f, d, st, fuel);
      var q := EvalArgs(P, args, f, d, r.st, fuel);
      EvalArgsKeeps(P, args, f, d, r.st, fuel);
      KeepsSize(P, st, r.st);
      KeepsThen(P, st, r.st, q.st);
      ApplyKeeps(P, r.v, q.a, d, st, q.st, fuel - 1);
    case ScopedLet(environ, si, m1, mp) =>
      var r := Eval(P, m1, f, d, st, fuel);
      EvalKeeps(P, m1, f, d, st, fuel);
      EvalKeeps(P, mp, f, Bind(environ, si, r.v, d), r.st, fuel);
      KeepsThen(P, st, r.st, Eval(P, mp, f, Bind(environ, si, r.v, d), r.st, fuel).st);
    case Trapping(sis, m1, mp) =>
      EvalKeeps(P, m1, f, d, st, fuel);
      var s1 := Eval(P, m1, f, d, st, fuel).st;
      EvalKeeps(P, mp, f, d, s1, fuel);
      KeepsThen(P, st, s1, Eval(P, mp, f, d, s1, fuel).st);
    case _ =>
  }

  lemma {:induction false} EvalEachKeeps(P: Program, ms: Codes, f: Link, d: Scope, st: Store, fuel: nat)
    requires EvalEach(P, ms, f, d, st, fuel).Done?
    ensures Keeps(P, st, EvalEach(P, ms, f, d, st, fuel).st)
    decreases fuel, ms, 0
  {
    hide Eval;
    match ms
    case One(m) => EvalKeeps(P, m, f, d, st, fuel);
    case More(m, rest) =>
      EvalKeeps(P, m, f, d, st, fuel);
      EvalEachKeeps(P, rest, f, d, Eval(P, m, f, d, st, fuel).st, fuel);
  }

  lemma {:induction false} EvalJunctionKeeps(P: Program, conj: bool, ms: Codes, f: Link, d: Scope, st: Store, fuel: nat)
    requires EvalJunction(P, conj, ms, f, d, st, fuel).Done?
    ensures Keeps(P, st, EvalJunction(P, conj, ms, f, d, st, fuel).st)
    decreases fuel, ms, 0
  {
    hide Eval;
    EvalKeeps(P, ms.head, f, d, st, fuel);
    var r := Eval(P, ms.head, f, d, st, fuel);
    if ms.More? && conj != (r.v == FALSE) {
      EvalJunctionKeeps(P, conj, ms.rest, f, d, r.st, fuel);
    }
  }

  /** The frame built is one that was not there before. */
  lemma {:induction false} EvalArgsKeeps(P: Program, args: Args, f: Link, d: Scope, st: Store, fuel: nat)
    requires EvalArgs(P, args, f, d, st, fuel).Built?
    ensures Keeps(P, st, EvalArgs(P, args, f, d, st, fuel).st)
    ensures |st.frames| <= EvalArgs(P, args, f, d, st, fuel).a < |EvalArgs(P, args, f, d, st, fuel).st.frames|
    decreases fuel, args, 0
  {
    hide Eval, Update, Fetch;
    match args
    case AllocFrame(arity) => AllocateKeeps(P, st, arity + 1);
    case StoreArgument(m1, rest, rank) =>
      var r := Eval(P, m1, f, d, st, fuel);
      EvalKeeps(P, m1, f, d, st, fuel);
      EvalArgsKeeps(P, rest, f, d, r.st, fuel);
      var q := EvalArgs(P, rest, f, d, r.st, fuel);
      UpdateKeeps(P, q.st, Frm(q.a), 0, rank, r.v);
    case ListArgument(m1, rest, arity) =>
      var r := Eval(P, m1, f, d, st, fuel);
      EvalKeeps(P, m1, f, d, st, fuel);
      EvalArgsKeeps(P, rest, f, d, r.st, fuel);
      var q := EvalArgs(P, rest, f, d, r.st, fuel);
      UpdateKeeps(P, q.st, Frm(q.a), 0, arity, Pair(r.v, Fetch(q.st.frames, Frm(q.a), 0, arity).value));
  }

  lemma {:induction false} EvalInKeeps(P: Program, m: Icode, a: nat, f: Link, d: Scope, s0: Store, st: Store, fuel: nat)
    requires Keeps(P, s0, st) && a >= |s0.frames|
    requires EvalIn(P, m, a, f, d, st, fuel).Done?
    ensures Keeps(P, s0, EvalIn(P, m, a, f, d, st, fuel).st)
    decreases fuel, m, 2
  {
    hide Eval;
    LinkKeeps(P, s0, st, a, f);
    var s1 := LinkTo(st, FrameRef(a), f).value;
    EvalKeeps(P, m, Frm(a), d, s1, fuel);
    KeepsThen(P, s0, s1, Eval(P, m, Frm(a), d, s1, fuel).st);
  }

  lemma {:induction false} ApplyKeeps(P: Program, v: Value, a: nat, d: Scope, s0: Store, st: Store, fuel: nat)
    requires Keeps(P, s0, st) && a >= |s0.frames|
    requires Apply(P, v, a, d, st, fuel).Done?
    ensures Keeps(P, s0, Apply(P, v, a, d, st, fuel).st)
    decreases fuel, P.funs, 3
  {
    hide EvalIn, Accept;
    if v.Closure? {
      var fun := P.funs[v.entry];
      AcceptKeeps(P, fun, a, st);
      var s1 := Accept(fun, a, st).value;
      KeepsThen(P, s0, st, s1);
      EvalInKeeps(P, fun.mp, a, v.env, d, s0, s1, fuel - 1);
    }
  }
}
