/** Fuel only bounds: a fragment that has a value or faults does the same with any more fuel. */
module Fuel {

  import opened Machine
  import opened Icode
  import opened Meaning

  lemma {:induction false} EvalMore(P: Program, m: Icode, f: Link, d: Scope, st: Store, fuel: nat, more: nat)
    requires fuel <= more && Eval(P, m, f, d, st, fuel) != Stuck(Deep)
    ensures Eval(P, m, f, d, st, more) == Eval(P, m, f, d, st, fuel)
    decreases fuel, m, 1
  {
    hide Eval, EvalEach, EvalJunction, EvalArgs, EvalIn, Apply, Update, Extend, Fetch, Host, ValueOf, Lookup;
    EvalByRule(P, m, f, d, st, fuel);
    EvalByRule(P, m, f, d, st, more);
    match m
    case ShallowArgumentSet(_, m1) => EvalMore(P, m1, f, d, st, fuel, more);
    case DeepArgumentSet(_, _, m1) => EvalMore(P, m1, f, d, st, fuel, more);
    case SymbolSet(_, _, m1) => EvalMore(P, m1, f, d, st, fuel, more);
    case Negation(_, m1) => EvalMore(P, m1, f, d, st, fuel, more);
    case Primitive1(_, m1, _) => EvalMore(P, m1, f, d, st, fuel, more);
    case Alternative(_, m1, m2, m3) =>
      EvalMore(P, m1, f, d, st, fuel, more);
      var r := Eval(P, m1, f, d, st, fuel);
      if r.Done? {
        EvalMore(P, if r.v != FALSE then m2 else m3, f, d, r.st, fuel, more);
      }
    case Each(ms) => EachMore(P, ms, f, d, st, fuel, more);
    case Begin(_, ms) => EachMore(P, ms, f, d, st, fuel, more);
    case Junction(conj, _, ms) => JunctionMore(P, conj, ms, f, d, st, fuel, more);
    case FixLet(_, args, mp, _) =>
      ArgsMore(P, args, f, d, st, fuel, more);
      var r := EvalArgs(P, args, f, d, st, fuel);
      if r.Built? {
        InMore(P, mp, r.a, f, d, r.st, fuel, more);
      }
    case Call(_, _, m1, args) =>
      EvalMore(P, m1, f, d, st, fuel, more);
      var r := Eval(P, m1, f, d, st, fuel);
      if r.Done? {
        ArgsMore(P, args, f, d, r.st, fuel, more);
        var q := EvalArgs(P, args, f, d, r.st, fuel);
        if q.Built? {
          ApplyMore(P, r.v, q.a, d, q.st, fuel - 1, more - 1);
        }
      }
    case Sequence(_, _) => TwoMore(P, m, f, d, st, fuel, more);
    case Local(_, _, _, _, _, _) => TwoMore(P, m, f, d, st, fuel, more);
    case Primitive2(_, _, _, _) => TwoMore(P, m, f, d, st, fuel, more);
    case ScopedLet(_, _, _, _) => TwoMore(P, m, f, d, st, fuel, more);
    case Trapping(_, _, _) => TwoMore(P, m, f, d, st, fuel, more);
    case _ =>
  }

  /** Two parts, one after the other. */
  lemma {:induction false} TwoMore(P: Program, m: Icode, f: Link, d: Scope, st: Store, fuel: nat, more: nat)
    requires m.Sequence? || m.Local? || m.Primitive2? || m.ScopedLet? || m.Trapping?
    requires fuel <= more && Eval(P, m, f, d, st, fuel) != Stuck(Deep)
    ensures Eval(P, m, f, d, st, more) == Eval(P, m, f, d, st, fuel)
    decreases fuel, m, 0
  {
    hide Eval, Update, Extend, Host;
    EvalByRule(P, m, f, d, st, fuel);
    EvalByRule(P, m, f, d, st, more);
    EvalMore(P, m.m1, f, d, st, fuel, more);
    var r := Eval(P, m.m1, f, d, st, fuel);
    if r.Done? {
      match m
      case Sequence(_, mp) => EvalMore(P, mp, f, d, r.st, fuel, more);
      case Local(_, j, _, mp, size, _) =>
        if Extend(r.st, f, size).Some? && Update(Extend(r.st, f, size).value, f, 0, j, r.v).Some? {
          EvalMore(P, mp, f, d, Update(Extend(r.st, f, size).value, f, 0, j, r.v).value, fuel, more);
        }
      case Primitive2(_, _, m2, _) => EvalMore(P, m2, f, d, r.st, fuel, more);
      case ScopedLet(environ, si, _, mp) => EvalMore(P, mp, f, Bind(environ, si, r.v, d), r.st, fuel, more);
      case Trapping(sis, _, mp) =>
        if sis == [] || r.v.Closure? || r.v.Primitive? {
          EvalMore(P, mp, f, d, r.st, fuel, more);
        }
    }
  }

  lemma {:induction false} EachMore(P: Program, ms: Codes, f: Link, d: Scope, st: Store, fuel: nat, more: nat)
    requires fuel <= more && EvalEach(P, ms, f, d, st, fuel) != Stuck(Deep)
    ensures EvalEach(P, ms, f, d, st, more) == EvalEach(P, ms, f, d, st, fuel)
    decreases fuel, ms, 0
  {
    hide Eval;
    EvalMore(P, ms.head, f, d, st, fuel, more);
    var r := Eval(P, ms.head, f, d, st, fuel);
    if ms.More? && r.Done? {
      EachMore(P, ms.rest, f, d, r.st, fuel, more);
    }
  }

  lemma {:induction false} JunctionMore(P: Program, conj: bool, ms: Codes, f: Link, d: Scope, st: Store, fuel: nat, more: nat)
    requires fuel <= more && EvalJunction(P, conj, ms, f, d, st, fuel) != Stuck(Deep)
    ensures EvalJunction(P, conj, ms, f, d, st, more) == EvalJunction(P, conj, ms, f, d, st, fuel)
    decreases fuel, ms, 0
  {
    hide Eval;
    EvalMore(P, ms.head, f, d, st, fuel, more);
    var r := Eval(P, ms.head, f, d, st, fuel);
    if ms.More? && r.Done? && conj != (r.v == FALSE) {
      JunctionMore(P, conj, ms.rest, f, d, r.st, fuel, more);
    }
  }

  lemma {:induction false} ArgsMore(P: Program, args: Args, f: Link, d: Scope, st: Store, fuel: nat, more: nat)
    requires fuel <= more && EvalArgs(P, args, f, d, st, fuel) != NotBuilt(Deep)
    ensures EvalArgs(P, args, f, d, st, more) == EvalArgs(P, args, f, d, st, fuel)
    decreases fuel, args, 0
  {
    hide Eval, Update, Fetch;
    if !args.AllocFrame? {
      EvalMore(P, args.m1, f, d, st, fuel, more);
      var r := Eval(P, args.m1, f, d, st, fuel);
      if r.Done? {
        ArgsMore(P, args.rest, f, d, r.st, fuel, more);
      }
    }
  }

  lemma {:induction false} InMore(P: Program, m: Icode, a: nat, f: Link, d: Scope, st: Store, fuel: nat, more: nat)
    requires fuel <= more && EvalIn(P, m, a, f, d, st, fuel) != Stuck(Deep)
    ensures EvalIn(P, m, a, f, d, st, more) == EvalIn(P, m, a, f, d, st, fuel)
    decreases fuel, m, 2
  {
    hide Eval, LinkTo;
    if LinkTo(st, FrameRef(a), f).Some? {
      EvalMore(P, m, Frm(a), d, LinkTo(st, FrameRef(a), f).value, fuel, more);
    }
  }

  lemma {:induction false} ApplyMore(P: Program, v: Value, a: nat, d: Scope, st: Store, fuel: nat, more: nat)
    requires fuel <= more && Apply(P, v, a, d, st, fuel) != Stuck(Deep)
    ensures Apply(P, v, a, d, st, more) == Apply(P, v, a, d, st, fuel)
    decreases fuel, P.funs, 3
  {
    hide EvalIn, Accept;
    if v.Closure? && v.entry in P.funs && P.funs[v.entry].Abstraction? {
      var fun := P.funs[v.entry];
      if Accept(fun, a, st).Some? {
        InMore(P, fun.mp, a, v.env, d, Accept(fun, a, st).value, fuel - 1, more - 1);
      }
    }
  }

  /** So a fragment has at most one outcome. */
  lemma OneOutcome(P: Program, m: Icode, f: Link, d: Scope, st: Store, fuel: nat, other: nat)
    requires Eval(P, m, f, d, st, fuel) != Stuck(Deep) && Eval(P, m, f, d, st, other) != Stuck(Deep)
    ensures Eval(P, m, f, d, st, fuel) == Eval(P, m, f, d, st, other)
  {
    hide Eval;
    EvalMore(P, m, f, d, st, fuel, if fuel < other then other else fuel);
    EvalMore(P, m, f, d, st, other, if fuel < other then other else fuel);
  }
}
