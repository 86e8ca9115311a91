/** Function numbers: no two functions of a form get the same one, so every closure runs its own body. */
module Numbering {

  import opened Machine
  import opened Icode
  import opened Meaning
  import opened Hoisting
  import opened Evaluate

  /** The numbers of the functions are all different, from lo up to but not including hi. */
  predicate Spread(fs: seq<Fn>, lo: nat, hi: nat) {
    && lo <= hi
    && (forall i :: 0 <= i < |fs| ==> lo <= Number(fs[i]) < hi)
    && (forall i, j :: 0 <= i < j < |fs| ==> Number(fs[i]) != Number(fs[j]))
  }

  lemma SpreadNone(lo: nat)
    ensures Spread([], lo, lo)
  {
  }

  lemma SpreadJoin(a: seq<Fn>, b: seq<Fn>, lo: nat, mid: nat, hi: nat)
    requires Spread(a, lo, mid) && Spread(b, mid, hi)
    ensures Spread(a + b, lo, hi)
  {
    hide Number;
    var c := a + b;
    forall i, j | 0 <= i < j < |c| ensures Number(c[i]) != Number(c[j]) {
      assert i < |a| ==> c[i] == a[i];
      assert i >= |a| ==> c[i] == b[i - |a|];
      assert j < |a| ==> c[j] == a[j];
      assert j >= |a| ==> c[j] == b[j - |a|];
    }
  }

  lemma SpreadOne(fn: Fn, lo: nat)
    requires Number(fn) == lo
    ensures Spread([fn], lo, lo + 1)
  {
  }

  /** The functions made from an expression have the numbers it took, each one once. */
  lemma {:induction false} Numbered(G: Globals, e: Expr, nt: seq<L.Level>, f: Flags, v: nat, n: nat)
    ensures Spread(Functions(Evaluate.Meaning(G, e, nt, f, v).m, n), v, Evaluate.Meaning(G, e, nt, f, v).v)
    decreases e, 1
  {
    hide *;
    MeaningByRule(G, e, nt, f, v);
    if e.Literal? || e.Variable? || e.PrimitiveOf0? {
      NumberedLeaf(G, e, nt, f, v, n);
    } else if e.Assign? || e.AssignPlace? || e.NotExpr? || e.PrimitiveOf1? {
      NumberedUnary(G, e, nt, f, v, n);
    } else if e.If? {
      NumberedIf(G, e, nt, f, v, n);
    } else if e.Block? || e.Connective? {
      NumberedSeries(G, e, nt, f, v, n);
    } else if e.Function? {
      NumberedFunction(G, e, nt, f, v, n);
    } else if e.Application? {
      NumberedApplication(G, e, nt, f, v, n);
    } else if e.Closed? {
      NumberedClosed(G, e, nt, f, v, n);
    } else {
      NumberedTwo(G, e, nt, f, v, n);
    }
  }

  lemma NumberedLeaf(G: Globals, e: Expr, nt: seq<L.Level>, f: Flags, v: nat, n: nat)
    requires e.Literal? || e.Variable? || e.PrimitiveOf0?
    ensures Spread(Functions(MeaningRule(G, e, nt, f, v).m, n), v, MeaningRule(G, e, nt, f, v).v)
  {
    hide Spread;
    SpreadNone(v);
  }

  lemma {:induction false} NumberedUnary(G: Globals, e: Expr, nt: seq<L.Level>, f: Flags, v: nat, n: nat)
    requires e.Assign? || e.AssignPlace? || e.NotExpr? || e.PrimitiveOf1?
    ensures Spread(Functions(MeaningRule(G, e, nt, f, v).m, n), v, MeaningRule(G, e, nt, f, v).v)
    decreases e, 0
  {
    hide Spread, Evaluate.Meaning, Sources, NotTail, IsTail, NoDefine, ToplevelScope;
    match e
    case Assign(name, e1) => Numbered(G, e1, nt, NoDefine(NotTail(ToplevelScope(f))), v, n);
    case AssignPlace(call) => Numbered(G, call, nt, NoDefine(ToplevelScope(f)), v, n);
    case NotExpr(e1) => Numbered(G, e1, nt, NotTail(f), v, n);
    case PrimitiveOf1(_, e1) => Numbered(G, e1, nt, NotTail(f), v, n);
  }

  lemma {:induction false} NumberedIf(G: Globals, e: Expr, nt: seq<L.Level>, f: Flags, v: nat, n: nat)
    requires e.If?
    ensures Spread(Functions(MeaningRule(G, e, nt, f, v).m, n), v, MeaningRule(G, e, nt, f, v).v)
    decreases e, 0
  {
    hide Spread, Evaluate.Meaning, Sources, NotTail;
    var r1 := Evaluate.Meaning(G, e.e1, nt, NotTail(f), v);
    var r2 := Evaluate.Meaning(G, e.e2, nt, f, r1.v);
    var r3 := Evaluate.Meaning(G, e.e3, nt, f, r2.v);
    var n2 := n + 1 + Sources(r1.m);
    var n3 := n2 + Sources(r2.m);
    Numbered(G, e.e1, nt, NotTail(f), v, n + 1);
    Numbered(G, e.e2, nt, f, r1.v, n2);
    Numbered(G, e.e3, nt, f, r2.v, n3);
    SpreadJoin(Functions(r2.m, n2), Functions(r3.m, n3), r1.v, r2.v, r3.v);
    SpreadJoin(Functions(r1.m, n + 1), Functions(r2.m, n2) + Functions(r3.m, n3), v, r1.v, r3.v);
  }

  lemma {:induction false} NumberedSeries(G: Globals, e: Expr, nt: seq<L.Level>, f: Flags, v: nat, n: nat)
    requires e.Block? || e.Connective?
    ensures Spread(Functions(MeaningRule(G, e, nt, f, v).m, n), v, MeaningRule(G, e, nt, f, v).v)
    decreases e, 0
  {
    hide Spread, MeaningEach, IsTail;
    NumberedEach(G, e.es, nt, f, v, n);
  }

  /** A function takes its number after the functions inside it. */
  lemma {:induction false} NumberedFunction(G: Globals, e: Expr, nt: seq<L.Level>, f: Flags, v: nat, n: nat)
    requires e.Function?
    ensures Spread(Functions(MeaningRule(G, e, nt, f, v).m, n), v, MeaningRule(G, e, nt, f, v).v)
    decreases e, 0
  {
    hide Spread, MeaningEach, IsTail, SetTail, FormalsOf, ParamTree;
    var ent := ParamTree(e.dotted, e.names, nt);
    var r := MeaningEach(G, e.body, ent, SetTail(f), v);
    var m := MeaningRule(G, e, nt, f, v).m;
    NumberedEach(G, e.body, ent, SetTail(f), v, n + 1);
    SpreadOne(Fn(m, n), r.v);
    SpreadJoin(Functions(m.mp, n + 1), [Fn(m, n)], v, r.v, r.v + 1);
  }

  lemma {:induction false} NumberedApplication(G: Globals, e: Expr, nt: seq<L.Level>, f: Flags, v: nat, n: nat)
    requires e.Application?
    ensures Spread(Functions(MeaningRule(G, e, nt, f, v).m, n), v, MeaningRule(G, e, nt, f, v).v)
    decreases e, 0
  {
    hide Spread, Evaluate.Meaning, MeaningArgs, Sources, IsTail, NotTail;
    var fe := e.fe;
    var r := if fe.Variable? then Made(Reference(G, true, fe.name, nt), v) else Evaluate.Meaning(G, fe, nt, NotTail(f), v);
    if fe.Variable? {
      SpreadNone(v);
      assert Functions(r.m, n) == [];
    } else {
      Numbered(G, fe, nt, NotTail(f), v, n);
    }
    var q := MeaningArgs(G, e.args, nt, ActualCount(e.args), NotTail(f), r.v);
    NumberedArgs(G, e.args, nt, ActualCount(e.args), NotTail(f), r.v, n + Sources(r.m));
    SpreadJoin(Functions(r.m, n), FunctionsArgs(q.args, n + Sources(r.m)), v, r.v, q.v);
  }

  lemma {:induction false} NumberedClosed(G: Globals, e: Expr, nt: seq<L.Level>, f: Flags, v: nat, n: nat)
    requires e.Closed?
    ensures Spread(Functions(MeaningRule(G, e, nt, f, v).m, n), v, MeaningRule(G, e, nt, f, v).v)
    decreases e, 0
  {
    hide Spread, MeaningEach, MeaningArgs, MeaningDotted, Sources, SourcesArgs, IsTail, NotTail, FormalsOf, ParamTree;
    var k := ActualCount(e.args);
    var q;
    if e.dotted {
      q := MeaningDotted(G, e.args, nt, k, FixedCount(true, e.names), NotTail(f), v);
      NumberedDotted(G, e.args, nt, k, FixedCount(true, e.names), NotTail(f), v, n + 1);
    } else {
      q := MeaningArgs(G, e.args, nt, k, NotTail(f), v);
      NumberedArgs(G, e.args, nt, k, NotTail(f), v, n + 1);
    }
    var ent := ParamTree(e.dotted, e.names, nt);
    var n1 := n + 1 + SourcesArgs(q.args);
    var r := MeaningEach(G, e.body, ent, f, q.v);
    NumberedEach(G, e.body, ent, f, q.v, n1);
    SpreadJoin(FunctionsArgs(q.args, n + 1), FunctionsEach(r.ms, n1), v, q.v, r.v);
  }

  lemma {:induction false} NumberedTwo(G: Globals, e: Expr, nt: seq<L.Level>, f: Flags, v: nat, n: nat)
    requires e.PrimitiveOf2? || e.LocalIn? || e.ScopedIn? || e.TrapIn?
    ensures Spread(Functions(MeaningRule(G, e, nt, f, v).m, n), v, MeaningRule(G, e, nt, f, v).v)
    decreases e, 0
  {
    hide Spread, Evaluate.Meaning, MeaningEach, Sources, IsTail, NotTail, FormalsOf, LocalTree;
    var e1 := if e.PrimitiveOf2? then e.e1 else if e.TrapIn? then e.handler else e.e;
    var r1 := Evaluate.Meaning(G, e1, nt, NotTail(f), v);
    Numbered(G, e1, nt, NotTail(f), v, n);
    var n1 := n + Sources(r1.m) + if e.LocalIn? then 1 else 0;
    if e.PrimitiveOf2? {
      var r2 := Evaluate.Meaning(G, e.e2, nt, NotTail(f), r1.v);
      Numbered(G, e.e2, nt, NotTail(f), r1.v, n1);
      SpreadJoin(Functions(r1.m, n), Functions(r2.m, n1), v, r1.v, r2.v);
    } else {
      var ent := if e.LocalIn? then LocalTree(e.name, nt) else if e.TrapIn? then nt
                 else L.ExtendScoped(nt, e.name, if e.environ then L.Environ else L.Dynamic, e.si);
      var g := if e.LocalIn? then f else NotTail(f);
      var r := MeaningEach(G, e.body, ent, g, r1.v);
      NumberedEach(G, e.body, ent, g, r1.v, n1);
      SpreadJoin(Functions(r1.m, n), FunctionsEach(r.ms, n1), v, r1.v, r.v);
    }
  }

  lemma {:induction false} NumberedEach(G: Globals, es: Exprs, nt: seq<L.Level>, f: Flags, v: nat, n: nat)
    ensures Spread(FunctionsEach(MeaningEach(G, es, nt, f, v).ms, n), v, MeaningEach(G, es, nt, f, v).v)
    decreases es, 2
  {
    hide Spread, Evaluate.Meaning, Functions, Sources, NotTail;
    match es
    case Last(e) => Numbered(G, e, nt, f, v, n);
    case Then(e, rest) =>
      var r := Evaluate.Meaning(G, e, nt, NotTail(f), v);
      var q := MeaningEach(G, rest, nt, f, r.v);
      Numbered(G, e, nt, NotTail(f), v, n);
      NumberedEach(G, rest, nt, f, r.v, n + Sources(r.m));
      SpreadJoin(Functions(r.m, n), FunctionsEach(q.ms, n + Sources(r.m)), v, r.v, q.v);
  }

  lemma {:induction false} NumberedArgs(G: Globals, args: Actuals, nt: seq<L.Level>, arity: nat, f: Flags, v: nat, n: nat)
    ensures Spread(FunctionsArgs(MeaningArgs(G, args, nt, arity, f, v).args, n), v, MeaningArgs(G, args, nt, arity, f, v).v)
    decreases args, 2
  {
    hide Spread, Evaluate.Meaning, Functions, Sources, NotTail;
    match args
    case NoMore => SpreadNone(v);
    case Actual(e, rest) =>
      var r := Evaluate.Meaning(G, e, nt, NotTail(f), v);
      var q := MeaningArgs(G, rest, nt, arity, f, r.v);
      Numbered(G, e, nt, NotTail(f), v, n);
      NumberedArgs(G, rest, nt, arity, f, r.v, n + Sources(r.m));
      SpreadJoin(Functions(r.m, n), FunctionsArgs(q.args, n + Sources(r.m)), v, r.v, q.v);
  }

  lemma {:induction false} NumberedDotted(G: Globals, args: Actuals, nt: seq<L.Level>, nargs: nat, arity: nat, f: Flags, v: nat, n: nat)
    ensures Spread(FunctionsArgs(MeaningDotted(G, args, nt, nargs, arity, f, v).args, n), v, MeaningDotted(G, args, nt, nargs, arity, f, v).v)
    decreases args, 2
  {
    hide Spread, Evaluate.Meaning, Functions, Sources, NotTail;
    match args
    case NoMore => SpreadNone(v);
    case Actual(e, rest) =>
      var r := Evaluate.Meaning(G, e, nt, NotTail(f), v);
      var q := MeaningDotted(G, rest, nt, nargs, arity, f, r.v);
      Numbered(G, e, nt, NotTail(f), v, n);
      NumberedDotted(G, rest, nt, nargs, arity, f, r.v, n + Sources(r.m));
      SpreadJoin(Functions(r.m, n), FunctionsArgs(q.args, n + Sources(r.m)), v, r.v, q.v);
  }

  /** In the program of a form, the closure made from any of its functions runs that function's own body. */
  lemma ClosuresRunTheirBodies(G: Globals, e: Expr, f: Flags, v: nat, n: nat, K: seq<Value>, P: Program, base: nat, i: nat)
    requires !IsTail(f) && Sized(Evaluate.Meaning(G, e, [], f, v).m, K)
    requires i < |Functions(Evaluate.Meaning(G, e, [], f, v).m, n)|
    ensures var m := Evaluate.Meaning(G, e, [], f, v).m;
      var fn := Functions(m, n)[i];
      var Q := WithForm(P, m, K, n, base);
      TailOK(m, false) && Number(fn) in Q.labels && Q.labels[Number(fn)] in Q.funs && Q.funs[Q.labels[Number(fn)]] == fn.node
  {
    hide Evaluate.Meaning, Functions, Sized, TailOK, Added, Number, IsTail, Able;
    var r := Evaluate.Meaning(G, e, [], f, v);
    TailPlaces(G, e, [], f, v);
    Numbered(G, e, [], f, v, n);
    FunctionsAble(r.m, K, n, false);
    OwnBody(P, Functions(r.m, n), K, base, i);
  }
}
