/**
  Whole programs, form after form: every function a machine holds was written somewhere, and a form of the
  source language comes back from the machine with the value the source language gives it.
 */
module WholePrograms {

  import opened Options
  import opened Varuint
  import opened Machine
  import opened Icode
  import opened Meaning
  import opened Correct
  import opened Hoisting
  import opened Source
  import opened SourceCorrect
  import opened Pipeline
  import opened Numbering
  import L = Lexical
  import opened E = Evaluate

  // Where functions come from

  /** Functions and the definitions they were made from, one by one. */
  ghost predicate From(G: Globals, fs: seq<Fn>, defs: seq<Def>) {
    |fs| == |defs| && forall i :: 0 <= i < |fs| ==> WrittenAs(G, defs[i], fs[i].node) && Number(fs[i]) == DefNumber(defs[i])
  }

  lemma FromJoin(G: Globals, a: seq<Fn>, b: seq<Fn>, da: seq<Def>, db: seq<Def>)
    requires From(G, a, da) && From(G, b, db)
    ensures From(G, a + b, da + db)
  {
    hide WrittenAs, Number, DefNumber;
  }

  /** Locals stand inside functions and lets; at top level there is no activation to hold them. */
  predicate Inside(e: Expr, inner: bool) {
    match e
    case Assign(_, e1) => Inside(e1, inner)
    case AssignPlace(call) => Inside(call, inner)
    case If(e1, e2, e3) => Inside(e1, inner) && Inside(e2, inner) && Inside(e3, inner)
    case Block(es) => InsideEach(es, inner)
    case Connective(_, es) => InsideEach(es, inner)
    case NotExpr(e1) => Inside(e1, inner)
    case Function(_, _, body) => InsideEach(body, true)
    case Application(fe, args) => Inside(fe, inner) && InsideArgs(args, inner)
    case Closed(_, _, body, args) => InsideEach(body, true) && InsideArgs(args, inner)
    case LocalIn(_, e1, body) => inner && Inside(e1, inner) && InsideEach(body, inner)
    case PrimitiveOf1(_, e1) => Inside(e1, inner)
    case PrimitiveOf2(_, e1, e2) => Inside(e1, inner) && Inside(e2, inner)
    case ScopedIn(_, _, _, e1, body) => Inside(e1, inner) && InsideEach(body, inner)
    case TrapIn(_, handler, body) => Inside(handler, inner) && InsideEach(body, inner)
    case _ => true
  }

  predicate InsideEach(es: Exprs, inner: bool) {
    match es
    case Last(e) => Inside(e, inner)
    case Then(e, rest) => Inside(e, inner) && InsideEach(rest, inner)
  }

  predicate InsideArgs(args: Actuals, inner: bool) {
    match args
    case NoMore => true
    case Actual(e, rest) => Inside(e, inner) && InsideArgs(rest, inner)
  }

  /** The names in scope where an expression stands. */
  predicate Stands(nt: seq<L.Level>, inner: bool) {
    L.Grown(nt) && (inner ==> L.HasParams(nt))
  }

  lemma StandsInside(dotted: bool, names: seq<L.Name>, nt: seq<L.Level>)
    requires L.Grown(nt) && (dotted ==> names != [])
    ensures Stands(ParamTree(dotted, names, nt), true)
  {
    L.GrownByExtension(nt, if dotted then names else names + [L.Unnamed], L.Unnamed, L.Param, 0);
    assert ParamTree(dotted, names, nt)[0] == L.ParamLevel(if dotted then names else names + [L.Unnamed]);
  }

  lemma StandsScoped(environ: bool, name: L.Name, si: nat, nt: seq<L.Level>, inner: bool)
    requires Stands(nt, inner)
    ensures Stands(L.ExtendScoped(nt, name, if environ then L.Environ else L.Dynamic, si), inner)
    ensures inner ==> Stands(LocalTree(name, nt), inner)
  {
    var sort := if environ then L.Environ else L.Dynamic;
    L.GrownByExtension(nt, [], name, sort, si);
    assert L.ExtendScoped(nt, name, sort, si)[1..] == nt && LocalTree(name, nt)[1..] == nt;
  }

  /** Every function in the I-code of an expression was written in the expression. */
  lemma {:induction false} MadeFromSource(G: Globals, e: Expr, nt: seq<L.Level>, inner: bool, f: Flags, v: nat, n: nat)
    requires Proper(e) && Inside(e, inner) && Stands(nt, inner)
    ensures From(G, Functions(E.Meaning(G, e, nt, f, v).m, n), DefsOf(e, nt, v))
    decreases e, 2
  {
    hide E.Meaning, MeaningEach, MeaningArgs, Sources, SourcesArgs, NotTail, SetTail, IsTail, NoDefine, ToplevelScope, FormalsOf, ParamTree, LocalTree, Stands;
    hide From;
    MeaningByRule(G, e, nt, f, v);
    match e
    case Assign(_, e1) => MadeFromSource(G, e1, nt, inner, NoDefine(NotTail(ToplevelScope(f))), v, n);
    case AssignPlace(call) => MadeFromSource(G, call, nt, inner, NoDefine(ToplevelScope(f)), v, n);
    case NotExpr(e1) => MadeFromSource(G, e1, nt, inner, NotTail(f), v, n);
    case PrimitiveOf1(_, e1) => MadeFromSource(G, e1, nt, inner, NotTail(f), v, n);
    case Block(es) => EachFromSource(G, es, nt, inner, f, v, n);
    case Connective(_, es) => EachFromSource(G, es, nt, inner, f, v, n);
    case If(_, _, _) => FromIf(G, e, nt, inner, f, v, n);
    case Function(_, _, _) => FromFunction(G, e, nt, inner, f, v, n);
    case Application(_, _) => FromApplication(G, e, nt, inner, f, v, n);
    case Closed(_, _, _, _) => FromClosed(G, e, nt, inner, f, v, n);
    case PrimitiveOf2(_, _, _) => FromPair(G, e, nt, inner, f, v, n);
    case LocalIn(_, _, _) => FromLocal(G, e, nt, inner, f, v, n);
    case ScopedIn(_, _, _, _, _) => FromScoped(G, e, nt, inner, f, v, n);
    case TrapIn(_, _, _) => FromTrap(G, e, nt, inner, f, v, n);
    case _ => NoneFromSource(G);
  }

  lemma NoneFromSource(G: Globals)
    ensures From(G, [], [])
  {
  }

  lemma {:induction false} FromIf(G: Globals, e: Expr, nt: seq<L.Level>, inner: bool, f: Flags, v: nat, n: nat)
    requires e.If? && Proper(e) && Inside(e, inner) && Stands(nt, inner)
    ensures From(G, Functions(MeaningRule(G, e, nt, f, v).m, n), DefsOf(e, nt, v))
    decreases e, 0
  {
    hide E.Meaning, Sources, NotTail, Stands, From;
    var r1 := E.Meaning(G, e.e1, nt, NotTail(f), v);
    var r2 := E.Meaning(G, e.e2, nt, f, r1.v);
    var r3 := E.Meaning(G, e.e3, nt, f, r2.v);
    var n2 := n + 1 + Sources(r1.m);
    MadeFromSource(G, e.e1, nt, inner, NotTail(f), v, n + 1);
    MadeFromSource(G, e.e2, nt, inner, f, r1.v, n2);
    MadeFromSource(G, e.e3, nt, inner, f, r2.v, n2 + Sources(r2.m));
    CountIs(G, e.e1, nt, NotTail(f), v);
    CountIs(G, e.e2, nt, f, r1.v);
    var d1, d2, d3 := DefsOf(e.e1, nt, v), DefsOf(e.e2, nt, r1.v), DefsOf(e.e3, nt, r2.v);
    FromJoin(G, Functions(r2.m, n2), Functions(r3.m, n2 + Sources(r2.m)), d2, d3);
    FromJoin(G, Functions(r1.m, n + 1), Functions(r2.m, n2) + Functions(r3.m, n2 + Sources(r2.m)), d1, d2 + d3);
  }

  lemma {:induction false} FromFunction(G: Globals, e: Expr, nt: seq<L.Level>, inner: bool, f: Flags, v: nat, n: nat)
    requires e.Function? && Proper(e) && Inside(e, inner) && Stands(nt, inner)
    ensures From(G, Functions(MeaningRule(G, e, nt, f, v).m, n), DefsOf(e, nt, v))
    decreases e, 0
  {
    hide E.Meaning, MeaningEach, SetTail, FormalsOf, ParamTree, From;
    var ent, m := ParamTree(e.dotted, e.names, nt), MeaningRule(G, e, nt, f, v).m;
    StandsInside(e.dotted, e.names, nt);
    EachFromSource(G, e.body, ent, true, SetTail(f), v, n + 1);
    MeaningByRule(G, e, nt, f, v);
    CountsAre(G, e.body, ent, SetTail(f), v);
    var def := Def(e.dotted, e.names, e.body, nt, v);
    OneFromSource(G, Fn(m, n), def, f);
    FromJoin(G, Functions(m.mp, n + 1), [Fn(m, n)], DefsEach(e.body, ent, v), [def]);
  }

  lemma OneFromSource(G: Globals, fn: Fn, def: Def, f: Flags)
    requires (def.dotted ==> def.names != []) && ProperEach(def.body) && L.Grown(def.scope)
    requires fn.node == E.Meaning(G, Function(def.dotted, def.names, def.body), def.scope, f, def.v).m && Number(fn) == DefNumber(def)
    ensures From(G, [fn], [def])
  {
    hide E.Meaning;
    assert WrittenAs(G, def, fn.node);
  }

  lemma {:induction false} FromApplication(G: Globals, e: Expr, nt: seq<L.Level>, inner: bool, f: Flags, v: nat, n: nat)
    requires e.Application? && Proper(e) && Inside(e, inner) && Stands(nt, inner)
    ensures From(G, Functions(MeaningRule(G, e, nt, f, v).m, n), DefsOf(e, nt, v))
    decreases e, 0
  {
    hide E.Meaning, MeaningArgs, Sources, IsTail, NotTail, From, Stands;
    var fe := e.fe;
    var r := if fe.Variable? then Made(Reference(G, true, fe.name, nt), v) else E.Meaning(G, fe, nt, NotTail(f), v);
    if fe.Variable? {
      NoneFromSource(G);
      assert Functions(r.m, n) == [];
    } else {
      MadeFromSource(G, fe, nt, inner, NotTail(f), v, n);
    }
    var q := MeaningArgs(G, e.args, nt, ActualCount(e.args), NotTail(f), r.v);
    ArgsFromSource(G, e.args, nt, inner, ActualCount(e.args), NotTail(f), r.v, n + Sources(r.m));
    if fe.Variable? {
      assert FnCount(fe) == 0 && DefsOf(fe, nt, v) == [];
    } else {
      CountIs(G, fe, nt, NotTail(f), v);
    }
    FromJoin(G, Functions(r.m, n), FunctionsArgs(q.args, n + Sources(r.m)), DefsOf(fe, nt, v), DefsArgs(e.args, nt, r.v));
  }

  lemma {:induction false} FromClosed(G: Globals, e: Expr, nt: seq<L.Level>, inner: bool, f: Flags, v: nat, n: nat)
    requires e.Closed? && Proper(e) && Inside(e, inner) && Stands(nt, inner)
    ensures From(G, Functions(MeaningRule(G, e, nt, f, v).m, n), DefsOf(e, nt, v))
    decreases e, 0
  {
    hide MeaningEach, MeaningArgs, MeaningDotted, Sources, SourcesArgs, IsTail, NotTail, FormalsOf, ParamTree, From;
    var k := ActualCount(e.args);
    var q;
    if e.dotted {
      q := MeaningDotted(G, e.args, nt, k, FixedCount(true, e.names), NotTail(f), v);
      DottedFromSource(G, e.args, nt, inner, k, FixedCount(true, e.names), NotTail(f), v, n + 1);
      DottedCount(G, e.args, nt, k, FixedCount(true, e.names), NotTail(f), v);
    } else {
      q := MeaningArgs(G, e.args, nt, k, NotTail(f), v);
      ArgsFromSource(G, e.args, nt, inner, k, NotTail(f), v, n + 1);
      ArgsCount(G, e.args, nt, k, NotTail(f), v);
    }
    var ent := ParamTree(e.dotted, e.names, nt);
    var n1 := n + 1 + SourcesArgs(q.args);
    var r := MeaningEach(G, e.body, ent, f, q.v);
    StandsInside(e.dotted, e.names, nt);
    EachFromSource(G, e.body, ent, true, f, q.v, n1);
    FromJoin(G, FunctionsArgs(q.args, n + 1), FunctionsEach(r.ms, n1), DefsArgs(e.args, nt, v), DefsEach(e.body, ent, q.v));
  }

  lemma {:induction false} FromPair(G: Globals, e: Expr, nt: seq<L.Level>, inner: bool, f: Flags, v: nat, n: nat)
    requires e.PrimitiveOf2? && Proper(e) && Inside(e, inner) && Stands(nt, inner)
    ensures From(G, Functions(MeaningRule(G, e, nt, f, v).m, n), DefsOf(e, nt, v))
    decreases e, 0
  {
    hide E.Meaning, Sources, NotTail, From, Stands;
    var r1 := E.Meaning(G, e.e1, nt, NotTail(f), v);
    var n1 := n + Sources(r1.m);
    MadeFromSource(G, e.e1, nt, inner, NotTail(f), v, n);
    CountIs(G, e.e1, nt, NotTail(f), v);
    MadeFromSource(G, e.e2, nt, inner, NotTail(f), r1.v, n1);
    FromJoin(G, Functions(r1.m, n), Functions(E.Meaning(G, e.e2, nt, NotTail(f), r1.v).m, n1), DefsOf(e.e1, nt, v), DefsOf(e.e2, nt, r1.v));
  }

  /** An expression, then a body in another scope. */
  lemma {:induction false} FromParts(G: Globals, whole: Expr, e1: Expr, body: Exprs, nt: seq<L.Level>, ent: seq<L.Level>, inner: bool, f: Flags, g: Flags, v: nat, n: nat, more: nat)
    requires match whole
      case LocalIn(_, x, b) => x == e1 && b == body
      case ScopedIn(_, _, _, x, b) => x == e1 && b == body
      case TrapIn(_, x, b) => x == e1 && b == body
      case _ => false
    requires Proper(e1) && Inside(e1, inner) && Stands(nt, inner) && ProperEach(body) && InsideEach(body, inner) && Stands(ent, inner)
    ensures var r1 := E.Meaning(G, e1, nt, f, v);
      var r := MeaningEach(G, body, ent, g, r1.v);
      && r1.v == v + FnCount(e1)
      && From(G, Functions(r1.m, n) + FunctionsEach(r.ms, n + Sources(r1.m) + more), DefsOf(e1, nt, v) + DefsEach(body, ent, v + FnCount(e1)))
    decreases whole, 0
  {
    hide E.Meaning, MeaningEach, Sources, From, Stands, Proper, Inside, Functions, DefsOf;
    var r1 := E.Meaning(G, e1, nt, f, v);
    var n1 := n + Sources(r1.m) + more;
    MadeFromSource(G, e1, nt, inner, f, v, n);
    CountIs(G, e1, nt, f, v);
    EachFromSource(G, body, ent, inner, g, r1.v, n1);
    FromJoin(G, Functions(r1.m, n), FunctionsEach(MeaningEach(G, body, ent, g, r1.v).ms, n1), DefsOf(e1, nt, v), DefsEach(body, ent, r1.v));
  }

  lemma {:induction false} FromLocal(G: Globals, e: Expr, nt: seq<L.Level>, inner: bool, f: Flags, v: nat, n: nat)
    requires e.LocalIn? && Proper(e) && Inside(e, inner) && Stands(nt, inner)
    ensures From(G, Functions(MeaningRule(G, e, nt, f, v).m, n), DefsOf(e, nt, v))
    decreases e, 1
  {
    hide E.Meaning, MeaningEach, Sources, IsTail, NotTail, FormalsOf, LocalTree, From, Stands, DefsEach, FunctionsEach, ProperEach, InsideEach;
    StandsScoped(false, e.name, 0, nt, inner);
    FromParts(G, e, e.e, e.body, nt, LocalTree(e.name, nt), inner, NotTail(f), f, v, n, 1);
  }

  lemma {:induction false} FromScoped(G: Globals, e: Expr, nt: seq<L.Level>, inner: bool, f: Flags, v: nat, n: nat)
    requires e.ScopedIn? && Proper(e) && Inside(e, inner) && Stands(nt, inner)
    ensures From(G, Functions(MeaningRule(G, e, nt, f, v).m, n), DefsOf(e, nt, v))
    decreases e, 1
  {
    hide E.Meaning, MeaningEach, Sources, IsTail, NotTail, FormalsOf, LocalTree, From, Stands, DefsEach, FunctionsEach, ProperEach, InsideEach;
    StandsScoped(e.environ, e.name, e.si, nt, inner);
    FromParts(G, e, e.e, e.body, nt, L.ExtendScoped(nt, e.name, if e.environ then L.Environ else L.Dynamic, e.si), inner, NotTail(f), NotTail(f), v, n, 0);
  }

  lemma {:induction false} FromTrap(G: Globals, e: Expr, nt: seq<L.Level>, inner: bool, f: Flags, v: nat, n: nat)
    requires e.TrapIn? && Proper(e) && Inside(e, inner) && Stands(nt, inner)
    ensures From(G, Functions(MeaningRule(G, e, nt, f, v).m, n), DefsOf(e, nt, v))
    decreases e, 1
  {
    hide E.Meaning, MeaningEach, Sources, IsTail, NotTail, FormalsOf, LocalTree, From, Stands, DefsEach, FunctionsEach, ProperEach, InsideEach;
    FromParts(G, e, e.handler, e.body, nt, nt, inner, NotTail(f), NotTail(f), v, n, 0);
  }

  lemma {:induction false} EachFromSource(G: Globals, es: Exprs, nt: seq<L.Level>, inner: bool, f: Flags, v: nat, n: nat)
    requires ProperEach(es) && InsideEach(es, inner) && Stands(nt, inner)
    ensures From(G, FunctionsEach(MeaningEach(G, es, nt, f, v).ms, n), DefsEach(es, nt, v))
    decreases es, 2
  {
    hide E.Meaning, Functions, Sources, NotTail, From, Stands, Proper, Inside;
    match es
    case Last(e) => MadeFromSource(G, e, nt, inner, f, v, n);
    case Then(e, rest) =>
      var r := E.Meaning(G, e, nt, NotTail(f), v);
      MadeFromSource(G, e, nt, inner, NotTail(f), v, n);
      EachFromSource(G, rest, nt, inner, f, r.v, n + Sources(r.m));
      CountIs(G, e, nt, NotTail(f), v);
      FromJoin(G, Functions(r.m, n), FunctionsEach(MeaningEach(G, rest, nt, f, r.v).ms, n + Sources(r.m)), DefsOf(e, nt, v), DefsEach(rest, nt, r.v));
  }

  lemma {:induction false} ArgsFromSource(G: Globals, args: Actuals, nt: seq<L.Level>, inner: bool, arity: nat, f: Flags, v: nat, n: nat)
    requires ProperArgs(args) && InsideArgs(args, inner) && Stands(nt, inner)
    ensures From(G, FunctionsArgs(MeaningArgs(G, args, nt, arity, f, v).args, n), DefsArgs(args, nt, v))
    decreases args, 2
  {
    hide E.Meaning, Functions, Sources, NotTail, From, Stands, Proper, Inside;
    match args
    case NoMore => NoneFromSource(G);
    case Actual(e, rest) =>
      var r := E.Meaning(G, e, nt, NotTail(f), v);
      MadeFromSource(G, e, nt, inner, NotTail(f), v, n);
      ArgsFromSource(G, rest, nt, inner, arity, f, r.v, n + Sources(r.m));
      CountIs(G, e, nt, NotTail(f), v);
      FromJoin(G, Functions(r.m, n), FunctionsArgs(MeaningArgs(G, rest, nt, arity, f, r.v).args, n + Sources(r.m)), DefsOf(e, nt, v), DefsArgs(rest, nt, r.v));
  }

  lemma {:induction false} DottedFromSource(G: Globals, args: Actuals, nt: seq<L.Level>, inner: bool, nargs: nat, arity: nat, f: Flags, v: nat, n: nat)
    requires ProperArgs(args) && InsideArgs(args, inner) && Stands(nt, inner)
    ensures From(G, FunctionsArgs(MeaningDotted(G, args, nt, nargs, arity, f, v).args, n), DefsArgs(args, nt, v))
    decreases args, 2
  {
    hide E.Meaning, Functions, Sources, NotTail, From, Stands, Proper, Inside;
    match args
    case NoMore => NoneFromSource(G);
    case Actual(e, rest) =>
      var r := E.Meaning(G, e, nt, NotTail(f), v);
      MadeFromSource(G, e, nt, inner, NotTail(f), v, n);
      DottedFromSource(G, rest, nt, inner, nargs, arity, f, r.v, n + Sources(r.m));
      CountIs(G, e, nt, NotTail(f), v);
      FromJoin(G, Functions(r.m, n), FunctionsArgs(MeaningDotted(G, rest, nt, nargs, arity, f, r.v).args, n + Sources(r.m)), DefsOf(e, nt, v), DefsArgs(rest, nt, r.v));
  }

  // Libraries grow with the program

  /** At first there is nothing. */
  lemma NothingMatches(G: Globals, prim: (nat, seq<Value>) -> Option<Value>)
    ensures Matches(Library(G, map[], map[], prim), Program(map[], map[], prim))
  {
  }

  /** A library with the definitions of a row of blocks at base added. */
  function Extended(S: Library, fs: seq<Fn>, defs: seq<Def>, K: seq<Value>, base: nat): (T: Library)
    requires |fs| == |defs|
    decreases |fs|
  {
    if fs == [] then S
    else
      var entry := EntryAt(fs[0], K, base);
      Extended(Library(S.G, S.labels[Number(fs[0]) := entry], S.defs[entry := defs[0]], S.prim), fs[1..], defs[1..], K, NextBase(fs[0], K, base))
  }

  /** What it holds stays what the program holds. */
  lemma {:induction false} ExtendedMatches(S: Library, P: Program, fs: seq<Fn>, defs: seq<Def>, K: seq<Value>, base: nat)
    requires Matches(S, P) && From(S.G, fs, defs)
    ensures Extended(S, fs, defs, K, base).G == S.G && Matches(Extended(S, fs, defs, K, base), Added(P, fs, K, base))
    decreases |fs|
  {
    hide WrittenAs, Number, DefNumber;
    if fs != [] {
      var entry := EntryAt(fs[0], K, base);
      ExtendedMatches(Library(S.G, S.labels[Number(fs[0]) := entry], S.defs[entry := defs[0]], S.prim),
                      Program(P.labels[Number(fs[0]) := entry], P.funs[entry := fs[0].node], P.prim), fs[1..], defs[1..], K, NextBase(fs[0], K, base));
    }
  }

  lemma {:induction false} ExtendedKeeps(S: Library, fs: seq<Fn>, defs: seq<Def>, K: seq<Value>, base: nat, number: nat, def: Def)
    requires |fs| == |defs| && AllAble(fs, K) && Leads(S, number, def) && S.labels[number] < base
    requires forall i :: 0 <= i < |fs| ==> Number(fs[i]) != number
    ensures Leads(Extended(S, fs, defs, K, base), number, def)
    decreases |fs|
  {
    hide Able, Number, EntryAt, NextBase;
    if fs != [] {
      EntryAfter(fs[0], K, base);
      EntryInside(fs[0], K, base);
      var entry := EntryAt(fs[0], K, base);
      assert forall i :: 0 <= i < |fs[1..]| ==> fs[1..][i] == fs[i + 1];
      ExtendedKeeps(Library(S.G, S.labels[Number(fs[0]) := entry], S.defs[entry := defs[0]], S.prim), fs[1..], defs[1..], K, NextBase(fs[0], K, base), number, def);
    }
  }

  lemma EntryAfter(fn: Fn, K: seq<Value>, base: nat)
    ensures EntryAt(fn, K, base) >= base
  {
  }

  lemma {:induction false} ExtendedLeads(S: Library, fs: seq<Fn>, defs: seq<Def>, K: seq<Value>, base: nat, i: nat)
    requires |fs| == |defs| && AllAble(fs, K) && i < |fs|
    requires forall j, k :: 0 <= j < k < |fs| ==> Number(fs[j]) != Number(fs[k])
    ensures Leads(Extended(S, fs, defs, K, base), Number(fs[i]), defs[i])
    decreases |fs|
  {
    hide Able, Number, EntryAt, NextBase;
    var entry := EntryAt(fs[0], K, base);
    var T := Library(S.G, S.labels[Number(fs[0]) := entry], S.defs[entry := defs[0]], S.prim);
    assert forall k :: 0 <= k < |fs[1..]| ==> fs[1..][k] == fs[k + 1];
    if i == 0 {
      EntryInside(fs[0], K, base);
      ExtendedKeeps(T, fs[1..], defs[1..], K, NextBase(fs[0], K, base), Number(fs[0]), defs[0]);
    } else {
      ExtendedLeads(T, fs[1..], defs[1..], K, NextBase(fs[0], K, base), i - 1);
    }
  }

  /** The library with the functions of a form. */
  function WithSource(S: Library, e: Expr, f: Flags, v: nat, K: seq<Value>, n: nat, base: nat): Library
  {
    var fs, defs := Functions(Form(S.G, e, f, v), n), DefsOf(e, [], v);
    if |fs| == |defs| then Extended(S, fs, defs, K, base) else S
  }

  /** Form after form, library and program hold the same functions. */
  lemma FormMatches(S: Library, P: Program, e: Expr, f: Flags, v: nat, K: seq<Value>, n: nat, base: nat)
    requires Matches(S, P) && Proper(e) && Inside(e, false)
    ensures WithSource(S, e, f, v, K, n, base).G == S.G
    ensures Matches(WithSource(S, e, f, v, K, n, base), WithForm(P, Form(S.G, e, f, v), K, n, base))
  {
    hide Matches, Proper, Inside, E.Meaning, Functions, DefsOf, Added, Extended, WrittenAs;
    MadeFromSource(S.G, e, [], false, f, v, n);
    ExtendedMatches(S, P, Functions(Form(S.G, e, f, v), n), DefsOf(e, [], v), K, base);
  }

  lemma {:induction false} ExtendedCalm(S: Library, fs: seq<Fn>, defs: seq<Def>, K: seq<Value>, base: nat)
    requires CalmLibrary(S) && |fs| == |defs| && forall i :: 0 <= i < |defs| ==> CalmDef(S.G, defs[i])
    ensures CalmLibrary(Extended(S, fs, defs, K, base))
    decreases |fs|
  {
    hide CalmDef;
    if fs != [] {
      var entry := EntryAt(fs[0], K, base);
      ExtendedCalm(Library(S.G, S.labels[Number(fs[0]) := entry], S.defs[entry := defs[0]], S.prim), fs[1..], defs[1..], K, NextBase(fs[0], K, base));
    }
  }

  /** The functions in a calm expression are calm. */
  lemma {:induction false} DefsCalm(G: Globals, e: Expr, scope: seq<L.Level>, v: nat)
    requires Calm(G, e, scope)
    ensures forall i :: 0 <= i < |DefsOf(e, scope, v)| ==> CalmDef(G, DefsOf(e, scope, v)[i])
    decreases e
  {
    hide ParamTree, LocalTree;
    match e
    case Assign(_, e1) => DefsCalm(G, e1, scope, v);
    case AssignPlace(call) => DefsCalm(G, call, scope, v);
    case If(e1, e2, e3) =>
      DefsCalm(G, e1, scope, v);
      DefsCalm(G, e2, scope, v + FnCount(e1));
      DefsCalm(G, e3, scope, v + FnCount(e1) + FnCount(e2));
    case Block(es) => DefsCalmEach(G, es, scope, v);
    case Connective(_, es) => DefsCalmEach(G, es, scope, v);
    case NotExpr(e1) => DefsCalm(G, e1, scope, v);
    case Function(dotted, names, body) => DefsCalmEach(G, body, ParamTree(dotted, names, scope), v);
    case Application(fe, args) =>
      DefsCalm(G, fe, scope, v);
      DefsCalmArgs(G, args, scope, v + FnCount(fe));
    case Closed(dotted, names, body, args) =>
      DefsCalmArgs(G, args, scope, v);
      DefsCalmEach(G, body, ParamTree(dotted, names, scope), v + FnCountArgs(args));
    case LocalIn(name, e1, body) =>
      DefsCalm(G, e1, scope, v);
      DefsCalmEach(G, body, LocalTree(name, scope), v + FnCount(e1));
    case PrimitiveOf1(_, e1) => DefsCalm(G, e1, scope, v);
    case PrimitiveOf2(_, e1, e2) =>
      DefsCalm(G, e1, scope, v);
      DefsCalm(G, e2, scope, v + FnCount(e1));
    case ScopedIn(environ, name, si, e1, body) =>
      DefsCalm(G, e1, scope, v);
      DefsCalmEach(G, body, L.ExtendScoped(scope, name, if environ then L.Environ else L.Dynamic, si), v + FnCount(e1));
    case TrapIn(_, handler, body) =>
      DefsCalm(G, handler, scope, v);
      DefsCalmEach(G, body, scope, v + FnCount(handler));
    case _ =>
  }

  lemma {:induction false} DefsCalmEach(G: Globals, es: Exprs, scope: seq<L.Level>, v: nat)
    requires CalmEach(G, es, scope)
    ensures forall i :: 0 <= i < |DefsEach(es, scope, v)| ==> CalmDef(G, DefsEach(es, scope, v)[i])
    decreases es
  {
    hide DefsOf, Calm, CalmDef;
    match es
    case Last(e) => DefsCalm(G, e, scope, v);
    case Then(e, rest) =>
      DefsCalm(G, e, scope, v);
      DefsCalmEach(G, rest, scope, v + FnCount(e));
  }

  lemma {:induction false} DefsCalmArgs(G: Globals, args: Actuals, scope: seq<L.Level>, v: nat)
    requires CalmArgs(G, args, scope)
    ensures forall i :: 0 <= i < |DefsArgs(args, scope, v)| ==> CalmDef(G, DefsArgs(args, scope, v)[i])
    decreases args
  {
    hide DefsOf, Calm, CalmDef;
    if args.Actual? {
      DefsCalm(G, args.e, scope, v);
      DefsCalmArgs(G, args.rest, scope, v + FnCount(args.e));
    }
  }

  /** Form after form, a library stays calm. */
  lemma FormCalm(S: Library, e: Expr, f: Flags, v: nat, K: seq<Value>, n: nat, base: nat)
    requires CalmLibrary(S) && Calm(S.G, e, [])
    ensures CalmLibrary(WithSource(S, e, f, v, K, n, base))
  {
    hide CalmLibrary, Calm, CalmDef, Extended, Functions, DefsOf, E.Meaning;
    DefsCalm(S.G, e, [], v);
    var fs, defs := Functions(Form(S.G, e, f, v), n), DefsOf(e, [], v);
    if |fs| == |defs| {
      ExtendedCalm(S, fs, defs, K, base);
    }
  }

  /** Every function written in a form is found in it by its number: making a closure never goes wrong. */
  lemma FormLeads(S: Library, e: Expr, f: Flags, v: nat, K: seq<Value>, n: nat, base: nat, i: nat)
    requires Proper(e) && Inside(e, false) && Sized(Form(S.G, e, f, v), K) && !IsTail(f) && i < |DefsOf(e, [], v)|
    ensures Leads(WithSource(S, e, f, v, K, n, base), DefNumber(DefsOf(e, [], v)[i]), DefsOf(e, [], v)[i])
  {
    hide Proper, Inside, E.Meaning, Functions, DefsOf, Extended, WrittenAs, Leads, Sized, IsTail, Able, Number, DefNumber;
    var fs := Functions(Form(S.G, e, f, v), n);
    MadeFromSource(S.G, e, [], false, f, v, n);
    TailPlaces(S.G, e, [], f, v);
    FunctionsAble(Form(S.G, e, f, v), K, n, false);
    Numbered(S.G, e, [], f, v, n);
    ExtendedLeads(S, fs, DefsOf(e, [], v), K, base, i);
  }

  /** So a function has a value wherever it is written. */
  lemma FunctionHasValue(S: Library, e: Expr, scope: seq<L.Level>, env: Ribs, f: Link, v: nat, d: Scope, st: Store, fuel: nat)
    requires e.Function? && RibsOf(scope, st.frames, f) == Some(env)
    requires Leads(S, v + FnCounts(e.body), Def(e.dotted, e.names, e.body, scope, v))
    ensures SEval(S, e, env, f, v, d, st, fuel) == Result.Had(Closure(S.labels[v + FnCounts(e.body)], f), st, d, true)
  {
    hide SEval, RibsOf;
    SByRule(S, e, env, f, v, d, st, fuel);
  }

  /** And what it has is a closure of the function as it is written, over the activation whose names are in scope there. */
  lemma OnlyOwnFunction(S: Library, e: Expr, env: Ribs, f: Link, v: nat, d: Scope, st: Store, fuel: nat)
    requires e.Function? && SEval(S, e, env, f, v, d, st, fuel).Had?
    ensures var c := SEval(S, e, env, f, v, d, st, fuel).v;
      && c.Closure? && c.env == f && c.entry in S.defs
      && var def := S.defs[c.entry];
         def.dotted == e.dotted && def.names == e.names && def.body == e.body && def.v == v && RibsOf(def.scope, st.frames, f) == Some(env)
  {
    hide SEval, RibsOf;
    SByRule(S, e, env, f, v, d, st, fuel);
  }

  /**
    The whole chain: evaluator, generator, machine and frames.  The code of any top-level expression that has a
    value in the source language comes back to its return address with that value and those effects, and leaves
    nothing behind on the stack; one that faults in the source language halts the machine.  This holds if the run
    assigns no variable whose dynamic or environment binding is in force, or if no such variable is assigned anywhere
    in the form and the functions there are.
   */
  lemma RunsSource(S: Library, e: Expr, f: Flags, v: nat, P: Program, im: Image, n: nat, s: State, fuel: nat) returns (t: State)
    requires !IsTail(f) && Proper(e) && Inside(e, false) && Matches(S, P) && Sized(Form(S.G, e, f, v), im.consts) && Linked(P, im, s.store.values) && Returnable(true, s)
    requires At(im.code, s.pc, Blocks(Form(S.G, e, f, v), im.consts, n) + TopCode(Form(S.G, e, f, v), im.consts, n))
    requires SourceValue(S, e, f, v, im, n, s, fuel).kept || (Calm(S.G, e, []) && CalmLibrary(S))
    ensures var r := SourceValue(S, e, f, v, im, n, s, fuel);
      if r.Had? then
        && Reaches(im, s, t) && t.pc == s.stack.top.pc && t.stack == s.stack.rest && t.val == r.v && t.store == r.st
        && Linked(WithForm(P, Form(S.G, e, f, v), im.consts, n, s.pc), im, t.store.values)
      else Fails(im, s, r.why, fuel)
    ensures Matches(WithSource(S, e, f, v, im.consts, n, s.pc), WithForm(P, Form(S.G, e, f, v), im.consts, n, s.pc))
  {
    hide Reaches, Linked, Emit, Blocks, TopCode, Eval, SEval, Sized, WithForm, WithFunctions, ScopeOf, At, Returnable, Matches, Proper, IsTail, WithSource, Inside, Calm, CalmLibrary, Fails;
    var m := Form(S.G, e, f, v);
    FormMatches(S, P, e, f, v, im.consts, n, s.pc);
    if Calm(S.G, e, []) && CalmLibrary(S) {
      FormCalm(S, e, f, v, im.consts, n, s.pc);
    }
    Faithful(WithSource(S, e, f, v, im.consts, n, s.pc), WithForm(P, m, im.consts, n, s.pc), e, [], [], NoFrame, f, v, ScopeOf(s.stack),
             WithFunctions(s.store, m, im.consts, n, s.pc, s.frame), fuel);
    t := RunsExpression(S.G, e, f, v, P, im, n, s, fuel);
    FailsAnyhow(im, s, fuel);
  }

  /** The value a form has in the source language when the machine is about to run it, with its functions in the library. */
  function SourceValue(S: Library, e: Expr, f: Flags, v: nat, im: Image, n: nat, s: State, fuel: nat): Result {
    SEval(WithSource(S, e, f, v, im.consts, n, s.pc), e, [], NoFrame, v, ScopeOf(s.stack), WithFunctions(s.store, Form(S.G, e, f, v), im.consts, n, s.pc, s.frame), fuel)
  }
}
