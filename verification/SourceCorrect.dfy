/** The evaluator preserves meaning: the I-code of an expression has the value the expression has. */
module SourceCorrect {

  import opened Options
  import opened Machine
  import opened Icode
  import opened Meaning
  import opened Keeping
  import opened ArgumentFrames
  import opened Source
  import L = Lexical
  import opened E = Evaluate

  // Numbers of functions

  lemma {:induction false} CountIs(G: Globals, e: Expr, nt: seq<L.Level>, f: Flags, v: nat)
    ensures E.Meaning(G, e, nt, f, v).v == v + FnCount(e)
    decreases e, 1
  {
    hide E.Meaning, Reference, Assignment, IsTail, SetTail, NotTail, NoDefine, ToplevelScope;
    MeaningByRule(G, e, nt, f, v);
    match e
    case Assign(_, e1) => CountIs(G, e1, nt, NoDefine(NotTail(ToplevelScope(f))), v);
    case AssignPlace(call) => CountIs(G, call, nt, NoDefine(ToplevelScope(f)), v);
    case If(e1, e2, e3) =>
      CountIs(G, e1, nt, NotTail(f), v);
      CountIs(G, e2, nt, f, v + FnCount(e1));
      CountIs(G, e3, nt, f, v + FnCount(e1) + FnCount(e2));
    case Block(es) => CountsAre(G, es, nt, f, v);
    case Connective(_, es) => CountsAre(G, es, nt, f, v);
    case NotExpr(e1) => CountIs(G, e1, nt, NotTail(f), v);
    case Function(dotted, names, body) => CountsAre(G, body, ParamTree(dotted, names, nt), SetTail(f), v);
    case Application(_, _) => CountCall(G, e, nt, f, v);
    case Closed(_, _, _, _) => CountCall(G, e, nt, f, v);
    case LocalIn(name, e1, body) =>
      CountIs(G, e1, nt, NotTail(f), v);
      CountsAre(G, body, LocalTree(name, nt), f, v + FnCount(e1));
    case PrimitiveOf1(_, e1) => CountIs(G, e1, nt, NotTail(f), v);
    case PrimitiveOf2(_, e1, e2) =>
      CountIs(G, e1, nt, NotTail(f), v);
      CountIs(G, e2, nt, NotTail(f), v + FnCount(e1));
    case ScopedIn(_, _, _, _, _) => CountScoped(G, e, nt, f, v);
    case TrapIn(_, _, _) => CountScoped(G, e, nt, f, v);
    case _ =>
  }

  lemma {:induction false} CountCall(G: Globals, e: Expr, nt: seq<L.Level>, f: Flags, v: nat)
    requires e.Application? || e.Closed?
    ensures MeaningRule(G, e, nt, f, v).v == v + FnCount(e)
    decreases e, 0
  {
    hide E.Meaning, Reference, IsTail, NotTail;
    match e
    case Application(fe, args) =>
      CountIs(G, fe, nt, NotTail(f), v);
      ArgsCount(G, args, nt, ActualCount(args), NotTail(f), v + FnCount(fe));
    case Closed(dotted, names, body, args) =>
      if dotted {
        DottedCount(G, args, nt, ActualCount(args), FixedCount(true, names), NotTail(f), v);
      } else {
        ArgsCount(G, args, nt, ActualCount(args), NotTail(f), v);
      }
      CountsAre(G, body, ParamTree(dotted, names, nt), f, v + FnCountArgs(args));
  }

  lemma {:induction false} CountScoped(G: Globals, e: Expr, nt: seq<L.Level>, f: Flags, v: nat)
    requires e.ScopedIn? || e.TrapIn?
    ensures MeaningRule(G, e, nt, f, v).v == v + FnCount(e)
    decreases e, 0
  {
    hide E.Meaning, IsTail, NotTail;
    match e
    case ScopedIn(environ, name, si, e1, body) =>
      CountIs(G, e1, nt, NotTail(f), v);
      CountsAre(G, body, L.ExtendScoped(nt, name, if environ then L.Environ else L.Dynamic, si), NotTail(f), v + FnCount(e1));
    case TrapIn(_, handler, body) =>
      CountIs(G, handler, nt, NotTail(f), v);
      CountsAre(G, body, nt, NotTail(f), v + FnCount(handler));
  }

  lemma {:induction false} CountsAre(G: Globals, es: Exprs, nt: seq<L.Level>, f: Flags, v: nat)
    ensures MeaningEach(G, es, nt, f, v).v == v + FnCounts(es)
    decreases es, 2
  {
    hide E.Meaning, NotTail;
    match es
    case Last(e) => CountIs(G, e, nt, f, v);
    case Then(e, rest) =>
      CountIs(G, e, nt, NotTail(f), v);
      CountsAre(G, rest, nt, f, v + FnCount(e));
  }

  lemma {:induction false} ArgsCount(G: Globals, args: Actuals, nt: seq<L.Level>, arity: nat, f: Flags, v: nat)
    ensures MeaningArgs(G, args, nt, arity, f, v).v == v + FnCountArgs(args)
    decreases args, 2
  {
    hide E.Meaning, NotTail;
    if args.Actual? {
      CountIs(G, args.e, nt, NotTail(f), v);
      ArgsCount(G, args.rest, nt, arity, f, v + FnCount(args.e));
    }
  }

  lemma {:induction false} DottedCount(G: Globals, args: Actuals, nt: seq<L.Level>, nargs: nat, arity: nat, f: Flags, v: nat)
    ensures MeaningDotted(G, args, nt, nargs, arity, f, v).v == v + FnCountArgs(args)
    decreases args, 2
  {
    hide E.Meaning, NotTail;
    if args.Actual? {
      CountIs(G, args.e, nt, NotTail(f), v);
      DottedCount(G, args.rest, nt, nargs, arity, f, v + FnCount(args.e));
    }
  }

  // Names and addresses

  /** A parameter's last occurrence is what a search of its level finds. */
  lemma {:induction false} LastIs(level: L.Level, name: L.Name)
    requires L.IsParams(level) || level == []
    ensures LastIndex(L.LevelNames(level), name) == match L.Find(level, name) case None => None case Some(e) => Some(e.index)
    decreases |level|
  {
    if level != [] {
      var names := L.LevelNames(level);
      assert names[|names| - 1] == level[0].name;
      assert names[..|names| - 1] == L.LevelNames(level[1..]);
      assert L.IsParams(level[1..]) || level[1..] == [];
      LastIs(level[1..], name);
    }
  }

  /** The address of a name leads to where the name is bound. */
  lemma {:induction false} WhereIs(scope: seq<L.Level>, frames: seq<Frame>, f: Link, name: L.Name)
    requires L.Grown(scope) && RibsOf(scope, frames, f).Some?
    ensures Where(RibsOf(scope, frames, f).value, name) == match L.Lookup(scope, name, 0)
      case Slot(_, i, j) => Cell(Up(frames, f, i), j)
      case Scoped(sort, index) => Dyn(sort == L.Environ, index)
      case Global => Outside
    decreases |scope|
  {
    if scope != [] {
      var env := RibsOf(scope, frames, f).value;
      L.ParamsOrSingle(scope);
      if L.IsParams(scope[0]) {
        LastIs(scope[0], name);
        if L.Find(scope[0], name).None? {
          WhereIs(scope[1..], frames, frames[f.a].next, name);
          L.LookupFrom(scope[1..], name, 1);
        } else {
          L.FoundHere(scope, name);
        }
      } else {
        if L.Find(scope[0], name).None? {
          WhereIs(scope[1..], frames, f, name);
        } else {
          L.FoundHere(scope, name);
        }
      }
      assert env[1..] == RibsOf(scope[1..], frames, if L.IsParams(scope[0]) then frames[f.a].next else f).value;
    }
  }

  /** Frames that were there keep their links. */
  predicate Grew(frames: seq<Frame>, after: seq<Frame>) {
    |frames| <= |after| && forall a :: 0 <= a < |frames| ==> after[a].next == frames[a].next
  }

  lemma {:induction false} RibsKept(scope: seq<L.Level>, frames: seq<Frame>, after: seq<Frame>, f: Link)
    requires Grew(frames, after) && RibsOf(scope, frames, f).Some?
    ensures RibsOf(scope, after, f) == RibsOf(scope, frames, f)
    decreases |scope|
  {
    if scope != [] {
      if scope[0][0].sort == L.Param {
        RibsKept(scope[1..], frames, after, frames[f.a].next);
      } else {
        RibsKept(scope[1..], frames, after, f);
      }
    }
  }

  lemma {:induction false} SlotsAre(scope: seq<L.Level>, frames: seq<Frame>, f: Link)
    requires L.Grown(scope) && RibsOf(scope, frames, f).Some?
    ensures var env := RibsOf(scope, frames, f).value;
      NextSlot(env) == L.Base(scope) && Room(env) == |L.NamesOf(scope)| && (InFunction(env) ==> L.HasParams(scope))
    decreases |scope|
  {
    if scope != [] {
      var env := RibsOf(scope, frames, f).value;
      L.ParamsOrSingle(scope);
      if L.IsParams(scope[0]) {
        assert scope[0][0].sort == L.Param;
      } else {
        L.SingleLevel(scope);
        SlotsAre(scope[1..], frames, f);
        assert env[1..] == RibsOf(scope[1..], frames, f).value;
        assert !env[0].Params?;
        assert InFunction(env) ==> InFunction(env[1..]) by {
          assert forall k :: 1 <= k < |env| ==> env[k] == env[1..][k - 1];
        }
      }
    }
  }

  // What the evaluator accepts

  /** A let has the arguments its function wants; anything else is an error before there is any I-code. */
  predicate Suits(dotted: bool, names: seq<L.Name>, count: nat) {
    if dotted then names != [] && |names| - 1 <= count else |names| == count
  }

  predicate Proper(e: Expr) {
    match e
    case Assign(_, e1) => Proper(e1)
    case AssignPlace(call) => Proper(call)
    case If(e1, e2, e3) => Proper(e1) && Proper(e2) && Proper(e3)
    case Block(es) => ProperEach(es)
    case Connective(_, es) => ProperEach(es)
    case NotExpr(e1) => Proper(e1)
    case Function(dotted, names, body) => (dotted ==> names != []) && ProperEach(body)
    case Application(fe, args) => Proper(fe) && ProperArgs(args)
    case Closed(dotted, names, body, args) => Suits(dotted, names, ActualCount(args)) && ProperEach(body) && ProperArgs(args)
    case LocalIn(_, e1, body) => Proper(e1) && ProperEach(body)
    case PrimitiveOf1(_, e1) => Proper(e1)
    case PrimitiveOf2(_, e1, e2) => Proper(e1) && Proper(e2)
    case ScopedIn(_, _, _, e1, body) => Proper(e1) && ProperEach(body)
    case TrapIn(_, handler, body) => Proper(handler) && ProperEach(body)
    case _ => true
  }

  predicate ProperEach(es: Exprs) {
    match es
    case Last(e) => Proper(e)
    case Then(e, rest) => Proper(e) && ProperEach(rest)
  }

  predicate ProperArgs(args: Actuals) {
    match args
    case NoMore => true
    case Actual(e, rest) => Proper(e) && ProperArgs(rest)
  }

  /** The function's I-code is what the evaluator makes of it where it is written. */
  ghost predicate WrittenAs(G: Globals, def: Def, fun: Icode) {
    && (def.dotted ==> def.names != []) && ProperEach(def.body) && L.Grown(def.scope)
    && exists fl :: fun == E.Meaning(G, Function(def.dotted, def.names, def.body), def.scope, fl, def.v).m
  }

  /** Sources and program hold the same functions. */
  ghost predicate Matches(S: Library, P: Program) {
    && S.labels == P.labels && S.prim == P.prim && S.defs.Keys == P.funs.Keys
    && forall l :: l in S.defs ==> WrittenAs(S.G, S.defs[l], P.funs[l])
  }

  // Variables

  lemma ReferenceMeans(S: Library, P: Program, called: bool, name: L.Name, nt: seq<L.Level>, env: Ribs, f: Link, d: Scope, st: Store, fuel: nat)
    requires L.Grown(nt) && RibsOf(nt, st.frames, f) == Some(env)
    ensures Eval(P, Reference(S.G, called, name, nt), f, d, st, fuel) == Get(S, env, name, d, st)
  {
    hide Eval, Where, RibsOf;
    EvalByRule(P, Reference(S.G, called, name, nt), f, d, st, fuel);
    WhereIs(nt, st.frames, f, name);
  }

  /** Assigning a name that has no binding in force changes what the name is bound to. */
  lemma AssignmentMeans(S: Library, P: Program, name: L.Name, nt: seq<L.Level>, m: Icode, env: Ribs, f: Link, d: Scope, st: Store, fuel: nat)
    requires L.Grown(nt) && S.labels == P.labels && Eval(P, m, f, d, st, fuel).Done?
    requires RibsOf(nt, Eval(P, m, f, d, st, fuel).st.frames, f) == Some(env) && !InForce(S, env, name, d)
    ensures var o := Eval(P, m, f, d, st, fuel);
      Left(Eval(P, Assignment(S.G, name, nt, m), f, d, st, fuel), d) == Put(S, env, name, o.v, d, o.st)
  {
    hide Eval, Where, RibsOf, Update, Up, L.Lookup, L.Grown, PutValue;
    var a, o := L.Lookup(nt, name, 0), Eval(P, m, f, d, st, fuel);
    WhereIs(nt, o.st.frames, f, name);
    match a
    case Slot(_, i, j) => AssignCell(P, i, j, m, f, d, st, fuel);
    case Scoped(_, index) => AssignValue(S, P, index, m, f, d, st, fuel);
    case Global => AssignValue(S, P, S.G(name).si, m, f, d, st, fuel);
  }

  /** Assigning a name that has one changes the value behind the binding and leaves the binding alone. */
  lemma AssignmentMisses(S: Library, P: Program, name: L.Name, nt: seq<L.Level>, m: Icode, env: Ribs, f: Link, d: Scope, st: Store, fuel: nat)
    requires L.Grown(nt) && S.labels == P.labels && Eval(P, m, f, d, st, fuel).Done?
    requires RibsOf(nt, Eval(P, m, f, d, st, fuel).st.frames, f) == Some(env) && InForce(S, env, name, d)
    ensures var o := Eval(P, m, f, d, st, fuel);
      Eval(P, Assignment(S.G, name, nt, m), f, d, st, fuel) == PutValue(S, PlaceOf(S, env, name).si, o.v, o.st)
  {
    hide Eval, Where, RibsOf, L.Lookup, L.Grown, PutValue;
    var a, o := L.Lookup(nt, name, 0), Eval(P, m, f, d, st, fuel);
    WhereIs(nt, o.st.frames, f, name);
    AssignValue(S, P, if a.Scoped? then a.index else S.G(name).si, m, f, d, st, fuel);
  }

  /** A name that is no dynamic or environment variable where it stands has no binding in force. */
  lemma CalmNotInForce(S: Library, name: L.Name, nt: seq<L.Level>, env: Ribs, frames: seq<Frame>, f: Link, d: Scope)
    requires L.Grown(nt) && RibsOf(nt, frames, f) == Some(env) && !ScopedName(S.G, name, nt)
    ensures !InForce(S, env, name, d)
  {
    hide Where, RibsOf, L.Lookup, L.Grown;
    WhereIs(nt, frames, f, name);
  }

  lemma AssignCell(P: Program, i: nat, j: nat, m: Icode, f: Link, d: Scope, st: Store, fuel: nat)
    requires Eval(P, m, f, d, st, fuel).Done?
    ensures var o := Eval(P, m, f, d, st, fuel);
      Eval(P, if i == 0 then ShallowArgumentSet(j, m) else DeepArgumentSet(i, j, m), f, d, st, fuel)
      == Changes(o.v, Update(o.st, Up(o.st.frames, f, i), 0, j, o.v))
  {
    hide Eval, Update, Up;
    var o := Eval(P, m, f, d, st, fuel);
    EvalByRule(P, if i == 0 then ShallowArgumentSet(j, m) else DeepArgumentSet(i, j, m), f, d, st, fuel);
    UpdateAt(o.st, f, i, j, o.v);
  }

  lemma AssignValue(S: Library, P: Program, si: nat, m: Icode, f: Link, d: Scope, st: Store, fuel: nat)
    requires S.labels == P.labels && Eval(P, m, f, d, st, fuel).Done?
    ensures var o := Eval(P, m, f, d, st, fuel);
      Eval(P, SymbolSet(true, si, m), f, d, st, fuel) == PutValue(S, si, o.v, o.st)
  {
    hide Eval;
    EvalByRule(P, SymbolSet(true, si, m), f, d, st, fuel);
  }

  lemma UpdateAt(st: Store, f: Link, i: nat, j: nat, v: Value)
    ensures Update(st, f, i, j, v) == Update(st, Up(st.frames, f, i), 0, j, v)
  {
  }

  // Scopes

  lemma NamesBack(names: seq<L.Name>)
    ensures L.LevelNames(L.ParamLevel(names)) == names
  {
  }

  /** Inside a function or let. */
  lemma RibsInside(dotted: bool, names: seq<L.Name>, nt: seq<L.Level>, env: Ribs, frames: seq<Frame>, a: nat)
    requires dotted ==> names != []
    requires L.Grown(nt) && a < |frames| && RibsOf(nt, frames, frames[a].next) == Some(env)
    ensures L.Grown(ParamTree(dotted, names, nt))
    ensures RibsOf(ParamTree(dotted, names, nt), frames, Frm(a)) == Some([Params(Frm(a), Slots(dotted, names))] + env)
  {
    var xs := Slots(dotted, names);
    NamesBack(xs);
    L.GrownByExtension(nt, xs, L.Unnamed, L.Param, 0);
    assert ParamTree(dotted, names, nt)[1..] == nt;
  }

  /** In the scope of a local. */
  lemma RibsLocal(name: L.Name, nt: seq<L.Level>, env: Ribs, frames: seq<Frame>, f: Link)
    requires L.Grown(nt) && RibsOf(nt, frames, f) == Some(env) && InFunction(env)
    ensures L.Grown(LocalTree(name, nt))
    ensures RibsOf(LocalTree(name, nt), frames, f) == Some([OneLocal(f, name, NextSlot(env))] + env)
    ensures Room([OneLocal(f, name, NextSlot(env))] + env) == |L.NamesOf(LocalTree(name, nt))| && NextSlot(env) == L.Base(nt)
  {
    SlotsAre(nt, frames, f);
    L.GrownByExtension(nt, [], name, L.Local, 0);
    assert LocalTree(name, nt)[1..] == nt;
    SlotsAre(LocalTree(name, nt), frames, f);
  }

  /** In the scope of a dynamic or environment variable. */
  lemma RibsScoped(environ: bool, name: L.Name, si: nat, nt: seq<L.Level>, env: Ribs, frames: seq<Frame>, f: Link)
    requires L.Grown(nt) && RibsOf(nt, frames, f) == Some(env)
    ensures var ent := L.ExtendScoped(nt, name, if environ then L.Environ else L.Dynamic, si);
      L.Grown(ent) && RibsOf(ent, frames, f) == Some([Binds(name, environ, si)] + env)
  {
    var sort := if environ then L.Environ else L.Dynamic;
    L.GrownByExtension(nt, [], name, sort, si);
    assert L.ExtendScoped(nt, name, sort, si)[1..] == nt;
  }

  /** An evaluation leaves the environment what it was. */
  lemma StillRibs(P: Program, m: Icode, nt: seq<L.Level>, env: Ribs, f: Link, d: Scope, st: Store, fuel: nat)
    requires RibsOf(nt, st.frames, f) == Some(env) && Eval(P, m, f, d, st, fuel).Done?
    ensures RibsOf(nt, Eval(P, m, f, d, st, fuel).st.frames, f) == Some(env)
  {
    hide Eval, RibsOf;
    EvalKeeps(P, m, f, d, st, fuel);
    RibsKept(nt, st.frames, Eval(P, m, f, d, st, fuel).st.frames, f);
  }

  // Expressions

  /** The run left all bindings in force alone, or nothing in it could have done otherwise. */
  predicate Mild(S: Library, kept: bool, calm: bool) { kept || (calm && CalmLibrary(S)) }

  /** The I-code's outcome is the expression's, and the bindings in force were left alone; nothing is said of a run that leaves the program. */
  predicate Same(o: Outcome, r: Result, d: Scope) {
    match r
    case Had(v, st, d1, kept) => kept && d1 == d && o == Done(v, st)
    case Nothing(why, _) => why != Foreign ==> o == Stuck(why)
  }

  /**
    Whatever the tail flag, the I-code of an expression has the same value and the same effects as the expression,
    faults where the expression faults, and needs as many calls; unless the run assigns a variable whose binding is in
    force.  And the environment is still that of the names in scope.
   */
  lemma {:induction false} Faithful(S: Library, P: Program, e: Expr, nt: seq<L.Level>, env: Ribs, f: Link, fl: Flags, v: nat, d: Scope, st: Store, fuel: nat)
    requires Matches(S, P) && Proper(e) && L.Grown(nt) && RibsOf(nt, st.frames, f) == Some(env)
    requires Mild(S, SEval(S, e, env, f, v, d, st, fuel).kept, Calm(S.G, e, nt))
    ensures Same(Eval(P, E.Meaning(S.G, e, nt, fl, v).m, f, d, st, fuel), SEval(S, e, env, f, v, d, st, fuel), d)
    ensures SEval(S, e, env, f, v, d, st, fuel).Had? ==> RibsOf(nt, SEval(S, e, env, f, v, d, st, fuel).st.frames, f) == Some(env)
    decreases fuel, e, 3
  {
    hide Matches, Eval, SEval, E.Meaning, RibsOf, L.Grown, Proper;
    FaithfulRule(S, P, e, nt, env, f, fl, v, d, st, fuel);
    if SEval(S, e, env, f, v, d, st, fuel).Had? {
      StillRibs(P, E.Meaning(S.G, e, nt, fl, v).m, nt, env, f, d, st, fuel);
    }
  }

  lemma {:induction false} FaithfulRule(S: Library, P: Program, e: Expr, nt: seq<L.Level>, env: Ribs, f: Link, fl: Flags, v: nat, d: Scope, st: Store, fuel: nat)
    requires Matches(S, P) && Proper(e) && L.Grown(nt) && RibsOf(nt, st.frames, f) == Some(env)
    requires Mild(S, SEval(S, e, env, f, v, d, st, fuel).kept, Calm(S.G, e, nt))
    ensures Same(Eval(P, E.Meaning(S.G, e, nt, fl, v).m, f, d, st, fuel), SEval(S, e, env, f, v, d, st, fuel), d)
    decreases fuel, e, 2
  {
    hide Eval, SEval, E.Meaning, RibsOf, L.Grown, SEach, SJunction, SList, Reference, Assignment, Get, Put, WrittenAs;
    hide NotTail, SetTail, IsTail, NoDefine, ToplevelScope, EvalEach, EvalJunction, EvalArgs, EvalIn, Apply, SApply, MeaningEach, Update, Extend, CalmLibrary, Host;
    if e.If? || e.Function? || e.Application? || e.Closed? || e.LocalIn? || e.ScopedIn? || e.TrapIn? || e.PrimitiveOf2? {
      FaithfulLarge(S, P, e, nt, env, f, fl, v, d, st, fuel);
    } else {
      MeaningByRule(S.G, e, nt, fl, v);
      SByRule(S, e, env, f, v, d, st, fuel);
      EvalByRule(P, E.Meaning(S.G, e, nt, fl, v).m, f, d, st, fuel);
      match e
      case Variable(name) => ReferenceMeans(S, P, false, name, nt, env, f, d, st, fuel);
      case Assign(_, _) => FaithfulAssign(S, P, e, nt, env, f, fl, v, d, st, fuel);
      case AssignPlace(_) => FaithfulUnary(S, P, e, nt, env, f, fl, v, d, st, fuel);
      case Block(es) => FaithfulEach(S, P, es, nt, env, f, fl, v, d, st, fuel);
      case Connective(conj, es) => FaithfulJunction(S, P, conj, es, nt, env, f, fl, v, d, st, fuel);
      case NotExpr(_) => FaithfulUnary(S, P, e, nt, env, f, fl, v, d, st, fuel);
      case PrimitiveOf1(_, _) => FaithfulUnary(S, P, e, nt, env, f, fl, v, d, st, fuel);
      case _ =>
    }
  }

  lemma {:induction false} FaithfulUnary(S: Library, P: Program, e: Expr, nt: seq<L.Level>, env: Ribs, f: Link, fl: Flags, v: nat, d: Scope, st: Store, fuel: nat)
    requires (e.AssignPlace? || e.NotExpr? || e.PrimitiveOf1?) && Matches(S, P) && Proper(e) && L.Grown(nt) && RibsOf(nt, st.frames, f) == Some(env)
    requires Mild(S, SRule(S, e, env, f, v, d, st, fuel).kept, Calm(S.G, e, nt))
    ensures Same(Eval(P, MeaningRule(S.G, e, nt, fl, v).m, f, d, st, fuel), SRule(S, e, env, f, v, d, st, fuel), d)
    decreases fuel, e, 0
  {
    hide Eval, SEval, E.Meaning, RibsOf, L.Grown, WrittenAs, NotTail, NoDefine, ToplevelScope, CalmLibrary, Host, EvalArgs, Apply, SApply;
    EvalByRule(P, MeaningRule(S.G, e, nt, fl, v).m, f, d, st, fuel);
    match e
    case AssignPlace(call) => Faithful(S, P, call, nt, env, f, NoDefine(ToplevelScope(fl)), v, d, st, fuel);
    case NotExpr(e1) => Faithful(S, P, e1, nt, env, f, NotTail(fl), v, d, st, fuel);
    case PrimitiveOf1(_, e1) => Faithful(S, P, e1, nt, env, f, NotTail(fl), v, d, st, fuel);
  }

  lemma PutKept(S: Library, env: Ribs, name: L.Name, v: Value, d: Scope, st: Store)
    ensures Put(S, env, name, v, d, st).kept <==> !InForce(S, env, name, d)
    ensures Put(S, env, name, v, d, st).Had? && !InForce(S, env, name, d) ==> Put(S, env, name, v, d, st).d == d
  {
    hide Where, Update;
  }

  lemma {:induction false} FaithfulAssign(S: Library, P: Program, e: Expr, nt: seq<L.Level>, env: Ribs, f: Link, fl: Flags, v: nat, d: Scope, st: Store, fuel: nat)
    requires e.Assign? && Matches(S, P) && Proper(e) && L.Grown(nt) && RibsOf(nt, st.frames, f) == Some(env)
    requires Mild(S, SRule(S, e, env, f, v, d, st, fuel).kept, Calm(S.G, e, nt))
    ensures Same(Eval(P, MeaningRule(S.G, e, nt, fl, v).m, f, d, st, fuel), SRule(S, e, env, f, v, d, st, fuel), d)
    decreases fuel, e, 0
  {
    hide Eval, SEval, E.Meaning, RibsOf, L.Grown, Assignment, Put, WrittenAs, NotTail, NoDefine, ToplevelScope, InForce;
    var fl1, o := NoDefine(NotTail(ToplevelScope(fl))), SEval(S, e.e, env, f, v, d, st, fuel);
    Faithful(S, P, e.e, nt, env, f, fl1, v, d, st, fuel);
    if o.Nothing? {
      AssignmentStuck(S, P, e.name, nt, E.Meaning(S.G, e.e, nt, fl1, v).m, f, d, st, fuel);
    } else {
      PutKept(S, env, e.name, o.v, d, o.st);
      if !ScopedName(S.G, e.name, nt) {
        CalmNotInForce(S, e.name, nt, env, o.st.frames, f, d);
      }
      AssignmentMeans(S, P, e.name, nt, E.Meaning(S.G, e.e, nt, fl1, v).m, env, f, d, st, fuel);
    }
  }

  lemma AssignmentStuck(S: Library, P: Program, name: L.Name, nt: seq<L.Level>, m: Icode, f: Link, d: Scope, st: Store, fuel: nat)
    ensures var o := Eval(P, m, f, d, st, fuel); o.Stuck? ==> Eval(P, Assignment(S.G, name, nt, m), f, d, st, fuel) == o
  {
    hide Eval, L.Lookup;
    EvalByRule(P, Assignment(S.G, name, nt, m), f, d, st, fuel);
  }

  lemma {:induction false} FaithfulLarge(S: Library, P: Program, e: Expr, nt: seq<L.Level>, env: Ribs, f: Link, fl: Flags, v: nat, d: Scope, st: Store, fuel: nat)
    requires e.If? || e.Function? || e.Application? || e.Closed? || e.LocalIn? || e.ScopedIn? || e.TrapIn? || e.PrimitiveOf2?
    requires Matches(S, P) && Proper(e) && L.Grown(nt) && RibsOf(nt, st.frames, f) == Some(env)
    requires Mild(S, SEval(S, e, env, f, v, d, st, fuel).kept, Calm(S.G, e, nt))
    ensures Same(Eval(P, E.Meaning(S.G, e, nt, fl, v).m, f, d, st, fuel), SEval(S, e, env, f, v, d, st, fuel), d)
    decreases fuel, e, 1
  {
    hide Eval, SEval, E.Meaning, RibsOf, L.Grown, SEach, SJunction, SList, SApply, Apply, Reference, Assignment, WrittenAs, EvalArgs, EvalIn;
    hide NotTail, SetTail, IsTail, NoDefine, ToplevelScope, Extend, Update, FormalsOf;
    MeaningByRule(S.G, e, nt, fl, v);
    SByRule(S, e, env, f, v, d, st, fuel);
    EvalByRule(P, E.Meaning(S.G, e, nt, fl, v).m, f, d, st, fuel);
    match e
    case If(_, _, _) => FaithfulIf(S, P, e, nt, env, f, fl, v, d, st, fuel);
    case Function(dotted, names, body) => CountsAre(S.G, body, ParamTree(dotted, names, nt), SetTail(fl), v);
    case PrimitiveOf2(_, _, _) => FaithfulTwo(S, P, e, nt, env, f, fl, v, d, st, fuel);
    case ScopedIn(_, _, _, _, _) => FaithfulScoped(S, P, e, nt, env, f, fl, v, d, st, fuel);
    case TrapIn(_, _, _) => FaithfulTrap(S, P, e, nt, env, f, fl, v, d, st, fuel);
    case LocalIn(_, _, _) => FaithfulLocal(S, P, e, nt, env, f, fl, v, d, st, fuel);
    case Application(_, _) => FaithfulCall(S, P, e, nt, env, f, fl, v, d, st, fuel);
    case Closed(_, _, _, _) => FaithfulClosed(S, P, e, nt, env, f, fl, v, d, st, fuel);
  }

  lemma {:induction false} FaithfulIf(S: Library, P: Program, e: Expr, nt: seq<L.Level>, env: Ribs, f: Link, fl: Flags, v: nat, d: Scope, st: Store, fuel: nat)
    requires (e.If?) && Matches(S, P) && Proper(e) && L.Grown(nt) && RibsOf(nt, st.frames, f) == Some(env)
    requires Mild(S, SRule(S, e, env, f, v, d, st, fuel).kept, Calm(S.G, e, nt))
    ensures Same(EvalRule(P, MeaningRule(S.G, e, nt, fl, v).m, f, d, st, fuel), SRule(S, e, env, f, v, d, st, fuel), d)
    decreases fuel, e, 0
  {
    hide Eval, SEval, E.Meaning, RibsOf, L.Grown, SEach, Matches, NotTail, IsTail, MeaningEach, EvalArgs, EvalIn, Apply, SList, SApply, Update, Extend, CalmLibrary, EvalEach, EvalJunction, SJunction, MeaningArgs, MeaningDotted, Get, Put;
    match e
    case If(e1, e2, e3) =>
      CountIs(S.G, e1, nt, NotTail(fl), v);
      CountIs(S.G, e2, nt, fl, v + FnCount(e1));
      Faithful(S, P, e1, nt, env, f, NotTail(fl), v, d, st, fuel);
      var o := SEval(S, e1, env, f, v, d, st, fuel);
      if o.Had? && o.v != FALSE {
        Faithful(S, P, e2, nt, env, f, fl, v + FnCount(e1), d, o.st, fuel);
      } else if o.Had? {
        Faithful(S, P, e3, nt, env, f, fl, v + FnCount(e1) + FnCount(e2), d, o.st, fuel);
      }
  }

  lemma {:induction false} FaithfulTwo(S: Library, P: Program, e: Expr, nt: seq<L.Level>, env: Ribs, f: Link, fl: Flags, v: nat, d: Scope, st: Store, fuel: nat)
    requires (e.PrimitiveOf2?) && Matches(S, P) && Proper(e) && L.Grown(nt) && RibsOf(nt, st.frames, f) == Some(env)
    requires Mild(S, SRule(S, e, env, f, v, d, st, fuel).kept, Calm(S.G, e, nt))
    ensures Same(EvalRule(P, MeaningRule(S.G, e, nt, fl, v).m, f, d, st, fuel), SRule(S, e, env, f, v, d, st, fuel), d)
    decreases fuel, e, 0
  {
    hide Eval, SEval, E.Meaning, RibsOf, L.Grown, SEach, WrittenAs, NotTail, IsTail, MeaningEach, EvalArgs, EvalIn, Apply, SList, SApply, Update, Extend, CalmLibrary, Host;
    match e
    case PrimitiveOf2(_, e1, e2) =>
      CountIs(S.G, e1, nt, NotTail(fl), v);
      Faithful(S, P, e1, nt, env, f, NotTail(fl), v, d, st, fuel);
      if SEval(S, e1, env, f, v, d, st, fuel).Had? {
        Faithful(S, P, e2, nt, env, f, NotTail(fl), v + FnCount(e1), d, SEval(S, e1, env, f, v, d, st, fuel).st, fuel);
      }
  }

  lemma ScopedRules(S: Library, P: Program, e: Expr, nt: seq<L.Level>, env: Ribs, f: Link, fl: Flags, v: nat, d: Scope, st: Store, fuel: nat)
    requires e.ScopedIn?
    ensures var r := E.Meaning(S.G, e.e, nt, NotTail(fl), v);
      var ent := L.ExtendScoped(nt, e.name, if e.environ then L.Environ else L.Dynamic, e.si);
      var o := Eval(P, r.m, f, d, st, fuel);
      EvalRule(P, MeaningRule(S.G, e, nt, fl, v).m, f, d, st, fuel)
      == if o.Stuck? then o
         else Eval(P, Begin(false, MeaningEach(S.G, e.body, ent, NotTail(fl), r.v).ms), f, Bind(e.environ, e.si, o.v, d), o.st, fuel)
    ensures var o := SEval(S, e.e, env, f, v, d, st, fuel);
      SRule(S, e, env, f, v, d, st, fuel)
      == if o.Nothing? then o
         else After(o.kept, Unbound(SEach(S, e.body, [Binds(e.name, e.environ, e.si)] + env, f, v + FnCount(e.e), Bind(e.environ, e.si, o.v, o.d), o.st, fuel)))
  {
    hide Eval, SEval, E.Meaning, MeaningEach, SEach, L.ExtendScoped, NotTail, Unbound;
  }

  lemma CallRules(S: Library, P: Program, e: Expr, nt: seq<L.Level>, env: Ribs, f: Link, fl: Flags, v: nat, d: Scope, st: Store, fuel: nat)
    requires e.Application?
    ensures var r := if e.fe.Variable? then Made(Reference(S.G, true, e.fe.name, nt), v) else E.Meaning(S.G, e.fe, nt, NotTail(fl), v);
      var q := MeaningArgs(S.G, e.args, nt, ActualCount(e.args), NotTail(fl), r.v);
      EvalRule(P, MeaningRule(S.G, e, nt, fl, v).m, f, d, st, fuel) == Called(P, q.args, f, d, Eval(P, r.m, f, d, st, fuel), fuel)
    ensures var o := SEval(S, e.fe, env, f, v, d, st, fuel);
      SRule(S, e, env, f, v, d, st, fuel)
      == if o.Nothing? then o else After(o.kept, SCalled(S, o.v, SList(S, e.args, env, f, v + FnCount(e.fe), o.d, o.st, fuel), fuel))
  {
    hide Eval, SEval, E.Meaning, MeaningArgs, SList, Apply, SApply, EvalArgs, NotTail, IsTail, Reference, WithFrame;
  }

  /** A call once its operator has a value. */
  function Called(P: Program, args: Args, f: Link, d: Scope, o: Outcome, fuel: nat): (r: Outcome) {
    if o.Stuck? then o
    else
      match EvalArgs(P, args, f, d, o.st, fuel)
      case NotBuilt(w) => Stuck(w)
      case Built(a, s1) => if fuel == 0 then Stuck(Deep) else Apply(P, o.v, a, d, s1, fuel - 1)
  }

  function SCalled(S: Library, x: Value, q: Results, fuel: nat): (r: Result) {
    match q
    case Nothing(w, k) => Result.Nothing(w, k)
    case Had(vs, s1, d1, k) =>
      if fuel == 0 then Result.Nothing(Deep, k)
      else After(k, SApply(S, x, |s1.frames|, d1, WithFrame(s1, Frame(vs + [NIL], |vs|, NoFrame)), fuel - 1))
  }

  lemma {:induction false} FaithfulScoped(S: Library, P: Program, e: Expr, nt: seq<L.Level>, env: Ribs, f: Link, fl: Flags, v: nat, d: Scope, st: Store, fuel: nat)
    requires e.ScopedIn? && Matches(S, P) && Proper(e) && L.Grown(nt) && RibsOf(nt, st.frames, f) == Some(env)
    requires Mild(S, SRule(S, e, env, f, v, d, st, fuel).kept, Calm(S.G, e, nt))
    ensures Same(EvalRule(P, MeaningRule(S.G, e, nt, fl, v).m, f, d, st, fuel), SRule(S, e, env, f, v, d, st, fuel), d)
    decreases fuel, e, 0
  {
    hide Eval, SEval, E.Meaning, RibsOf, L.Grown, SEach, Matches, NotTail, IsTail, MeaningEach, CalmLibrary, L.ExtendScoped, EvalRule, SRule, MeaningRule;
    ScopedRules(S, P, e, nt, env, f, fl, v, d, st, fuel);
    var o := SEval(S, e.e, env, f, v, d, st, fuel);
    CountIs(S.G, e.e, nt, NotTail(fl), v);
    Faithful(S, P, e.e, nt, env, f, NotTail(fl), v, d, st, fuel);
    if o.Had? {
      var ent := L.ExtendScoped(nt, e.name, if e.environ then L.Environ else L.Dynamic, e.si);
      RibsScoped(e.environ, e.name, e.si, nt, env, o.st.frames, f);
      FaithfulBlock(S, P, false, e.body, ent, [Binds(e.name, e.environ, e.si)] + env, f, NotTail(fl), v + FnCount(e.e), Bind(e.environ, e.si, o.v, d), o.st, fuel);
    }
  }

  lemma TrapRules(S: Library, P: Program, e: Expr, nt: seq<L.Level>, env: Ribs, f: Link, fl: Flags, v: nat, d: Scope, st: Store, fuel: nat)
    requires e.TrapIn?
    ensures var r := E.Meaning(S.G, e.handler, nt, NotTail(fl), v);
      var o := Eval(P, r.m, f, d, st, fuel);
      EvalRule(P, MeaningRule(S.G, e, nt, fl, v).m, f, d, st, fuel)
      == if o.Stuck? then o
         else if e.sis != [] && !o.v.Closure? && !o.v.Primitive? then Stuck(Fault)
         else Eval(P, Begin(false, MeaningEach(S.G, e.body, nt, NotTail(fl), r.v).ms), f, d, o.st, fuel)
    ensures var o := SEval(S, e.handler, env, f, v, d, st, fuel);
      SRule(S, e, env, f, v, d, st, fuel)
      == if o.Nothing? then o
         else if e.sis != [] && !o.v.Closure? && !o.v.Primitive? then Result.Nothing(Fault, o.kept)
         else After(o.kept, SEach(S, e.body, env, f, v + FnCount(e.handler), o.d, o.st, fuel))
  {
    hide Eval, SEval, E.Meaning, MeaningEach, SEach, NotTail;
  }

  lemma {:induction false} FaithfulTrap(S: Library, P: Program, e: Expr, nt: seq<L.Level>, env: Ribs, f: Link, fl: Flags, v: nat, d: Scope, st: Store, fuel: nat)
    requires e.TrapIn? && Matches(S, P) && Proper(e) && L.Grown(nt) && RibsOf(nt, st.frames, f) == Some(env)
    requires Mild(S, SRule(S, e, env, f, v, d, st, fuel).kept, Calm(S.G, e, nt))
    ensures Same(EvalRule(P, MeaningRule(S.G, e, nt, fl, v).m, f, d, st, fuel), SRule(S, e, env, f, v, d, st, fuel), d)
    decreases fuel, e, 0
  {
    hide Eval, SEval, E.Meaning, RibsOf, L.Grown, SEach, Matches, NotTail, IsTail, MeaningEach, CalmLibrary, EvalRule, SRule, MeaningRule;
    TrapRules(S, P, e, nt, env, f, fl, v, d, st, fuel);
    var o := SEval(S, e.handler, env, f, v, d, st, fuel);
    CountIs(S.G, e.handler, nt, NotTail(fl), v);
    Faithful(S, P, e.handler, nt, env, f, NotTail(fl), v, d, st, fuel);
    if o.Had? && (e.sis == [] || o.v.Closure? || o.v.Primitive?) {
      FaithfulBlock(S, P, false, e.body, nt, env, f, NotTail(fl), v + FnCount(e.handler), d, o.st, fuel);
    }
  }

  /** A body. */
  lemma {:induction false} FaithfulBlock(S: Library, P: Program, tail: bool, es: Exprs, nt: seq<L.Level>, env: Ribs, f: Link, fl: Flags, v: nat, d: Scope, st: Store, fuel: nat)
    requires Matches(S, P) && ProperEach(es) && L.Grown(nt) && RibsOf(nt, st.frames, f) == Some(env)
    requires Mild(S, SEach(S, es, env, f, v, d, st, fuel).kept, CalmEach(S.G, es, nt))
    ensures Same(Eval(P, Begin(tail, MeaningEach(S.G, es, nt, fl, v).ms), f, d, st, fuel), SEach(S, es, env, f, v, d, st, fuel), d)
    decreases fuel, es, 5
  {
    hide Eval, SEach, EvalEach, RibsOf, L.Grown, Matches, MeaningEach;
    EvalByRule(P, Begin(tail, MeaningEach(S.G, es, nt, fl, v).ms), f, d, st, fuel);
    FaithfulEach(S, P, es, nt, env, f, fl, v, d, st, fuel);
  }

  lemma {:induction false} FaithfulEach(S: Library, P: Program, es: Exprs, nt: seq<L.Level>, env: Ribs, f: Link, fl: Flags, v: nat, d: Scope, st: Store, fuel: nat)
    requires Matches(S, P) && ProperEach(es) && L.Grown(nt) && RibsOf(nt, st.frames, f) == Some(env)
    requires Mild(S, SEach(S, es, env, f, v, d, st, fuel).kept, CalmEach(S.G, es, nt))
    ensures Same(EvalEach(P, MeaningEach(S.G, es, nt, fl, v).ms, f, d, st, fuel), SEach(S, es, env, f, v, d, st, fuel), d)
    decreases fuel, es, 4
  {
    hide Eval, SEval, E.Meaning, RibsOf, L.Grown, Matches, NotTail, Proper;
    match es
    case Last(e) => Faithful(S, P, e, nt, env, f, fl, v, d, st, fuel);
    case Then(e, rest) =>
      CountIs(S.G, e, nt, NotTail(fl), v);
      Faithful(S, P, e, nt, env, f, NotTail(fl), v, d, st, fuel);
      if SEval(S, e, env, f, v, d, st, fuel).Had? {
        FaithfulEach(S, P, rest, nt, env, f, fl, v + FnCount(e), d, SEval(S, e, env, f, v, d, st, fuel).st, fuel);
      }
  }

  lemma {:induction false} FaithfulJunction(S: Library, P: Program, conj: bool, es: Exprs, nt: seq<L.Level>, env: Ribs, f: Link, fl: Flags, v: nat, d: Scope, st: Store, fuel: nat)
    requires Matches(S, P) && ProperEach(es) && L.Grown(nt) && RibsOf(nt, st.frames, f) == Some(env)
    requires Mild(S, SJunction(S, conj, es, env, f, v, d, st, fuel).kept, CalmEach(S.G, es, nt))
    ensures Same(EvalJunction(P, conj, MeaningEach(S.G, es, nt, fl, v).ms, f, d, st, fuel), SJunction(S, conj, es, env, f, v, d, st, fuel), d)
    decreases fuel, es, 4
  {
    hide Eval, SEval, E.Meaning, RibsOf, L.Grown, Matches, NotTail, Proper;
    match es
    case Last(e) => Faithful(S, P, e, nt, env, f, fl, v, d, st, fuel);
    case Then(e, rest) =>
      var o := SEval(S, e, env, f, v, d, st, fuel);
      CountIs(S.G, e, nt, NotTail(fl), v);
      Faithful(S, P, e, nt, env, f, NotTail(fl), v, d, st, fuel);
      if o.Had? && conj != (o.v == FALSE) {
        FaithfulJunction(S, P, conj, rest, nt, env, f, fl, v + FnCount(e), d, o.st, fuel);
      }
  }

  lemma {:induction false} FaithfulList(S: Library, P: Program, args: Actuals, nt: seq<L.Level>, env: Ribs, f: Link, fl: Flags, v: nat, d: Scope, st: Store, fuel: nat)
    requires Matches(S, P) && ProperArgs(args) && L.Grown(nt) && RibsOf(nt, st.frames, f) == Some(env)
    requires Mild(S, SList(S, args, env, f, v, d, st, fuel).kept, CalmArgs(S.G, args, nt))
    ensures var r := SList(S, args, env, f, v, d, st, fuel);
      var o := EvalList(P, Meanings(S.G, args, nt, fl, v), f, d, st, fuel);
      if r.Had? then o == Listed(r.vs, r.st) && r.kept && r.d == d else r.why != Foreign ==> o == NotListed(r.why)
    ensures SList(S, args, env, f, v, d, st, fuel).Had? ==> RibsOf(nt, SList(S, args, env, f, v, d, st, fuel).st.frames, f) == Some(env)
    decreases fuel, args, 4
  {
    hide Eval, SEval, E.Meaning, RibsOf, L.Grown, Matches, NotTail, Proper;
    match args
    case NoMore =>
    case Actual(e, rest) =>
      CountIs(S.G, e, nt, NotTail(fl), v);
      Faithful(S, P, e, nt, env, f, NotTail(fl), v, d, st, fuel);
      if SEval(S, e, env, f, v, d, st, fuel).Had? {
        FaithfulList(S, P, rest, nt, env, f, fl, v + FnCount(e), d, SEval(S, e, env, f, v, d, st, fuel).st, fuel);
      }
      assert Meanings(S.G, args, nt, fl, v)[1..] == Meanings(S.G, rest, nt, fl, v + FnCount(e));
  }

  lemma LocalRules(S: Library, P: Program, e: Expr, nt: seq<L.Level>, env: Ribs, f: Link, fl: Flags, v: nat, d: Scope, st: Store, fuel: nat)
    requires e.LocalIn?
    ensures var r, ent := E.Meaning(S.G, e.e, nt, NotTail(fl), v), LocalTree(e.name, nt);
      var o := Eval(P, r.m, f, d, st, fuel);
      EvalRule(P, MeaningRule(S.G, e, nt, fl, v).m, f, d, st, fuel)
      == if o.Stuck? then o
         else
           var q := Slotted(o.st, f, |L.NamesOf(ent)|, L.Base(nt), o.v);
           if q.Stuck? then q else Eval(P, Begin(IsTail(fl), MeaningEach(S.G, e.body, ent, fl, r.v).ms), f, d, q.st, fuel)
    ensures var o, inner := SEval(S, e.e, env, f, v, d, st, fuel), [OneLocal(f, e.name, NextSlot(env))] + env;
      SRule(S, e, env, f, v, d, st, fuel)
      == if o.Nothing? then o
         else if !InFunction(env) then Result.Nothing(Foreign, o.kept)
         else
           var q := Slotted(o.st, f, Room(inner), NextSlot(env), o.v);
           if q.Stuck? then Result.Nothing(q.why, o.kept)
           else After(o.kept, SEach(S, e.body, inner, f, v + FnCount(e.e), o.d, q.st, fuel))
  {
    hide Eval, SEval, E.Meaning, MeaningEach, SEach, NotTail, IsTail, LocalTree, FormalsOf, Extend, Update, L.NamesOf, Room, NextSlot, InFunction;
  }

  lemma {:induction false} FaithfulLocal(S: Library, P: Program, e: Expr, nt: seq<L.Level>, env: Ribs, f: Link, fl: Flags, v: nat, d: Scope, st: Store, fuel: nat)
    requires e.LocalIn? && Matches(S, P) && Proper(e) && L.Grown(nt) && RibsOf(nt, st.frames, f) == Some(env)
    requires Mild(S, SRule(S, e, env, f, v, d, st, fuel).kept, Calm(S.G, e, nt))
    ensures Same(EvalRule(P, MeaningRule(S.G, e, nt, fl, v).m, f, d, st, fuel), SRule(S, e, env, f, v, d, st, fuel), d)
    decreases fuel, e, 0
  {
    hide Eval, SEval, E.Meaning, RibsOf, L.Grown, SEach, Matches, NotTail, IsTail, MeaningEach, LocalTree, L.NamesOf, Room, NextSlot, Slotted, CalmLibrary;
    hide EvalRule, SRule, MeaningRule;
    LocalRules(S, P, e, nt, env, f, fl, v, d, st, fuel);
    var o := SEval(S, e.e, env, f, v, d, st, fuel);
    CountIs(S.G, e.e, nt, NotTail(fl), v);
    Faithful(S, P, e.e, nt, env, f, NotTail(fl), v, d, st, fuel);
    if o.Had? && InFunction(env) {
      RibsLocal(e.name, nt, env, o.st.frames, f);
      var inner, ent := [OneLocal(f, e.name, NextSlot(env))] + env, LocalTree(e.name, nt);
      var q := Slotted(o.st, f, Room(inner), NextSlot(env), o.v);
      if q.Done? {
        SlotMade(o.st, f, Room(inner), NextSlot(env), o.v);
        RibsKept(ent, o.st.frames, q.st.frames, f);
        FaithfulBlock(S, P, IsTail(fl), e.body, ent, inner, f, fl, v + FnCount(e.e), d, q.st, fuel);
      }
    }
  }

  lemma SlotMade(st: Store, f: Link, size: nat, j: nat, v: Value)
    requires Slotted(st, f, size, j, v).Done?
    ensures Grew(st.frames, Slotted(st, f, size, j, v).st.frames)
  {
  }

  lemma {:induction false} FaithfulOperator(S: Library, P: Program, fe: Expr, nt: seq<L.Level>, env: Ribs, f: Link, fl: Flags, v: nat, d: Scope, st: Store, fuel: nat)
    requires Matches(S, P) && Proper(fe) && L.Grown(nt) && RibsOf(nt, st.frames, f) == Some(env)
    requires Mild(S, SEval(S, fe, env, f, v, d, st, fuel).kept, Calm(S.G, fe, nt))
    ensures var r := if fe.Variable? then Made(Reference(S.G, true, fe.name, nt), v) else E.Meaning(S.G, fe, nt, NotTail(fl), v);
      Same(Eval(P, r.m, f, d, st, fuel), SEval(S, fe, env, f, v, d, st, fuel), d) && r.v == v + FnCount(fe)
    ensures SEval(S, fe, env, f, v, d, st, fuel).Had? ==> RibsOf(nt, SEval(S, fe, env, f, v, d, st, fuel).st.frames, f) == Some(env)
    decreases fuel, fe, 4
  {
    hide Eval, SEval, E.Meaning, RibsOf, L.Grown, Matches, NotTail, Reference;
    CountIs(S.G, fe, nt, NotTail(fl), v);
    Faithful(S, P, fe, nt, env, f, NotTail(fl), v, d, st, fuel);
    if fe.Variable? {
      SByRule(S, fe, env, f, v, d, st, fuel);
      ReferenceMeans(S, P, true, fe.name, nt, env, f, d, st, fuel);
    }
  }

  lemma {:induction false} FaithfulCall(S: Library, P: Program, e: Expr, nt: seq<L.Level>, env: Ribs, f: Link, fl: Flags, v: nat, d: Scope, st: Store, fuel: nat)
    requires e.Application? && Matches(S, P) && Proper(e) && L.Grown(nt) && RibsOf(nt, st.frames, f) == Some(env)
    requires Mild(S, SRule(S, e, env, f, v, d, st, fuel).kept, Calm(S.G, e, nt))
    ensures Same(EvalRule(P, MeaningRule(S.G, e, nt, fl, v).m, f, d, st, fuel), SRule(S, e, env, f, v, d, st, fuel), d)
    decreases fuel, e, 0
  {
    hide Eval, SEval, E.Meaning, RibsOf, L.Grown, SList, Matches, NotTail, IsTail, Reference, EvalArgs, Apply, SApply, MeaningArgs, EvalList, Arguments, Meanings, EvalRule, SRule, MeaningRule;
    CallRules(S, P, e, nt, env, f, fl, v, d, st, fuel);
    var o := SEval(S, e.fe, env, f, v, d, st, fuel);
    FaithfulOperator(S, P, e.fe, nt, env, f, fl, v, d, st, fuel);
    if o.Had? {
      var v1, fl1 := v + FnCount(e.fe), NotTail(fl);
      var r := SList(S, e.args, env, f, v1, d, o.st, fuel);
      FaithfulList(S, P, e.args, nt, env, f, fl1, v1, d, o.st, fuel);
      ArgumentsMade(S.G, e.args, nt, ActualCount(e.args), fl1, v1);
      PlainFrame(P, Meanings(S.G, e.args, nt, fl1, v1), f, d, o.st, fuel);
      if r.Had? && fuel > 0 {
        FaithfulApply(S, P, o.v, |r.st.frames|, d, WithFrame(r.st, Frame(r.vs + [NIL], |r.vs|, NoFrame)), fuel - 1);
      }
    }
  }

  lemma ClosedRules(S: Library, P: Program, e: Expr, nt: seq<L.Level>, env: Ribs, f: Link, fl: Flags, v: nat, d: Scope, st: Store, fuel: nat)
    requires e.Closed?
    ensures var q := if e.dotted then MeaningDotted(S.G, e.args, nt, ActualCount(e.args), FixedCount(true, e.names), NotTail(fl), v)
                     else MeaningArgs(S.G, e.args, nt, ActualCount(e.args), NotTail(fl), v);
      var o := EvalArgs(P, q.args, f, d, st, fuel);
      EvalRule(P, MeaningRule(S.G, e, nt, fl, v).m, f, d, st, fuel)
      == if o.NotBuilt? then Stuck(o.why)
         else EvalIn(P, Begin(IsTail(fl), MeaningEach(S.G, e.body, ParamTree(e.dotted, e.names, nt), fl, q.v).ms), o.a, f, d, o.st, fuel)
    ensures var o := SList(S, e.args, env, f, v, d, st, fuel);
      SRule(S, e, env, f, v, d, st, fuel)
      == if o.Nothing? then Result.Nothing(o.why, o.kept)
         else
           var a := Frm(|o.st.frames|);
           After(o.kept, SEach(S, e.body, [Params(a, Slots(e.dotted, e.names))] + env, a, v + FnCountArgs(e.args), o.d,
                               WithFrame(o.st, LetFrame(e.dotted, e.names, o.vs).(next := f)), fuel))
  {
    hide Eval, SEval, E.Meaning, MeaningArgs, MeaningDotted, MeaningEach, SList, SEach, EvalIn, EvalArgs, NotTail, IsTail, ParamTree, FormalsOf, LetFrame, Slots, WithFrame;
  }

  lemma {:induction false} FaithfulClosed(S: Library, P: Program, e: Expr, nt: seq<L.Level>, env: Ribs, f: Link, fl: Flags, v: nat, d: Scope, st: Store, fuel: nat)
    requires e.Closed? && Matches(S, P) && Proper(e) && L.Grown(nt) && RibsOf(nt, st.frames, f) == Some(env)
    requires Mild(S, SRule(S, e, env, f, v, d, st, fuel).kept, Calm(S.G, e, nt))
    ensures Same(EvalRule(P, MeaningRule(S.G, e, nt, fl, v).m, f, d, st, fuel), SRule(S, e, env, f, v, d, st, fuel), d)
    decreases fuel, e, 0
  {
    hide Eval, SEval, E.Meaning, RibsOf, L.Grown, SList, Matches, NotTail, IsTail, EvalArgs, EvalIn, MeaningArgs, MeaningDotted, MeaningEach, FormalsOf, SEach, LetFrame, Meanings, ParamTree, Slots, EvalRule, SRule, MeaningRule;
    ClosedRules(S, P, e, nt, env, f, fl, v, d, st, fuel);
    var fl1 := NotTail(fl);
    var r := SList(S, e.args, env, f, v, d, st, fuel);
    FaithfulList(S, P, e.args, nt, env, f, fl1, v, d, st, fuel);
    LetArguments(S, P, e, nt, f, fl1, v, d, st, fuel);
    if r.Had? {
      var a := |r.st.frames|;
      var s2 := WithFrame(r.st, LetFrame(e.dotted, e.names, r.vs).(next := f));
      assert s2.frames[a].next == f && Grew(r.st.frames, s2.frames);
      RibsKept(nt, r.st.frames, s2.frames, f);
      RibsInside(e.dotted, e.names, nt, env, s2.frames, a);
      var ent := ParamTree(e.dotted, e.names, nt);
      var ms := MeaningEach(S.G, e.body, ent, fl, v + FnCountArgs(e.args)).ms;
      FaithfulBlock(S, P, IsTail(fl), e.body, ent, [Params(Frm(a), Slots(e.dotted, e.names))] + env, Frm(a), fl, v + FnCountArgs(e.args), d, s2, fuel);
      LinksFrame(P, Begin(IsTail(fl), ms), r.st, LetFrame(e.dotted, e.names, r.vs), f, d, fuel);
    }
  }

  /** The frame of a let, made and then linked. */
  lemma LinksFrame(P: Program, m: Icode, st: Store, fr: Frame, f: Link, d: Scope, fuel: nat)
    ensures EvalIn(P, m, |st.frames|, f, d, WithFrame(st, fr), fuel) == Eval(P, m, Frm(|st.frames|), d, WithFrame(st, fr.(next := f)), fuel)
  {
    hide Eval;
    var s1 := WithFrame(st, fr);
    assert s1.frames[|st.frames| := s1.frames[|st.frames|].(next := f)] == WithFrame(st, fr.(next := f)).frames;
  }

  /** The arguments of a let make the frame its function wants. */
  lemma LetArguments(S: Library, P: Program, e: Expr, nt: seq<L.Level>, f: Link, fl: Flags, v: nat, d: Scope, st: Store, fuel: nat)
    requires e.Closed? && Suits(e.dotted, e.names, ActualCount(e.args))
    ensures var r := EvalList(P, Meanings(S.G, e.args, nt, fl, v), f, d, st, fuel);
      var q := if e.dotted then MeaningDotted(S.G, e.args, nt, ActualCount(e.args), FixedCount(true, e.names), fl, v)
               else MeaningArgs(S.G, e.args, nt, ActualCount(e.args), fl, v);
      && q.v == v + FnCountArgs(e.args)
      && EvalArgs(P, q.args, f, d, st, fuel)
         == if r.Listed? then Built(|r.st.frames|, WithFrame(r.st, LetFrame(e.dotted, e.names, r.vs))) else NotBuilt(r.why)
  {
    hide EvalArgs, EvalList, Meanings, MeaningDotted, MeaningArgs, Arguments, DottedArguments;
    var ms, n := Meanings(S.G, e.args, nt, fl, v), ActualCount(e.args);
    if e.dotted {
      var k := FixedCount(true, e.names);
      DottedCount(S.G, e.args, nt, n, k, fl, v);
      DottedArgumentsMade(S.G, e.args, nt, n, k, fl, v);
      DottedFrame(P, ms, n, k, f, d, st, fuel);
      if EvalList(P, ms, f, d, st, fuel).Listed? {
        var vs := EvalList(P, ms, f, d, st, fuel).vs;
        assert Filled(vs, 0, k) == Frame(vs[..k] + [ListOf(vs[k..])], k, NoFrame);
      }
    } else {
      ArgsCount(S.G, e.args, nt, n, fl, v);
      ArgumentsMade(S.G, e.args, nt, n, fl, v);
      PlainFrame(P, ms, f, d, st, fuel);
    }
  }

  /** Applying a function value runs the function that was written. */
  lemma {:induction false} FaithfulApply(S: Library, P: Program, x: Value, a: nat, d: Scope, st: Store, fuel: nat)
    requires Matches(S, P) && Mild(S, SApply(S, x, a, d, st, fuel).kept, true)
    ensures Same(Apply(P, x, a, d, st, fuel), SApply(S, x, a, d, st, fuel), d)
    decreases fuel, P.funs, 6
  {
    hide Eval, SEval, E.Meaning, RibsOf, L.Grown, SEach, Pack, Supplied, LinkTo;
    if x.Closure? && x.entry in S.defs {
      var def, s1 := S.defs[x.entry], Taken(S.defs[x.entry], a, st);
      WrittenShape(S.G, def, P.funs[x.entry]);
      if s1.Some? && fuel > 0 && LinkTo(s1.value, FrameRef(a), x.env).Some?
         && RibsOf(def.scope, LinkTo(s1.value, FrameRef(a), x.env).value.frames, x.env).Some? {
        FaithfulBody(S, P, def, P.funs[x.entry], x.env, a, d, s1.value, fuel - 1);
      }
    }
  }

  lemma WrittenShape(G: Globals, def: Def, fun: Icode)
    requires WrittenAs(G, def, fun)
    ensures fun.Abstraction? && fun.nary == def.dotted && fun.arity == FixedCount(def.dotted, def.names)
  {
    hide E.Meaning, ParamTree, MeaningEach, FormalsOf, SetTail, L.Grown;
    var fl :| fun == E.Meaning(G, Function(def.dotted, def.names, def.body), def.scope, fl, def.v).m;
    MeaningByRule(G, Function(def.dotted, def.names, def.body), def.scope, fl, def.v);
  }

  lemma {:induction false} FaithfulBody(S: Library, P: Program, def: Def, fun: Icode, g: Link, a: nat, d: Scope, st: Store, fuel: nat)
    requires Matches(S, P) && WrittenAs(S.G, def, fun) && LinkTo(st, FrameRef(a), g).Some?
    requires var s2 := LinkTo(st, FrameRef(a), g).value;
      && RibsOf(def.scope, s2.frames, g).Some?
      && var r := SEach(S, def.body, [Params(Frm(a), Slots(def.dotted, def.names))] + RibsOf(def.scope, s2.frames, g).value, Frm(a), def.v, d, s2, fuel);
         Mild(S, r.kept, CalmDef(S.G, def))
    ensures fun.Abstraction?
    ensures var s2 := LinkTo(st, FrameRef(a), g).value;
      Same(EvalIn(P, fun.mp, a, g, d, st, fuel),
           SEach(S, def.body, [Params(Frm(a), Slots(def.dotted, def.names))] + RibsOf(def.scope, s2.frames, g).value, Frm(a), def.v, d, s2, fuel), d)
    decreases fuel, def.body, 6
  {
    hide Eval, SEval, E.Meaning, RibsOf, L.Grown, SEach, Matches, ParamTree, Slots, MeaningEach, FormalsOf, SetTail;
    var fl :| fun == E.Meaning(S.G, Function(def.dotted, def.names, def.body), def.scope, fl, def.v).m;
    MeaningByRule(S.G, Function(def.dotted, def.names, def.body), def.scope, fl, def.v);
    var s2 := LinkTo(st, FrameRef(a), g).value;
    var env := RibsOf(def.scope, s2.frames, g).value;
    RibsInside(def.dotted, def.names, def.scope, env, s2.frames, a);
    FaithfulBlock(S, P, true, def.body, ParamTree(def.dotted, def.names, def.scope), [Params(Frm(a), Slots(def.dotted, def.names))] + env,
                  Frm(a), SetTail(fl), def.v, d, s2, fuel);
  }
}
