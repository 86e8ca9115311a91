/**
  Assignments to dynamic and environment variables.  The evaluator compiles them to a change of the variable's value
  in the table, where references look only when no binding is in force.
 */
module ScopedAssignment {

  import opened Options
  import opened Machine
  import opened Icode
  import opened Meaning
  import opened Source
  import opened SourceCorrect
  import L = Lexical
  import opened E = Evaluate

  // What assigning means

  lemma {:induction false} LookupRebound(d: Scope, environ: bool, si: nat, v: Value, e: bool, x: nat)
    ensures Lookup(Rebound(d, environ, si, v), e, x)
      == if e == environ && x == si && Lookup(d, e, x).Some? then Some(v) else Lookup(d, e, x)
  {
    if d.Bind? {
      LookupRebound(d.rest, environ, si, v, e, x);
    }
  }

  /** In the source language a name has the value last assigned to it, wherever it is bound. */
  lemma GetAfterPut(S: Library, env: Ribs, name: L.Name, v: Value, d: Scope, st: Store)
    requires Put(S, env, name, v, d, st).Had?
    ensures var r := Put(S, env, name, v, d, st); r.v == v && Get(S, env, name, r.d, r.st) == Done(v, r.st)
  {
    hide Where, PlaceOf;
    var p := PlaceOf(S, env, name);
    if p.Dyn? {
      LookupRebound(d, p.environ, p.si, v, p.environ, p.si);
    }
  }

  // What the I-code does

  /** name = c, then name. */
  function SetThenGet(name: L.Name, c: Value): Exprs {
    Then(Assign(name, Literal(c)), Last(Variable(name)))
  }

  /** The value a reference has after an assignment's I-code. */
  lemma ReadBack(S: Library, P: Program, name: L.Name, c: Value, nt: seq<L.Level>, env: Ribs, f: Link, d: Scope, st: Store, fuel: nat)
    requires L.Grown(nt) && S.labels == P.labels && RibsOf(nt, st.frames, f) == Some(env)
    requires Eval(P, Assignment(S.G, name, nt, ConstantOf(c)), f, d, st, fuel).Done?
    ensures var o := Eval(P, Assignment(S.G, name, nt, ConstantOf(c)), f, d, st, fuel);
      && o.v == c
      && Eval(P, Reference(S.G, false, name, nt), f, d, o.st, fuel)
         == Done(if InForce(S, env, name, d) then Lookup(d, PlaceOf(S, env, name).environ, PlaceOf(S, env, name).si).value else c, o.st)
      && (InForce(S, env, name, d) ==> o.st == st.(values := st.values[PlaceOf(S, env, name).si := c]))
  {
    hide Eval, RibsOf, L.Grown, Assignment, Reference, Where;
    var m := Assignment(S.G, name, nt, ConstantOf(c));
    EvalByRule(P, ConstantOf(c), f, d, st, fuel);
    StillRibs(P, m, nt, env, f, d, st, fuel);
    ReferenceMeans(S, P, false, name, nt, env, f, d, Eval(P, m, f, d, st, fuel).st, fuel);
    if InForce(S, env, name, d) {
      AssignmentMisses(S, P, name, nt, ConstantOf(c), env, f, d, st, fuel);
    } else {
      AssignmentMeans(S, P, name, nt, ConstantOf(c), env, f, d, st, fuel);
      GetAfterPut(S, env, name, c, d, st);
      PutKept(S, env, name, c, d, st);
    }
  }

  /** The I-code of an assignment and a reference, one after the other. */
  lemma SetThenGetRuns(S: Library, P: Program, name: L.Name, c: Value, nt: seq<L.Level>, f: Link, fl: Flags, v: nat, d: Scope, st: Store, fuel: nat)
    ensures EvalEach(P, MeaningEach(S.G, SetThenGet(name, c), nt, fl, v).ms, f, d, st, fuel)
      == var o := Eval(P, Assignment(S.G, name, nt, ConstantOf(c)), f, d, st, fuel);
         if o.Stuck? then o else Eval(P, Reference(S.G, false, name, nt), f, d, o.st, fuel)
  {
    hide Eval, E.Meaning, Assignment, Reference, NotTail, NoDefine, ToplevelScope;
    var fl1 := NoDefine(NotTail(ToplevelScope(NotTail(fl))));
    MeaningByRule(S.G, Assign(name, Literal(c)), nt, NotTail(fl), v);
    MeaningByRule(S.G, Literal(c), nt, fl1, v);
    MeaningByRule(S.G, Variable(name), nt, fl, v);
  }

  /**
    Exactly when: after a name has been assigned a value, the name has that value if and only if it has no binding
    in force with another one.
   */
  lemma AssignedValueRead(S: Library, P: Program, name: L.Name, c: Value, nt: seq<L.Level>, env: Ribs, f: Link, fl: Flags, v: nat, d: Scope, st: Store, fuel: nat)
    requires L.Grown(nt) && S.labels == P.labels && RibsOf(nt, st.frames, f) == Some(env)
    requires Eval(P, E.Meaning(S.G, Block(SetThenGet(name, c)), nt, fl, v).m, f, d, st, fuel).Done?
    ensures var p := PlaceOf(S, env, name);
      Eval(P, E.Meaning(S.G, Block(SetThenGet(name, c)), nt, fl, v).m, f, d, st, fuel).v == c
      <==> !(InForce(S, env, name, d) && Lookup(d, p.environ, p.si) != Some(c))
  {
    hide Eval, EvalEach, E.Meaning, MeaningEach, RibsOf, L.Grown, Assignment, Reference, Where, IsTail, SetThenGet;
    var es := SetThenGet(name, c);
    MeaningByRule(S.G, Block(es), nt, fl, v);
    EvalByRule(P, E.Meaning(S.G, Block(es), nt, fl, v).m, f, d, st, fuel);
    SetThenGetRuns(S, P, name, c, nt, f, fl, v, d, st, fuel);
    ReadBack(S, P, name, c, nt, env, f, d, st, fuel);
  }

  /** dynamic-let (name 1) { name = 2; name }, or the same of the environment. */
  function Witness(environ: bool, name: L.Name, si: nat): Expr {
    ScopedIn(environ, name, si, Literal(Fixnum(1)), SetThenGet(name, Fixnum(2)))
  }

  /** Its value is 2 in the source language and 1 of its I-code, which leaves 2 in the table. */
  lemma BindingMissed(S: Library, P: Program, environ: bool, name: L.Name, si: nat, f: Link, fl: Flags, v: nat, d: Scope, st: Store, fuel: nat)
    requires S.labels == P.labels && si !in P.labels
    ensures SEval(S, Witness(environ, name, si), [], f, v, d, st, fuel) == Result.Had(Fixnum(2), st, d, false)
    ensures Eval(P, E.Meaning(S.G, Witness(environ, name, si), [], fl, v).m, f, d, st, fuel)
      == Done(Fixnum(1), st.(values := st.values[si := Fixnum(2)]))
  {
    WitnessMeans(S, environ, name, si, f, v, d, st, fuel);
    WitnessRuns(S, P, environ, name, si, f, fl, v, d, st, fuel);
  }

  lemma WitnessMeans(S: Library, environ: bool, name: L.Name, si: nat, f: Link, v: nat, d: Scope, st: Store, fuel: nat)
    ensures SEval(S, Witness(environ, name, si), [], f, v, d, st, fuel) == Result.Had(Fixnum(2), st, d, false)
  {
    hide SEval;
    var env, d1 := [Binds(name, environ, si)], Bind(environ, si, Fixnum(1), d);
    var d2 := Bind(environ, si, Fixnum(2), d);
    assert [Binds(name, environ, si)] + [] == env;
    assert Where(env, name) == Dyn(environ, si);
    SByRule(S, Witness(environ, name, si), [], f, v, d, st, fuel);
    SByRule(S, Literal(Fixnum(1)), [], f, v, d, st, fuel);
    SByRule(S, Assign(name, Literal(Fixnum(2))), env, f, v, d1, st, fuel);
    SByRule(S, Literal(Fixnum(2)), env, f, v, d1, st, fuel);
    SByRule(S, Variable(name), env, f, v, d2, st, fuel);
    assert FnCount(Literal(Fixnum(1))) == 0 && FnCount(Assign(name, Literal(Fixnum(2)))) == FnCount(Literal(Fixnum(2))) == 0;
    assert SEval(S, Assign(name, Literal(Fixnum(2))), env, f, v, d1, st, fuel) == Result.Had(Fixnum(2), st, d2, false);
    assert SEach(S, Last(Variable(name)), env, f, v, d2, st, fuel) == Result.Had(Fixnum(2), st, d2, true);
  }

  lemma WitnessRuns(S: Library, P: Program, environ: bool, name: L.Name, si: nat, f: Link, fl: Flags, v: nat, d: Scope, st: Store, fuel: nat)
    requires S.labels == P.labels && si !in P.labels
    ensures Eval(P, E.Meaning(S.G, Witness(environ, name, si), [], fl, v).m, f, d, st, fuel)
      == Done(Fixnum(1), st.(values := st.values[si := Fixnum(2)]))
  {
    hide Eval, EvalEach, E.Meaning, MeaningEach, Assignment, Reference, NotTail, IsTail, SetThenGet;
    var d1 := Bind(environ, si, Fixnum(1), d);
    var nt := L.ExtendScoped([], name, if environ then L.Environ else L.Dynamic, si);
    var e := Witness(environ, name, si);
    MeaningByRule(S.G, e, [], fl, v);
    MeaningByRule(S.G, Literal(Fixnum(1)), [], NotTail(fl), v);
    EvalByRule(P, E.Meaning(S.G, e, [], fl, v).m, f, d, st, fuel);
    EvalByRule(P, ConstantOf(Fixnum(1)), f, d, st, fuel);
    EvalByRule(P, Begin(false, MeaningEach(S.G, SetThenGet(name, Fixnum(2)), nt, NotTail(fl), v).ms), f, d1, st, fuel);
    BodyMisses(S, P, environ, name, si, f, NotTail(fl), v, d, st, fuel);
  }

  lemma BodyMisses(S: Library, P: Program, environ: bool, name: L.Name, si: nat, f: Link, fl: Flags, v: nat, d: Scope, st: Store, fuel: nat)
    requires S.labels == P.labels && si !in P.labels
    ensures var nt := L.ExtendScoped([], name, if environ then L.Environ else L.Dynamic, si);
      EvalEach(P, MeaningEach(S.G, SetThenGet(name, Fixnum(2)), nt, fl, v).ms, f, Bind(environ, si, Fixnum(1), d), st, fuel)
      == Done(Fixnum(1), st.(values := st.values[si := Fixnum(2)]))
  {
    hide Eval, EvalEach, MeaningEach, Assignment, Reference, SetThenGet;
    var env, d1 := [Binds(name, environ, si)], Bind(environ, si, Fixnum(1), d);
    var nt := L.ExtendScoped([], name, if environ then L.Environ else L.Dynamic, si);
    RibsScoped(environ, name, si, [], [], st.frames, f);
    assert [Binds(name, environ, si)] + [] == env;
    assert Where(env, name) == Dyn(environ, si);
    SetThenGetRuns(S, P, name, Fixnum(2), nt, f, fl, v, d1, st, fuel);
    EvalByRule(P, ConstantOf(Fixnum(2)), f, d1, st, fuel);
    AssignmentMisses(S, P, name, nt, ConstantOf(Fixnum(2)), env, f, d1, st, fuel);
    ReadBack(S, P, name, Fixnum(2), nt, env, f, d1, st, fuel);
  }
}
