/**
  Locals that a function has closed over.  A local has the first slot its activation does not use in the scope where
  it is made, so that after its block the slot is another local's.
 */
module CapturedLocals {

  import opened Options
  import opened Machine
  import opened Meaning
  import opened ArgumentFrames
  import opened Source
  import opened SourceCorrect
  import L = Lexical
  import opened E = Evaluate

  /** A function without parameters whose body is the local x of activation f, made in the scope nt. */
  predicate Reads(S: Library, k: Value, x: L.Name, nt: seq<L.Level>, v: nat, f: Link) {
    k.Closure? && k.env == f && k.entry in S.defs && S.defs[k.entry] == Def(false, [], Last(Variable(x)), LocalTree(x, nt), v)
  }

  /** Calling it gives what is in the slot. */
  lemma CallReads(S: Library, k: Value, x: L.Name, nt: seq<L.Level>, v: nat, f: Link, d: Scope, st: Store, fuel: nat)
    requires Reads(S, k, x, nt, v, f) && x != L.Unnamed && fuel > 0 && RibsOf(nt, st.frames, f).Some?
    requires Fetch(st.frames, f, 0, L.Base(nt)).Some?
    ensures SApply(S, k, |st.frames|, d, WithFrame(st, Frame([NIL], 0, NoFrame)), fuel)
      == Result.Had(Fetch(st.frames, f, 0, L.Base(nt)).value, WithFrame(st, Frame([NIL], 0, f)), d, true)
  {
    hide SEval, RibsOf;
    var a, s1, s2 := |st.frames|, WithFrame(st, Frame([NIL], 0, NoFrame)), WithFrame(st, Frame([NIL], 0, f));
    var env := RibsOf(nt, st.frames, f).value;
    assert LinkTo(s1, FrameRef(a), f) == Some(s2) by {
      assert s1.frames[a := s1.frames[a].(next := f)] == s2.frames;
    }
    RibsKept(nt, st.frames, s2.frames, f);
    RibsOfLocal(x, nt, s2.frames, f);
    var inner := [Params(Frm(a), [L.Unnamed])] + ([OneLocal(f, x, L.Base(nt))] + env);
    assert Slots(false, []) == [L.Unnamed];
    FoundBehind(Frm(a), f, x, L.Base(nt), env);
    SByRule(S, Variable(x), inner, Frm(a), v, d, s2, fuel - 1);
    assert Taken(S.defs[k.entry], a, s1) == Some(s1);
  }

  lemma RibsOfLocal(x: L.Name, nt: seq<L.Level>, frames: seq<Frame>, f: Link)
    requires RibsOf(nt, frames, f).Some?
    ensures RibsOf(LocalTree(x, nt), frames, f) == Some([OneLocal(f, x, L.Base(nt))] + RibsOf(nt, frames, f).value)
  {
    assert LocalTree(x, nt)[1..] == nt;
  }

  lemma FoundBehind(at: Link, f: Link, x: L.Name, j: nat, env: Ribs)
    requires x != L.Unnamed
    ensures Where([Params(at, [L.Unnamed])] + ([OneLocal(f, x, j)] + env), x) == Cell(f, j)
  {
    var rest := [OneLocal(f, x, j)] + env;
    assert ([Params(at, [L.Unnamed])] + rest)[1..] == rest;
    assert LastIndex([L.Unnamed], x) == None;
  }

  /** A call of g in the scope of a further local y. */
  function Later(y: L.Name, c: Value, g: L.Name): Expr {
    LocalIn(y, Literal(c), Last(Application(Variable(g), NoMore)))
  }

  /** The variable g is an ordinary one where it stands, and holds the value k. */
  predicate Holding(S: Library, g: L.Name, env: Ribs, k: Value, st: Store) {
    Where(env, g) == Outside && S.G(g).Toplevel? && ValueOf(st.values, S.G(g).si) == Some(k)
  }

  /** Another local leaves the slot alone if it has another one. */
  lemma SlotAfter(st: Store, f: Link, size: nat, j: nat, c: Value, i: nat)
    requires Slotted(st, f, size, j, c).Done? && Fetch(st.frames, f, 0, i).Some?
    ensures Fetch(Slotted(st, f, size, j, c).st.frames, f, 0, i) == if i == j then Some(c) else Fetch(st.frames, f, 0, i)
    ensures Grew(st.frames, Slotted(st, f, size, j, c).st.frames) && Slotted(st, f, size, j, c).st.values == st.values
  {
  }

  lemma LaterMeans(S: Library, x: L.Name, nt: seq<L.Level>, v: nat, y: L.Name, c: Value, g: L.Name, k: Value, env: Ribs, f: Link, v2: nat, d: Scope, st: Store, fuel: nat)
    requires Reads(S, k, x, nt, v, f) && x != L.Unnamed && RibsOf(nt, st.frames, f).Some? && Fetch(st.frames, f, 0, L.Base(nt)).Some?
    requires InFunction(env) && Holding(S, g, env, k, st) && g != y && fuel > 1
    requires Slotted(st, f, Room([OneLocal(f, y, NextSlot(env))] + env), NextSlot(env), c).Done?
    ensures var r := SEval(S, Later(y, c, g), env, f, v2, d, st, fuel);
      r.Had? && r.kept && r.v == if L.Base(nt) == NextSlot(env) then c else Fetch(st.frames, f, 0, L.Base(nt)).value
  {
    hide SEval, RibsOf, SApply, Extend, Update, Fetch, Room, NextSlot, InFunction;
    var j := NextSlot(env);
    var inner := [OneLocal(f, y, j)] + env;
    var s3 := Slotted(st, f, Room(inner), j, c).st;
    SByRule(S, Later(y, c, g), env, f, v2, d, st, fuel);
    SByRule(S, Literal(c), env, f, v2, d, st, fuel);
    SlotAfter(st, f, Room(inner), j, c, L.Base(nt));
    RibsKept(nt, st.frames, s3.frames, f);
    assert inner[1..] == env;
    SByRule(S, Application(Variable(g), NoMore), inner, f, v2, d, s3, fuel);
    SByRule(S, Variable(g), inner, f, v2, d, s3, fuel);
    CallReads(S, k, x, nt, v, f, d, s3, fuel - 1);
    assert [] + [NIL] == [NIL];
  }

  /**
    Exactly when: a function that closed over a local x still sees its value, once another local y has been made in the
    same activation, if and only if y was made where more or fewer of the activation's slots were in use than where x
    was, or y has the same value.
   */
  lemma CapturedLocalRead(S: Library, P: Program, x: L.Name, nt: seq<L.Level>, v: nat, y: L.Name, c: Value, g: L.Name, k: Value, nt2: seq<L.Level>, env: Ribs, f: Link, fl: Flags, v2: nat, d: Scope, st: Store, fuel: nat)
    requires Matches(S, P) && L.Grown(nt2) && RibsOf(nt2, st.frames, f) == Some(env)
    requires Reads(S, k, x, nt, v, f) && x != L.Unnamed && RibsOf(nt, st.frames, f).Some? && Fetch(st.frames, f, 0, L.Base(nt)).Some?
    requires InFunction(env) && Holding(S, g, env, k, st) && g != y && fuel > 1
    requires Slotted(st, f, Room([OneLocal(f, y, NextSlot(env))] + env), NextSlot(env), c).Done?
    ensures var o := Eval(P, E.Meaning(S.G, Later(y, c, g), nt2, fl, v2).m, f, d, st, fuel);
      && o.Done?
      && (o.v == Fetch(st.frames, f, 0, L.Base(nt)).value
          <==> L.Base(nt2) != L.Base(nt) || c == Fetch(st.frames, f, 0, L.Base(nt)).value)
  {
    hide Eval, E.Meaning, SEval, RibsOf, Fetch, Slotted, Room, NextSlot, InFunction, Matches, Calm, CalmLibrary, L.Grown, Holding, Reads;
    LaterMeans(S, x, nt, v, y, c, g, k, env, f, v2, d, st, fuel);
    SlotsAre(nt2, st.frames, f);
    LaterProper(y, c, g);
    Faithful(S, P, Later(y, c, g), nt2, env, f, fl, v2, d, st, fuel);
  }

  lemma LaterProper(y: L.Name, c: Value, g: L.Name)
    ensures Proper(Later(y, c, g))
  {
    assert Proper(Variable(g)) && ProperArgs(NoMore);
    assert ProperEach(Last(Application(Variable(g), NoMore)));
  }

  // Two blocks of one function

  /** function () { { x := 1; g = function () x }; { y := 2; (g) } } called. */
  function Siblings(x: L.Name, y: L.Name, g: L.Name): Expr {
    Closed(false, [], Then(First(x, g), Last(Later(y, Fixnum(2), g))), NoMore)
  }

  function First(x: L.Name, g: L.Name): Expr {
    LocalIn(x, Literal(Fixnum(1)), Last(Assign(g, Function(false, [], Last(Variable(x))))))
  }

  const OUTER: seq<L.Level> := ParamTree(false, [], [])

  /** The store behind the first block. */
  function Second(st: Store, f: Link, si: nat, k: Value): Store {
    var s := WithFrame(st, Frame([NIL, Fixnum(1)], 0, f));
    s.(values := s.values[si := k])
  }

  lemma OuterRibs(frames: seq<Frame>, a: nat)
    requires a < |frames|
    ensures L.Grown(OUTER) && L.Base(OUTER) == 1
    ensures RibsOf(OUTER, frames, Frm(a)) == Some([Params(Frm(a), [L.Unnamed])])
  {
    RibsInside(false, [], [], [], frames, a);
    assert Slots(false, []) == [L.Unnamed] && [Params(Frm(a), [L.Unnamed])] + [] == [Params(Frm(a), [L.Unnamed])];
  }

  /** Slots and names in the scope of the first local. */
  lemma OuterSlots(a: Link, z: L.Name, g: L.Name)
    requires g != z && g != L.Unnamed
    ensures var env := [Params(a, [L.Unnamed])];
      && NextSlot(env) == 1 && Room([OneLocal(a, z, 1)] + env) == 2 && InFunction(env)
      && Where(env, g) == Outside && Where([OneLocal(a, z, 1)] + env, g) == Outside
  {
    var env := [Params(a, [L.Unnamed])];
    assert env[0].Params?;
    assert ([OneLocal(a, z, 1)] + env)[1..] == env;
    assert LastIndex([L.Unnamed], g) == None;
    assert env[1..] == [];
  }

  /** The slot after the one parameter slot. */
  lemma OuterExtended(st: Store, f: Link, fr: Frame, c: Value)
    requires fr == Frame([NIL], 0, f) || (exists w :: fr == Frame([NIL, w], 0, f))
    ensures Slotted(WithFrame(st, fr), Frm(|st.frames|), 2, 1, c) == Done(c, WithFrame(st, Frame([NIL, c], 0, f)))
  {
    var s := WithFrame(st, fr);
    var s2 := Extend(s, Frm(|st.frames|), 2).value;
    assert |s2.frames[|st.frames|].args| == 2 && s2.frames[|st.frames|].args[0] == NIL;
    assert s2.frames[|st.frames|].args[1 := c] == [NIL, c];
    assert s2.frames[|st.frames| := Frame([NIL, c], 0, f)] == WithFrame(st, Frame([NIL, c], 0, f)).frames;
  }

  lemma FirstMeans(S: Library, x: L.Name, g: L.Name, si: nat, f: Link, v: nat, d: Scope, st: Store, fuel: nat)
    requires x != g && g != L.Unnamed && S.G(g) == Toplevel(si) && si !in S.labels
    requires Leads(S, v, Def(false, [], Last(Variable(x)), LocalTree(x, OUTER), v))
    ensures var a := Frm(|st.frames|);
      SEval(S, First(x, g), [Params(a, [L.Unnamed])], a, v, d, WithFrame(st, Frame([NIL], 0, f)), fuel)
      == Result.Had(Closure(S.labels[v], a), Second(st, f, si, Closure(S.labels[v], a)), d, true)
  {
    hide SEval, RibsOf, Extend, Update, Room, NextSlot, InFunction, Where, LocalTree;
    var a, s1, s3 := Frm(|st.frames|), WithFrame(st, Frame([NIL], 0, f)), WithFrame(st, Frame([NIL, Fixnum(1)], 0, f));
    var env := [Params(a, [L.Unnamed])];
    var inner := [OneLocal(a, x, 1)] + env;
    var fun := Function(false, [], Last(Variable(x)));
    OuterSlots(a, x, g);
    OuterExtended(st, f, Frame([NIL], 0, f), Fixnum(1));
    OuterRibs(s3.frames, |st.frames|);
    RibsOfLocal(x, OUTER, s3.frames, a);
    SByRule(S, First(x, g), env, a, v, d, s1, fuel);
    SByRule(S, Literal(Fixnum(1)), env, a, v, d, s1, fuel);
    SByRule(S, Assign(g, fun), inner, a, v, d, s3, fuel);
    SByRule(S, fun, inner, a, v, d, s3, fuel);
    assert FnCount(Variable(x)) == 0;
  }

  /** The value is that of y, for the first block's function too; of the I-code as of the expression. */
  lemma SiblingSeen(S: Library, P: Program, x: L.Name, y: L.Name, g: L.Name, si: nat, f: Link, fl: Flags, v: nat, d: Scope, st: Store, fuel: nat)
    requires x != g && y != g && g != L.Unnamed && x != L.Unnamed && S.G(g) == Toplevel(si) && si !in S.labels && Matches(S, P) && fuel > 1
    requires Leads(S, v, Def(false, [], Last(Variable(x)), LocalTree(x, OUTER), v))
    ensures var o := Eval(P, E.Meaning(S.G, Siblings(x, y, g), [], fl, v).m, f, d, st, fuel); o.Done? && o.v == Fixnum(2)
  {
    hide Eval, E.Meaning, SEval, RibsOf, Matches, Calm, CalmLibrary, L.Grown, Leads;
    SiblingsMean(S, x, y, g, si, f, v, d, st, fuel);
    SiblingsProper(x, y, g);
    NoScopeRibs(st.frames, f);
    Faithful(S, P, Siblings(x, y, g), [], [], f, fl, v, d, st, fuel);
  }

  lemma NoScopeRibs(frames: seq<Frame>, f: Link)
    ensures L.Grown([]) && RibsOf([], frames, f) == Some([])
  {
  }

  lemma SiblingsProper(x: L.Name, y: L.Name, g: L.Name)
    ensures Proper(Siblings(x, y, g))
  {
    LaterProper(y, Fixnum(2), g);
    assert ProperEach(Last(Variable(x)));
    assert Proper(Function(false, [], Last(Variable(x))));
    assert ProperEach(Last(Assign(g, Function(false, [], Last(Variable(x))))));
    assert Proper(First(x, g));
    assert ProperEach(Last(Later(y, Fixnum(2), g)));
  }

  lemma SiblingsMean(S: Library, x: L.Name, y: L.Name, g: L.Name, si: nat, f: Link, v: nat, d: Scope, st: Store, fuel: nat)
    requires x != g && y != g && g != L.Unnamed && x != L.Unnamed && S.G(g) == Toplevel(si) && si !in S.labels && fuel > 1
    requires Leads(S, v, Def(false, [], Last(Variable(x)), LocalTree(x, OUTER), v))
    ensures var r := SEval(S, Siblings(x, y, g), [], f, v, d, st, fuel); r.Had? && r.kept && r.v == Fixnum(2)
  {
    hide SEval, SEach, Leads, LocalTree;
    BlocksMean(S, x, y, g, si, f, v, d, st, fuel);
    SByRule(S, Siblings(x, y, g), [], f, v, d, st, fuel);
    assert LetFrame(false, [], []).(next := f) == Frame([NIL], 0, f);
    assert Slots(false, []) == [L.Unnamed];
    assert [Params(Frm(|st.frames|), Slots(false, []))] + [] == [Params(Frm(|st.frames|), [L.Unnamed])];
  }

  lemma BlocksMean(S: Library, x: L.Name, y: L.Name, g: L.Name, si: nat, f: Link, v: nat, d: Scope, st: Store, fuel: nat)
    requires x != g && y != g && g != L.Unnamed && x != L.Unnamed && S.G(g) == Toplevel(si) && si !in S.labels && fuel > 1
    requires Leads(S, v, Def(false, [], Last(Variable(x)), LocalTree(x, OUTER), v))
    ensures var a := Frm(|st.frames|);
      var r := SEach(S, Then(First(x, g), Last(Later(y, Fixnum(2), g))), [Params(a, [L.Unnamed])], a, v, d, WithFrame(st, Frame([NIL], 0, f)), fuel);
      r.Had? && r.kept && r.v == Fixnum(2)
  {
    hide SEval, RibsOf, Room, NextSlot, InFunction, Where, LocalTree, Slotted, First, Later;
    var a, k := Frm(|st.frames|), Closure(S.labels[v], Frm(|st.frames|));
    var env, s2 := [Params(a, [L.Unnamed])], Second(st, f, si, k);
    FirstMeans(S, x, g, si, f, v, d, st, fuel);
    OuterSlots(a, y, g);
    assert s2 == WithFrame(st.(values := st.values[si := k]), Frame([NIL, Fixnum(1)], 0, f));
    OuterExtended(st.(values := st.values[si := k]), f, Frame([NIL, Fixnum(1)], 0, f), Fixnum(2));
    OuterRibs(s2.frames, |st.frames|);
    assert Fetch(s2.frames, a, 0, 1) == Some(Fixnum(1));
    LaterMeans(S, x, OUTER, v, y, Fixnum(2), g, k, env, a, v + FnCount(First(x, g)), d, s2, fuel);
  }
}
