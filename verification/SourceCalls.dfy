/** What a function of the source language sees of its call, by the names of its parameters. */
module SourceCalls {

  import opened Options
  import opened Machine
  import opened Icode
  import opened Meaning
  import opened ArgumentFrames
  import opened Calls
  import opened Source
  import opened SourceCorrect
  import L = Lexical

  /** The value a call gives to parameter i. */
  predicate Argument(dotted: bool, count: nat, vs: seq<Value>, i: nat, v: Value)
    requires i < count && Fit(dotted, if dotted then count - 1 else count, vs)
  {
    if dotted && i == count - 1 then Lists(v, vs[i..]) else v == vs[i]
  }

  /**
    A function of the source language applied to arguments runs its body where each of its parameters has its own
    argument, and the last of a dotted list the list of those left; with too few or too many it faults.
   */
  lemma ParametersSee(S: Library, entry: nat, g: Link, vs: seq<Value>, d: Scope, st: Store, fuel: nat) returns (env: Ribs, after: Store)
    requires entry in S.defs && (S.defs[entry].dotted ==> S.defs[entry].names != []) && RibsOf(S.defs[entry].scope, st.frames, g).Some?
    ensures var def, a := S.defs[entry], |st.frames|;
      var count := |def.names|;
      var o := SApply(S, Closure(entry, g), a, d, WithFrame(st, CallFrame(vs, NoFrame)), fuel);
      if !Fit(def.dotted, if def.dotted then count - 1 else count, vs) then o == Result.Nothing(Fault, true)
      else if fuel == 0 then o == Result.Nothing(Deep, true)
      else
        && o == SEach(S, def.body, env, Frm(a), def.v, d, after, fuel - 1)
        && after.values == st.values && |after.frames| == a + 1 && after.frames[..a] == st.frames && after.frames[a].next == g
        && (forall i :: 0 <= i < count && def.names[i] != L.Unnamed && LastIndex(def.names, def.names[i]) == Some(i) ==>
              var r := Get(S, env, def.names[i], d, after);
              r.Done? && r.st == after && Argument(def.dotted, count, vs, i, r.v))
  {
    hide SEach, RibsOf, Lists, Sees, Taken, LinkTo;
    var def, a, st1 := S.defs[entry], |st.frames|, WithFrame(st, CallFrame(vs, NoFrame));
    var arity := if def.dotted then |def.names| - 1 else |def.names|;
    env, after := [], st1;
    TakenIs(def, vs, st);
    if Fit(def.dotted, arity, vs) && fuel > 0 {
      var s1 := Taken(def, a, st1).value;
      Linking(s1, a, def.dotted, arity, vs, NoFrame, g);
      after := LinkTo(s1, FrameRef(a), g).value;
      StillThere(st, s1, after, a);
      RibsKept(def.scope, st.frames, after.frames, g);
      env := [Params(Frm(a), Slots(def.dotted, def.names))] + RibsOf(def.scope, after.frames, g).value;
      forall i | 0 <= i < |def.names| && def.names[i] != L.Unnamed && LastIndex(def.names, def.names[i]) == Some(i)
        ensures var r := Get(S, env, def.names[i], d, after);
          r.Done? && r.st == after && Argument(def.dotted, |def.names|, vs, i, r.v)
      {
        ParameterSees(S, def, env, a, vs, g, d, after, i);
      }
    }
  }

  lemma TakenIs(def: Def, vs: seq<Value>, st: Store)
    requires def.dotted ==> def.names != []
    ensures var a, st1 := |st.frames|, WithFrame(st, CallFrame(vs, NoFrame));
      var arity := if def.dotted then |def.names| - 1 else |def.names|;
      && (Taken(def, a, st1).Some? <==> Fit(def.dotted, arity, vs))
      && (Taken(def, a, st1).Some? ==>
           Only(st1, a, Taken(def, a, st1).value) && Sees(Taken(def, a, st1).value.frames[a], def.dotted, arity, vs, NoFrame))
  {
    hide ListOf, Pack, Lists, Sees;
    var arity := if def.dotted then |def.names| - 1 else |def.names|;
    var fun := Abstraction(def.dotted, ConstantOf(NIL), NIL, arity, NIL, NIL, 0);
    var st1 := WithFrame(st, CallFrame(vs, NoFrame));
    Accepts(fun, vs, |st.frames|, NoFrame, st1);
  }

  lemma StillThere(st: Store, s1: Store, after: Store, a: nat)
    requires a == |st.frames| && |s1.frames| == a + 1 && Only(s1, a, after) && s1.values == st.values
    requires forall b :: 0 <= b < a ==> s1.frames[b] == st.frames[b]
    ensures after.values == st.values && after.frames[..a] == st.frames && Grew(st.frames, after.frames)
  {
  }

  lemma ParameterSees(S: Library, def: Def, env: Ribs, a: nat, vs: seq<Value>, g: Link, d: Scope, st: Store, i: nat)
    requires (def.dotted ==> def.names != []) && a < |st.frames| && i < |def.names| && LastIndex(def.names, def.names[i]) == Some(i)
    requires Sees(st.frames[a], def.dotted, if def.dotted then |def.names| - 1 else |def.names|, vs, g)
    requires env != [] && env[0] == Params(Frm(a), Slots(def.dotted, def.names))
    requires def.names[i] != L.Unnamed
    ensures var r := Get(S, env, def.names[i], d, st); r.Done? && r.st == st && Argument(def.dotted, |def.names|, vs, i, r.v)
  {
    hide Lists;
    var xs := Slots(def.dotted, def.names);
    LastBefore(def.names, xs, def.names[i]);
    assert Where(env, def.names[i]) == Cell(Frm(a), i);
  }

  /** The unnamed slot behind the parameters hides none of them. */
  lemma LastBefore(names: seq<L.Name>, xs: seq<L.Name>, name: L.Name)
    requires xs == names || xs == names + [L.Unnamed]
    requires name != L.Unnamed
    ensures LastIndex(xs, name) == LastIndex(names, name)
  {
    if xs == names + [L.Unnamed] {
      assert xs[..|xs| - 1] == names;
    }
  }

  /** A call of a dotted function and a let over the same parameters and arguments give the parameters the same values. */
  lemma CallIsLet(names: seq<L.Name>, vs: seq<Value>, fr: Frame, g: Link, i: nat)
    requires names != [] && Sees(fr, true, |names| - 1, vs, g) && i < |names|
    ensures i < |fr.args| && i < |LetFrame(true, names, vs).args| && LetFrame(true, names, vs).args[i] == fr.args[i]
  {
    hide ListOf, Lists;
    var k := |names| - 1;
    if i == k {
      OneList(fr.args[k], ListOf(vs[k..]), vs[k..]);
    }
  }

  /** A primitive gets just its arguments. */
  lemma PrimitiveGets(S: Library, p: nat, vs: seq<Value>, d: Scope, st: Store, fuel: nat)
    ensures SApply(S, Primitive(p), |st.frames|, d, WithFrame(st, CallFrame(vs, NoFrame)), fuel)
      == if S.prim(p, vs).None? then Result.Nothing(Fault, true)
         else Result.Had(S.prim(p, vs).value, WithFrame(st, CallFrame(vs, NoFrame)), d, true)
  {
    PrimitiveTakes(S.prim, WithFrame(st, CallFrame(vs, NoFrame)), p, vs, |st.frames|, NoFrame);
  }
}
