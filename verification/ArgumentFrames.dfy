/** The frames built for calls: slot k holds the k-th argument, and a dotted call collects the rest. */
module ArgumentFrames {

  import opened Options
  import opened Varuint
  import opened Machine
  import opened Icode
  import opened Meaning
  import opened Correct
  import E = Evaluate
  import L = Lexical

  datatype Listed = Listed(vs: seq<Value>, st: Store) | NotListed(why: Reason)

  /** The values of the arguments, evaluated left to right. */
  function EvalList(P: Program, ms: seq<Icode>, f: Link, d: Scope, st: Store, fuel: nat): (r: Listed)
    ensures r.Listed? ==> |r.vs| == |ms|
    decreases |ms|
  {
    if ms == [] then Listed([], st)
    else
      match Eval(P, ms[0], f, d, st, fuel)
      case Stuck(w) => NotListed(w)
      case Done(v, s1) =>
        match EvalList(P, ms[1..], f, d, s1, fuel)
        case NotListed(w) => NotListed(w)
        case Listed(vs, s2) => Listed([v] + vs, s2)
  }

  /** The I-code for the arguments still to come of a call with arity of them. */
  function Arguments(ms: seq<Icode>, arity: nat): (args: Args)
    requires |ms| <= arity
    decreases |ms|
  {
    if ms == [] then AllocFrame(arity) else StoreArgument(ms[0], Arguments(ms[1..], arity), arity - |ms|)
  }

  /** The same for a function that takes arity arguments and a list of the rest. */
  function DottedArguments(ms: seq<Icode>, nargs: nat, arity: nat): (args: Args)
    requires |ms| <= nargs
    decreases |ms|
  {
    if ms == [] then AllocFrame(arity)
    else if nargs - |ms| < arity then StoreArgument(ms[0], DottedArguments(ms[1..], nargs, arity), nargs - |ms|)
    else ListArgument(ms[0], DottedArguments(ms[1..], nargs, arity), arity)
  }

  /** A frame whose slots from r up to arity hold the first of vs, and whose last slot lists the others. */
  function Filled(vs: seq<Value>, r: nat, arity: nat): (fr: Frame)
    requires r <= arity ==> arity - r <= |vs|
  {
    Frame(seq(arity, j requires 0 <= j < arity => if j < r then UNDEF else vs[j - r])
          + [ListOf(vs[if r <= arity then arity - r else 0..])], arity, NoFrame)
  }

  function WithFrame(st: Store, fr: Frame): (r: Store) {
    st.(frames := st.frames + [fr])
  }

  lemma UpdateLast(st: Store, fr: Frame, j: nat, v: Value)
    requires j < |fr.args|
    ensures Update(WithFrame(st, fr), Frm(|st.frames|), 0, j, v) == Some(WithFrame(st, fr.(args := fr.args[j := v])))
  {
    var frames := st.frames + [fr];
    assert frames[|st.frames| := fr.(args := fr.args[j := v])] == st.frames + [fr.(args := fr.args[j := v])];
  }

  lemma FillSlot(v: Value, vs: seq<Value>, r: nat, arity: nat)
    requires r < arity && arity - r - 1 <= |vs|
    ensures var fr := Filled(vs, r + 1, arity); fr.(args := fr.args[r := v]) == Filled([v] + vs, r, arity)
  {
    var a, b := Filled(vs, r + 1, arity), Filled([v] + vs, r, arity);
    assert ([v] + vs)[arity - r..] == vs[arity - r - 1..];
    assert a.args[r := v] == b.args;
  }

  lemma FillList(v: Value, vs: seq<Value>, r: nat, arity: nat)
    requires arity <= r
    ensures var fr := Filled(vs, r + 1, arity);
      fr.args[arity] == ListOf(vs) && fr.(args := fr.args[arity := Pair(v, ListOf(vs))]) == Filled([v] + vs, r, arity)
  {
    ListOfMore(v, vs);
    hide ListOf;
    var a, b := Filled(vs, r + 1, arity), Filled([v] + vs, r, arity);
    assert vs[0..] == vs && ([v] + vs)[0..] == [v] + vs;
    assert a.args[arity := Pair(v, ListOf(vs))] == b.args;
  }

  lemma ListOfMore(v: Value, vs: seq<Value>)
    ensures ListOf([v] + vs) == Pair(v, ListOf(vs))
  {
    assert ([v] + vs)[1..] == vs;
  }

  lemma EmptyFilled(r: nat, arity: nat)
    requires r >= arity
    ensures Filled([], r, arity) == NewFrame(arity + 1)
  {
  }

  /** The frame of the arguments from rank nargs - |ms| on: built exactly when they all have values, and filled with them. */
  lemma {:induction false} DottedFrame(P: Program, ms: seq<Icode>, nargs: nat, arity: nat, f: Link, d: Scope, st: Store, fuel: nat)
    requires |ms| <= nargs && arity <= nargs
    ensures var r := EvalList(P, ms, f, d, st, fuel);
      EvalArgs(P, DottedArguments(ms, nargs, arity), f, d, st, fuel)
      == if r.Listed? then Built(|r.st.frames|, WithFrame(r.st, Filled(r.vs, nargs - |ms|, arity))) else NotBuilt(r.why)
    decreases |ms|
  {
    hide Eval, Update, Fetch, Filled, WithFrame;
    if ms == [] {
      EmptyFilled(nargs, arity);
      Framed(st, NewFrame(arity + 1));
    } else {
      var o := Eval(P, ms[0], f, d, st, fuel);
      if o.Done? {
        DottedFrame(P, ms[1..], nargs, arity, f, d, o.st, fuel);
        var q := EvalList(P, ms[1..], f, d, o.st, fuel);
        if q.Listed? {
          Place(q.st, o.v, q.vs, nargs - |ms|, arity);
        }
      }
    }
  }

  lemma Framed(st: Store, fr: Frame)
    ensures WithFrame(st, fr) == st.(frames := st.frames + [fr])
  {
  }

  /** What one more argument does to the frame. */
  lemma Place(st: Store, v: Value, vs: seq<Value>, r: nat, arity: nat)
    requires r < arity ==> arity - r - 1 <= |vs|
    ensures var s1, a := WithFrame(st, Filled(vs, r + 1, arity)), Frm(|st.frames|);
      var s2 := WithFrame(st, Filled([v] + vs, r, arity));
      && (r < arity ==> Update(s1, a, 0, r, v) == Some(s2))
      && (r >= arity ==> Fetch(s1.frames, a, 0, arity) == Some(ListOf(vs)) && Update(s1, a, 0, arity, Pair(v, ListOf(vs))) == Some(s2))
  {
    hide Update;
    var fr := Filled(vs, r + 1, arity);
    if r < arity {
      FillSlot(v, vs, r, arity);
      UpdateLast(st, fr, r, v);
    } else {
      FillList(v, vs, r, arity);
      UpdateLast(st, fr, arity, Pair(v, ListOf(vs)));
      assert WithFrame(st, fr).frames[|st.frames|] == fr;
    }
  }

  /** A call with exactly arity arguments is a dotted one that has no rest. */
  lemma {:induction false} PlainIsDotted(ms: seq<Icode>, arity: nat)
    requires |ms| <= arity
    ensures Arguments(ms, arity) == DottedArguments(ms, arity, arity)
    decreases |ms|
  {
    if ms != [] {
      PlainIsDotted(ms[1..], arity);
    }
  }

  /** Slot k is the k-th argument, and the slot for further arguments is empty. */
  lemma PlainFrame(P: Program, ms: seq<Icode>, f: Link, d: Scope, st: Store, fuel: nat)
    ensures var r := EvalList(P, ms, f, d, st, fuel);
      EvalArgs(P, Arguments(ms, |ms|), f, d, st, fuel)
      == if r.Listed? then Built(|r.st.frames|, WithFrame(r.st, Frame(r.vs + [NIL], |ms|, NoFrame))) else NotBuilt(r.why)
  {
    hide EvalArgs, Eval;
    PlainIsDotted(ms, |ms|);
    DottedFrame(P, ms, |ms|, |ms|, f, d, st, fuel);
    var r := EvalList(P, ms, f, d, st, fuel);
    if r.Listed? {
      assert r.vs[|ms|..] == [];
      assert Filled(r.vs, 0, |ms|).args == r.vs + [NIL];
    }
  }

  /** The machine builds that frame: the stack is as it was, the value register holds the frame, slot k the k-th argument. */
  lemma BuildsFrame(P: Program, im: Image, ms: seq<Icode>, n: nat, s: State, fuel: nat) returns (t: State)
    requires Linked(P, im, s.store.values) && FineArgs(Arguments(ms, |ms|), im.consts)
    requires At(im.code, s.pc, EmitArgs(Arguments(ms, |ms|), im.consts, n))
    ensures var r := EvalList(P, ms, s.frame, ScopeOf(s.stack), s.store, fuel);
      if r.Listed? then
        && Reaches(im, s, t) && Falls(false, s, t, s.pc + |EmitArgs(Arguments(ms, |ms|), im.consts, n)|)
        && t.val == FrameRef(|r.st.frames|) && t.store == WithFrame(r.st, Frame(r.vs + [NIL], |ms|, NoFrame))
      else Fails(im, s, r.why, fuel)
  {
    hide *;
    ReachesSelf(im, s);
    PlainFrame(P, ms, s.frame, ScopeOf(s.stack), s.store, fuel);
    t := RunsArgs(P, im, Arguments(ms, |ms|), n, s, s, fuel);
  }

  /** A dotted call: the arguments after the first arity come, in order, as a list in slot arity. */
  lemma BuildsDottedFrame(P: Program, im: Image, ms: seq<Icode>, arity: nat, n: nat, s: State, fuel: nat) returns (t: State)
    requires arity <= |ms|
    requires Linked(P, im, s.store.values) && FineArgs(DottedArguments(ms, |ms|, arity), im.consts)
    requires At(im.code, s.pc, EmitArgs(DottedArguments(ms, |ms|, arity), im.consts, n))
    ensures var r := EvalList(P, ms, s.frame, ScopeOf(s.stack), s.store, fuel);
      if r.Listed? then
        && Reaches(im, s, t) && Falls(false, s, t, s.pc + |EmitArgs(DottedArguments(ms, |ms|, arity), im.consts, n)|)
        && t.val == FrameRef(|r.st.frames|) && t.store == WithFrame(r.st, Frame(r.vs[..arity] + [ListOf(r.vs[arity..])], arity, NoFrame))
      else Fails(im, s, r.why, fuel)
  {
    hide Eval, EvalArgs, At, Linked, Reaches, EmitArgs, FineArgs, ScopeOf, Fails;
    ReachesSelf(im, s);
    DottedFrame(P, ms, |ms|, arity, s.frame, ScopeOf(s.stack), s.store, fuel);
    t := RunsArgs(P, im, DottedArguments(ms, |ms|, arity), n, s, s, fuel);
    var r := EvalList(P, ms, s.frame, ScopeOf(s.stack), s.store, fuel);
    if r.Listed? {
      assert Filled(r.vs, 0, arity).args == r.vs[..arity] + [ListOf(r.vs[arity..])];
    }
  }

  // The evaluator's arguments are such arguments

  /** The I-code of each argument, in order. */
  function Meanings(G: E.Globals, args: E.Actuals, nt: seq<L.Level>, f: E.Flags, v: nat): (ms: seq<Icode>)
    ensures |ms| == E.ActualCount(args)
  {
    match args
    case NoMore => []
    case Actual(e, rest) =>
      var r := E.Meaning(G, e, nt, E.NotTail(f), v);
      [r.m] + Meanings(G, rest, nt, f, r.v)
  }

  lemma {:induction false} ArgumentsMade(G: E.Globals, args: E.Actuals, nt: seq<L.Level>, arity: nat, f: E.Flags, v: nat)
    requires E.ActualCount(args) <= arity
    ensures E.MeaningArgs(G, args, nt, arity, f, v).args == Arguments(Meanings(G, args, nt, f, v), arity)
    decreases args
  {
    hide E.Meaning;
    if args.Actual? {
      var r := E.Meaning(G, args.e, nt, E.NotTail(f), v);
      ArgumentsMade(G, args.rest, nt, arity, f, r.v);
      assert Meanings(G, args, nt, f, v)[1..] == Meanings(G, args.rest, nt, f, r.v);
    }
  }

  lemma {:induction false} DottedArgumentsMade(G: E.Globals, args: E.Actuals, nt: seq<L.Level>, nargs: nat, arity: nat, f: E.Flags, v: nat)
    requires E.ActualCount(args) <= nargs
    ensures E.MeaningDotted(G, args, nt, nargs, arity, f, v).args == DottedArguments(Meanings(G, args, nt, f, v), nargs, arity)
    decreases args
  {
    hide E.Meaning;
    if args.Actual? {
      var r := E.Meaning(G, args.e, nt, E.NotTail(f), v);
      DottedArgumentsMade(G, args.rest, nt, nargs, arity, f, r.v);
      assert Meanings(G, args, nt, f, v)[1..] == Meanings(G, args.rest, nt, f, r.v);
    }
  }
}
