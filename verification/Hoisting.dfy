/**
  Functions moved out of line.  The code generated for one top-level form is a row of blocks, one for
  each function, and then the form's own code; running it from its start makes every function value
  before any closure asks for it.
 */
module Hoisting {

  import opened Varuint
  import opened Instructions
  import opened Machine
  import opened Icode
  import opened Meaning
  import opened Steps
  import opened Correct

  /** A function that can be placed. */
  predicate Able(fn: Fn, K: seq<Value>) {
    fn.node.Abstraction? && Sized(fn.node, K) && TailOK(fn.node, true)
  }

  predicate AllAble(fs: seq<Fn>, K: seq<Value>) {
    forall i :: 0 <= i < |fs| ==> Able(fs[i], K)
  }

  lemma AbleJoin(a: seq<Fn>, b: seq<Fn>, K: seq<Value>)
    requires AllAble(a, K) && AllAble(b, K)
    ensures AllAble(a + b, K)
  {
    hide Able;
  }

  lemma AbleOne(fn: Fn, K: seq<Value>)
    requires Able(fn, K)
    ensures AllAble([fn], K)
  {
    hide Able;
  }

  /** The functions of a fine fragment can all be placed. */
  lemma {:induction false} FunctionsAble(m: Icode, K: seq<Value>, n: nat, tail: bool)
    requires Sized(m, K) && TailOK(m, tail)
    ensures AllAble(Functions(m, n), K)
    decreases m, 1
  {
    hide *;
    if m.ShallowArgumentSet? || m.DeepArgumentSet? || m.SymbolSet? || m.Negation? || m.Primitive1? {
      AbleUnary(m, K, n, tail);
    } else if m.Sequence? || m.Local? || m.Primitive2? || m.ScopedLet? || m.Trapping? {
      AblePair(m, K, n, tail);
    } else if m.Each? || m.Begin? || m.Junction? {
      AbleSeries(m, K, n, tail);
    } else if m.FixLet? || m.Call? {
      AbleApplication(m, K, n, tail);
    } else if m.Alternative? {
      AbleAlternative(m, K, n, tail);
    } else if m.Abstraction? {
      AbleAbstraction(m, K, n, tail);
    } else {
      AbleLeaf(m, K, n);
    }
  }

  lemma AbleLeaf(m: Icode, K: seq<Value>, n: nat)
    requires m.ConstantOf? || m.ShallowArgumentRef? || m.DeepArgumentRef? || m.SymbolRef? || m.Primitive0? || m.ScopedRef?
    ensures AllAble(Functions(m, n), K)
  {
    hide Able;
  }

  lemma {:induction false} AbleUnary(m: Icode, K: seq<Value>, n: nat, tail: bool)
    requires m.ShallowArgumentSet? || m.DeepArgumentSet? || m.SymbolSet? || m.Negation? || m.Primitive1?
    requires Sized(m, K) && TailOK(m, tail)
    ensures AllAble(Functions(m, n), K)
    decreases m, 0
  {
    hide AllAble;
    FunctionsAble(m.m1, K, n, false);
  }

  lemma {:induction false} AblePair(m: Icode, K: seq<Value>, n: nat, tail: bool)
    requires m.Sequence? || m.Local? || m.Primitive2? || m.ScopedLet? || m.Trapping?
    requires Sized(m, K) && TailOK(m, tail)
    ensures AllAble(Functions(m, n), K)
    decreases m, 0
  {
    hide AllAble, Sources;
    var m2 := if m.Primitive2? then m.m2 else m.mp;
    var n2 := n + Sources(m.m1) + if m.Local? then Count(m.src) else 0;
    FunctionsAble(m.m1, K, n, false);
    FunctionsAble(m2, K, n2, if m.Sequence? || m.Local? then tail else false);
    AbleJoin(Functions(m.m1, n), Functions(m2, n2), K);
  }

  lemma {:induction false} AbleSeries(m: Icode, K: seq<Value>, n: nat, tail: bool)
    requires m.Each? || m.Begin? || m.Junction?
    requires Sized(m, K) && TailOK(m, tail)
    ensures AllAble(Functions(m, n), K)
    decreases m, 0
  {
    hide AllAble;
    FunctionsAbleEach(m.ms, K, n, if m.Junction? then tail && m.tail else tail);
  }

  lemma {:induction false} AbleApplication(m: Icode, K: seq<Value>, n: nat, tail: bool)
    requires m.FixLet? || m.Call?
    requires Sized(m, K) && TailOK(m, tail)
    ensures AllAble(Functions(m, n), K)
    decreases m, 0
  {
    hide AllAble, Sources;
    if m.FixLet? {
      var n1 := n + 1 + SourcesArgs(m.args);
      FunctionsAbleArgs(m.args, K, n + 1);
      FunctionsAble(m.mp, K, n1, m.tail);
      AbleJoin(FunctionsArgs(m.args, n + 1), Functions(m.mp, n1), K);
    } else {
      FunctionsAble(m.m1, K, n, false);
      FunctionsAbleArgs(m.args, K, n + Sources(m.m1));
      AbleJoin(Functions(m.m1, n), FunctionsArgs(m.args, n + Sources(m.m1)), K);
    }
  }

  lemma {:induction false} AbleAlternative(m: Icode, K: seq<Value>, n: nat, tail: bool)
    requires m.Alternative? && Sized(m, K) && TailOK(m, tail)
    ensures AllAble(Functions(m, n), K)
    decreases m, 0
  {
    hide AllAble, Sources;
    var n1 := n + Count(m.src);
    var n2 := n1 + Sources(m.m1);
    var n3 := n2 + Sources(m.m2);
    FunctionsAble(m.m1, K, n1, false);
    FunctionsAble(m.m2, K, n2, tail);
    FunctionsAble(m.m3, K, n3, tail);
    AbleJoin(Functions(m.m2, n2), Functions(m.m3, n3), K);
    AbleJoin(Functions(m.m1, n1), Functions(m.m2, n2) + Functions(m.m3, n3), K);
  }

  lemma {:induction false} AbleAbstraction(m: Icode, K: seq<Value>, n: nat, tail: bool)
    requires m.Abstraction? && Sized(m, K) && TailOK(m, tail)
    ensures AllAble(Functions(m, n), K)
    decreases m, 0
  {
    hide AllAble;
    FunctionsAble(m.mp, K, n + 1, true);
    AbleOne(Fn(m, n), K);
    AbleJoin(Functions(m.mp, n + 1), [Fn(m, n)], K);
  }

  lemma NoFunctions(K: seq<Value>)
    ensures AllAble([], K)
  {
    hide Able;
  }

  lemma {:induction false} FunctionsAbleEach(ms: Codes, K: seq<Value>, n: nat, tail: bool)
    requires SizedEach(ms, K) && TailEach(ms, tail)
    ensures AllAble(FunctionsEach(ms, n), K)
    decreases ms, 2
  {
    hide AllAble, Functions, Sized, TailOK, Sources;
    match ms
    case One(m) => FunctionsAble(m, K, n, tail);
    case More(m, rest) =>
      FunctionsAble(m, K, n, false);
      FunctionsAbleEach(rest, K, n + Sources(m), tail);
      AbleJoin(Functions(m, n), FunctionsEach(rest, n + Sources(m)), K);
  }

  lemma {:induction false} FunctionsAbleArgs(args: Args, K: seq<Value>, n: nat)
    requires SizedArgs(args, K) && TailArgs(args)
    ensures AllAble(FunctionsArgs(args, n), K)
    decreases args, 2
  {
    hide AllAble, Functions, Sized, TailOK, Sources;
    if args.AllocFrame? {
      NoFunctions(K);
    } else {
      FunctionsAble(args.m1, K, n, false);
      FunctionsAbleArgs(args.rest, K, n + Sources(args.m1));
      AbleJoin(Functions(args.m1, n), FunctionsArgs(args.rest, n + Sources(args.m1)), K);
    }
  }

  // Layout

  /** Where the function of a block at base starts. */
  function EntryAt(fn: Fn, K: seq<Value>, base: nat): (entry: nat) {
    base + if fn.node.Abstraction? then |BlockHead(fn.node, K, fn.n)| else 0
  }

  function NextBase(fn: Fn, K: seq<Value>, base: nat): (next: nat) {
    base + if fn.node.Abstraction? then |Block(fn.node, K, fn.n)| else 0
  }

  /** The value number of a function's block. */
  function Number(fn: Fn): (vi: nat) { if fn.node.Abstraction? then fn.node.vi else 0 }

  /** A program with the functions of a row of blocks at base added. */
  function Added(P: Program, fs: seq<Fn>, K: seq<Value>, base: nat): (Q: Program)
    decreases |fs|
  {
    if fs == [] then P
    else
      var entry := EntryAt(fs[0], K, base);
      Added(Program(P.labels[Number(fs[0]) := entry], P.funs[entry := fs[0].node], P.prim), fs[1..], K, NextBase(fs[0], K, base))
  }

  /** The value table after a row of blocks has run in frame f. */
  function Loaded(values: map<nat, Value>, fs: seq<Fn>, K: seq<Value>, base: nat, f: Link): (r: map<nat, Value>)
    decreases |fs|
  {
    if fs == [] then values
    else Loaded(values[Number(fs[0]) := Closure(EntryAt(fs[0], K, base), f)], fs[1..], K, NextBase(fs[0], K, base), f)
  }

  /** One block: the goto lands past the function's code, and the value set is that of the code's exact start. */
  lemma TakesBlock(im: Image, s0: State, s: State, fn: Fn) returns (t: State)
    requires Able(fn, im.consts) && |im.code| < U64 && |im.consts| < U64
    requires Reaches(im, s0, s) && At(im.code, s.pc, Block(fn.node, im.consts, fn.n))
    ensures Reaches(im, s0, t)
    ensures t == s.(pc := NextBase(fn, im.consts, s.pc), val := Closure(EntryAt(fn, im.consts, s.pc), s.frame),
                    store := s.store.(values := s.store.values[fn.node.vi := t.val]))
    ensures At(im.code, EntryAt(fn, im.consts, s.pc), FunctionCode(fn.node, im.consts, fn.n))
  {
    hide Reaches, At, E, FunctionCode;
    var K, m := im.consts, fn.node;
    var code := FunctionCode(m, K, fn.n);
    var g := E(Goto(|code|));
    var ins := CreateFunction(|g|, |code|, Index(K, m.name), Index(K, m.formals), Index(K, m.docstr), fn.n % U64);
    AtSplit(im.code, s.pc, E(ins) + g, code + E(ValSet(m.vi)));
    AtSplit(im.code, s.pc, E(ins), g);
    AtSplit(im.code, s.pc + |E(ins) + g|, code, E(ValSet(m.vi)));
    AtInside(im.code, s.pc, E(ins) + g);
    AtInside(im.code, s.pc + |E(ins) + g|, code);
    t := Takes(im, s0, s, ins);
    t := TakesGoto(im, s0, t, |code|);
    t := TakesValSet(im, s0, t, m.vi);
  }

  /** A row of blocks runs straight through, and the machine then holds the program with the row's functions added. */
  lemma {:induction false} TakesRow(P: Program, im: Image, fs: seq<Fn>, s0: State, s: State) returns (t: State)
    requires Linked(P, im, s.store.values) && AllAble(fs, im.consts)
    requires Reaches(im, s0, s) && At(im.code, s.pc, Row(fs, im.consts))
    ensures Reaches(im, s0, t) && t.pc == s.pc + |Row(fs, im.consts)|
    ensures t.stack == s.stack && t.rcse == s.rcse && t.frame == s.frame
    ensures t.store == s.store.(values := Loaded(s.store.values, fs, im.consts, s.pc, s.frame))
    ensures Linked(Added(P, fs, im.consts, s.pc), im, t.store.values)
    decreases |fs|
  {
    hide Reaches, At, Linked, Block, BlockHead, E, Exec, FunctionCode, Sized, TailOK;
    if fs == [] {
      t := s;
    } else {
      LinkedSizes(P, im, s.store.values);
      AtSplit(im.code, s.pc, Block(fs[0].node, im.consts, fs[0].n), Row(fs[1..], im.consts));
      var u := TakesBlock(im, s0, s, fs[0]);
      var entry := EntryAt(fs[0], im.consts, s.pc);
      LinkedAdd(P, im, s.store.values, fs[0], entry, s.frame);
      var Q := Program(P.labels[fs[0].node.vi := entry], P.funs[entry := fs[0].node], P.prim);
      t := TakesRow(Q, im, fs[1..], s0, u);
    }
  }

  lemma LinkedAdd(P: Program, im: Image, values: map<nat, Value>, fn: Fn, entry: nat, f: Link)
    requires Linked(P, im, values) && Able(fn, im.consts) && At(im.code, entry, FunctionCode(fn.node, im.consts, fn.n))
    ensures Linked(Program(P.labels[fn.node.vi := entry], P.funs[entry := fn.node], P.prim), im,
                   values[fn.node.vi := Closure(entry, f)])
  {
    hide At, FunctionCode, Sized, TailOK;
    assert Placed(im, entry, fn.node, fn.n);
  }

  // Whole forms

  /** The program once the form whose code is at base has been generated. */
  function WithForm(P: Program, m: Icode, K: seq<Value>, n: nat, base: nat): (Q: Program) {
    Added(P, Functions(m, n), K, base)
  }

  /** The store once the form's blocks have run. */
  function WithFunctions(st: Store, m: Icode, K: seq<Value>, n: nat, base: nat, f: Link): (r: Store) {
    st.(values := Loaded(st.values, Functions(m, n), K, base, f))
  }

  /**
    A top-level form: from the start of its code the machine runs through all the blocks and the main code,
    and ends exactly behind it with the form's value, everything else as it was.  A form that faults halts the machine.
   */
  lemma RunsForm(P: Program, im: Image, m: Icode, n: nat, s: State, fuel: nat) returns (t: State)
    requires Linked(P, im, s.store.values) && Sized(m, im.consts) && TailOK(m, false)
    requires At(im.code, s.pc, Blocks(m, im.consts, n) + Emit(m, im.consts, n))
    ensures var o := Eval(WithForm(P, m, im.consts, n, s.pc), m, s.frame, ScopeOf(s.stack),
                          WithFunctions(s.store, m, im.consts, n, s.pc, s.frame), fuel);
      && Goes(im, false, s, s, t, s.pc + |Blocks(m, im.consts, n)| + |Emit(m, im.consts, n)|, o, fuel)
      && (o.Done? ==> Linked(WithForm(P, m, im.consts, n, s.pc), im, t.store.values))
  {
    hide Reaches, At, Linked, Emit, Eval, Row, Sized, TailOK, Added, Loaded, AllAble, ScopeOf, Exec, E, Fails;
    FunctionsAble(m, im.consts, n, false);
    AtSplit(im.code, s.pc, Blocks(m, im.consts, n), Emit(m, im.consts, n));
    ReachesSelf(im, s);
    t := TakesRow(P, im, Functions(m, n), s, s);
    t := RunsFrom(WithForm(P, m, im.consts, n, s.pc), im, m, n, false, s, t, fuel);
  }

  /** What a form means to a machine about to run it: no frame, the bindings in force, the form's functions set. */
  function FormValue(m: Icode, P: Program, im: Image, n: nat, s: State, fuel: nat): Outcome {
    Eval(WithForm(P, m, im.consts, n, s.pc), m, NoFrame, ScopeOf(s.stack), WithFunctions(s.store, m, im.consts, n, s.pc, s.frame), fuel)
  }

  /**
    A top-level form in its abort wrapper: through all the blocks, the form and the return, to the address on the
    stack, with the form's value, or failing as the form does.  Inside the wrapper there is no frame and nothing is
    suppressed.
   */
  lemma RunsTop(P: Program, im: Image, m: Icode, n: nat, s: State, fuel: nat) returns (t: State)
    requires Linked(P, im, s.store.values) && Sized(m, im.consts) && TailOK(m, false) && Returnable(true, s)
    requires At(im.code, s.pc, Blocks(m, im.consts, n) + TopCode(m, im.consts, n))
    ensures var o := FormValue(m, P, im, n, s, fuel);
      if o.Done? then
        && Reaches(im, s, t) && t.pc == s.stack.top.pc && t.stack == s.stack.rest && t.rcse == FALSE && t.frame == NoFrame
        && t.val == o.v && t.store == o.st && Linked(WithForm(P, m, im.consts, n, s.pc), im, t.store.values)
      else Fails(im, s, o.why, fuel)
  {
    hide Reaches, At, Linked, Emit, Eval, Row, Sized, TailOK, Added, Loaded, AllAble, ScopeOf, Exec, E, Functions, Fails;
    var c := Emit(m, im.consts, n);
    var p1 := s.pc + |Blocks(m, im.consts, n)|;
    var p2 := p1 + |E(PushAbort(|c|))|;
    FunctionsAble(m, im.consts, n, false);
    LinkedSizes(P, im, s.store.values);
    AtSplit(im.code, s.pc, Blocks(m, im.consts, n), TopCode(m, im.consts, n));
    AtSplit(im.code, p1, E(PushAbort(|c|)), c + (E(PopAbort) + E(Return)));
    AtSplit(im.code, p2, c, E(PopAbort) + E(Return));
    AtSplit(im.code, p2 + |c|, E(PopAbort), E(Return));
    AtInside(im.code, p2, c);
    ReachesSelf(im, s);
    t := TakesRow(P, im, Functions(m, n), s, s);
    t := TakesPushAbort(im, s, t, |c|);
    ScopeBehindAbort(t.stack);
    t := RunsFrom(WithForm(P, m, im.consts, n, s.pc), im, m, n, false, s, t, fuel);
    if FormValue(m, P, im, n, s, fuel).Done? {
      t := TakesPopAbort(im, s, t);
      t := TakesReturn(im, s, t);
    }
  }

  lemma ScopeBehindAbort(stack: Stack)
    requires stack.Push? && stack.top.Abort?
    ensures ScopeOf(stack) == ScopeOf(stack.rest)
  {
  }

  /** When the form's own code starts, the abort on the stack leads exactly to the return behind the wrapper. */
  lemma AbortResumes(im: Image, m: Icode, n: nat, s: State) returns (t: State, resume: nat)
    requires At(im.code, s.pc, TopCode(m, im.consts, n)) && |im.code| < U64
    ensures Reaches(im, s, t) && At(im.code, t.pc, Emit(m, im.consts, n))
    ensures t.stack == Push(Abort(resume), s.stack) && At(im.code, resume, E(Return)) && t.rcse == FALSE && t.frame == NoFrame
  {
    hide At, Emit, E, Reaches, Exec;
    var c := Emit(m, im.consts, n);
    var p := s.pc + |E(PushAbort(|c|))|;
    AtSplit(im.code, s.pc, E(PushAbort(|c|)), c + (E(PopAbort) + E(Return)));
    AtSplit(im.code, p, c, E(PopAbort) + E(Return));
    AtSplit(im.code, p + |c|, E(PopAbort), E(Return));
    AtInside(im.code, p, c);
    PopAbortIs();
    ReachesSelf(im, s);
    t := TakesPushAbort(im, s, s, |c|);
    resume := t.stack.top.resume;
  }

  /** Adding later functions leaves an earlier one alone, unless they take its number. */
  lemma {:induction false} AddedKeeps(P: Program, fs: seq<Fn>, K: seq<Value>, base: nat, vi: nat, entry: nat)
    requires AllAble(fs, K) && entry < base && vi in P.labels && entry in P.funs
    requires forall i :: 0 <= i < |fs| ==> Number(fs[i]) != vi
    ensures var Q := Added(P, fs, K, base);
      vi in Q.labels && Q.labels[vi] == P.labels[vi] && entry in Q.funs && Q.funs[entry] == P.funs[entry]
    decreases |fs|
  {
    hide Sized, TailOK, Block, BlockHead;
    if fs != [] {
      var e := EntryAt(fs[0], K, base);
      var Q := Program(P.labels[Number(fs[0]) := e], P.funs[e := fs[0].node], P.prim);
      AddedKeeps(Q, fs[1..], K, NextBase(fs[0], K, base), vi, entry);
    }
  }

  /** When functions have distinct numbers, the closure made from a number runs that function's own body. */
  lemma {:induction false} OwnBody(P: Program, fs: seq<Fn>, K: seq<Value>, base: nat, i: nat)
    requires AllAble(fs, K) && i < |fs|
    requires forall j, k :: 0 <= j < k < |fs| ==> Number(fs[j]) != Number(fs[k])
    ensures var Q := Added(P, fs, K, base);
      Number(fs[i]) in Q.labels && Q.labels[Number(fs[i])] in Q.funs && Q.funs[Q.labels[Number(fs[i])]] == fs[i].node
    decreases |fs|
  {
    hide Sized, TailOK, Number, EntryAt, NextBase;
    var e := EntryAt(fs[0], K, base);
    var next := NextBase(fs[0], K, base);
    var Q := Program(P.labels[Number(fs[0]) := e], P.funs[e := fs[0].node], P.prim);
    if i == 0 {
      EntryInside(fs[0], K, base);
      AddedKeeps(Q, fs[1..], K, next, Number(fs[0]), e);
    } else {
      OwnBody(Q, fs[1..], K, next, i - 1);
    }
  }

  lemma EntryInside(fn: Fn, K: seq<Value>, base: nat)
    requires Able(fn, K)
    ensures EntryAt(fn, K, base) < NextBase(fn, K, base)
  {
    hide BlockHead, FunctionCode;
  }
}
