/**
  What intermediate code means, said directly on the tree: no byte code, no stack, no program
  counter.  A function value is known by its label; a program says which function each label is,
  and which label the closure numbered vi gets.  Fuel bounds the depth of calls.
 */
module Meaning {

  import opened Options
  import opened Machine
  import opened Icode

  /** The dynamic and environment variables in force, the nearest first. */
  datatype Scope = NoScope | Bind(environ: bool, si: nat, v: Value, rest: Scope)

  function Lookup(d: Scope, environ: bool, si: nat): (r: Option<Value>) {
    match d
    case NoScope => None
    case Bind(e, x, v, rest) => if e == environ && x == si then Some(v) else Lookup(rest, environ, si)
  }

  datatype Program = Program(labels: map<nat, nat>, funs: map<nat, Icode>, prim: (nat, seq<Value>) -> Option<Value>)

  /**
    Why there is no value: the machine would raise a condition; more calls are needed than fuel allows; the code
    leaves the program, by calling or closing over a function from elsewhere or assigning a function's own number.
   */
  datatype Reason = Fault | Deep | Foreign

  datatype Outcome = Done(v: Value, st: Store) | Stuck(why: Reason)

  /** The outcome of building an argument frame: where it is. */
  datatype Framed = Built(a: nat, st: Store) | NotBuilt(why: Reason)

  function Yields(r: Option<Value>, st: Store): (o: Outcome) {
    match r
    case None => Stuck(Fault)
    case Some(v) => Done(v, st)
  }

  function Changes(v: Value, r: Option<Store>): (o: Outcome) {
    match r
    case None => Stuck(Fault)
    case Some(st) => Done(v, st)
  }

  /** A slot made in the frame and set. */
  function Slotted(st: Store, f: Link, size: nat, j: nat, v: Value): (o: Outcome) {
    match Extend(st, f, size)
    case None => Stuck(Fault)
    case Some(s2) => Changes(v, Update(s2, f, 0, j, v))
  }

  function Truth(b: bool): (v: Value) { if b then TRUE else FALSE }

  /** The value of m in frame f, with bindings d in force. */
  function Eval(P: Program, m: Icode, f: Link, d: Scope, st: Store, fuel: nat): (o: Outcome)
    decreases fuel, m, 1
  {
    EvalRule(P, m, f, d, st, fuel)
  }

  lemma EvalByRule(P: Program, m: Icode, f: Link, d: Scope, st: Store, fuel: nat)
    ensures Eval(P, m, f, d, st, fuel) == EvalRule(P, m, f, d, st, fuel)
  {
    hide EvalRule;
  }

  /** The rule for each kind of I-code, from the values of its parts. */
  function EvalRule(P: Program, m: Icode, f: Link, d: Scope, st: Store, fuel: nat): (o: Outcome)
    decreases fuel, m, 0
  {
    match m
    case ConstantOf(c) => Done(c, st)
    case ShallowArgumentRef(j) => Yields(Fetch(st.frames, f, 0, j), st)
    case DeepArgumentRef(i, j) => Yields(Fetch(st.frames, f, i, j), st)
    case ShallowArgumentSet(j, m1) =>
      (match Eval(P, m1, f, d, st, fuel)
       case Stuck(w) => Stuck(w)
       case Done(v, s1) => Changes(v, Update(s1, f, 0, j, v)))
    case DeepArgumentSet(i, j, m1) =>
      (match Eval(P, m1, f, d, st, fuel)
       case Stuck(w) => Stuck(w)
       case Done(v, s1) => Changes(v, Update(s1, f, i, j, v)))
    case SymbolRef(_, si) => Yields(ValueOf(st.values, si), st)
    case SymbolSet(_, si, m1) =>
      (match Eval(P, m1, f, d, st, fuel)
       case Stuck(w) => Stuck(w)
       case Done(v, s1) => if si in P.labels then Stuck(Foreign) else Done(v, s1.(values := s1.values[si := v])))
    case Alternative(_, m1, m2, m3) =>
      (match Eval(P, m1, f, d, st, fuel)
       case Stuck(w) => Stuck(w)
       case Done(v, s1) => if v != FALSE then Eval(P, m2, f, d, s1, fuel) else Eval(P, m3, f, d, s1, fuel))
    case Sequence(m1, mp) =>
      (match Eval(P, m1, f, d, st, fuel)
       case Stuck(w) => Stuck(w)
       case Done(_, s1) => Eval(P, mp, f, d, s1, fuel))
    case Each(ms) => EvalEach(P, ms, f, d, st, fuel)
    case Begin(_, ms) => EvalEach(P, ms, f, d, st, fuel)
    case Junction(conj, _, ms) => EvalJunction(P, conj, ms, f, d, st, fuel)
    case Negation(_, m1) =>
      (match Eval(P, m1, f, d, st, fuel)
       case Stuck(w) => Stuck(w)
       case Done(v, s1) => Done(Truth(v == FALSE), s1))
    case FixLet(_, args, mp, _) =>
      (match EvalArgs(P, args, f, d, st, fuel)
       case NotBuilt(w) => Stuck(w)
       case Built(a, s1) => EvalIn(P, mp, a, f, d, s1, fuel))
    case Local(_, j, m1, mp, size, _) =>
      (match Eval(P, m1, f, d, st, fuel)
       case Stuck(w) => Stuck(w)
       case Done(v, s1) =>
         match Extend(s1, f, size)
         case None => Stuck(Fault)
         case Some(s2) =>
           match Update(s2, f, 0, j, v)
           case None => Stuck(Fault)
           case Some(s3) => Eval(P, mp, f, d, s3, fuel))
    case Primitive0(_, pd) => Yields(Host(P.prim, pd, []), st)
    case Primitive1(_, m1, pd) =>
      (match Eval(P, m1, f, d, st, fuel)
       case Stuck(w) => Stuck(w)
       case Done(v, s1) => Yields(Host(P.prim, pd, [v]), s1))
    case Primitive2(_, m1, m2, pd) =>
      (match Eval(P, m1, f, d, st, fuel)
       case Stuck(w) => Stuck(w)
       case Done(v, s1) =>
         match Eval(P, m2, f, d, s1, fuel)
         case Stuck(w) => Stuck(w)
         case Done(w, s2) => Yields(Host(P.prim, pd, [v, w]), s2))
    case Call(_, _, m1, args) =>
      (match Eval(P, m1, f, d, st, fuel)
       case Stuck(w) => Stuck(w)
       case Done(v, s1) =>
         match EvalArgs(P, args, f, d, s1, fuel)
         case NotBuilt(w) => Stuck(w)
         case Built(a, s2) => if fuel == 0 then Stuck(Deep) else Apply(P, v, a, d, s2, fuel - 1))
    case Abstraction(_, _, _, _, _, _, vi) => if vi in P.labels then Done(Closure(P.labels[vi], f), st) else Stuck(Foreign)
    case ScopedLet(environ, si, m1, mp) =>
      (match Eval(P, m1, f, d, st, fuel)
       case Stuck(w) => Stuck(w)
       case Done(v, s1) => Eval(P, mp, f, Bind(environ, si, v, d), s1, fuel))
    case ScopedRef(environ, si) =>
      (match Lookup(d, environ, si)
       case Some(v) => Done(v, st)
       case None => Yields(ValueOf(st.values, si), st))
    case Trapping(sis, m1, mp) =>
      (match Eval(P, m1, f, d, st, fuel)
       case Stuck(w) => Stuck(w)
       case Done(v, s1) =>
         if sis != [] && !v.Closure? && !v.Primitive? then Stuck(Fault) else Eval(P, mp, f, d, s1, fuel))
  }

  /** One after the other; the value is the last one's. */
  function EvalEach(P: Program, ms: Codes, f: Link, d: Scope, st: Store, fuel: nat): (o: Outcome)
    decreases fuel, ms, 0
  {
    match ms
    case One(m) => Eval(P, m, f, d, st, fuel)
    case More(m, rest) =>
      match Eval(P, m, f, d, st, fuel)
      case Stuck(w) => Stuck(w)
      case Done(_, s1) => EvalEach(P, rest, f, d, s1, fuel)
  }

  /** Conjunction stops at the first false value, disjunction at the first that is not. */
  function EvalJunction(P: Program, conj: bool, ms: Codes, f: Link, d: Scope, st: Store, fuel: nat): (o: Outcome)
    decreases fuel, ms, 0
  {
    match ms
    case One(m) => Eval(P, m, f, d, st, fuel)
    case More(m, rest) =>
      match Eval(P, m, f, d, st, fuel)
      case Stuck(w) => Stuck(w)
      case Done(v, s1) => if conj == (v == FALSE) then Done(v, s1) else EvalJunction(P, conj, rest, f, d, s1, fuel)
  }

  /** Arguments are evaluated left to right, and only then is the frame made and filled. */
  function EvalArgs(P: Program, args: Args, f: Link, d: Scope, st: Store, fuel: nat): (o: Framed)
    decreases fuel, args, 0
  {
    match args
    case StoreArgument(m1, rest, rank) =>
      (match Eval(P, m1, f, d, st, fuel)
       case Stuck(w) => NotBuilt(w)
       case Done(v, s1) =>
         match EvalArgs(P, rest, f, d, s1, fuel)
         case NotBuilt(w) => NotBuilt(w)
         case Built(a, s2) =>
           match Update(s2, Frm(a), 0, rank, v)
           case None => NotBuilt(Fault)
           case Some(s3) => Built(a, s3))
    case ListArgument(m1, rest, arity) =>
      (match Eval(P, m1, f, d, st, fuel)
       case Stuck(w) => NotBuilt(w)
       case Done(v, s1) =>
         match EvalArgs(P, rest, f, d, s1, fuel)
         case NotBuilt(w) => NotBuilt(w)
         case Built(a, s2) =>
           match Fetch(s2.frames, Frm(a), 0, arity)
           case None => NotBuilt(Fault)
           case Some(w) =>
             match Update(s2, Frm(a), 0, arity, Pair(v, w))
             case None => NotBuilt(Fault)
             case Some(s3) => Built(a, s3))
    case AllocFrame(arity) => Built(|st.frames|, st.(frames := st.frames + [NewFrame(arity + 1)]))
  }

  /** The value of m in frame a once a is linked below f. */
  function EvalIn(P: Program, m: Icode, a: nat, f: Link, d: Scope, st: Store, fuel: nat): (o: Outcome)
    decreases fuel, m, 2
  {
    match LinkTo(st, FrameRef(a), f)
    case None => Stuck(Fault)
    case Some(s1) => Eval(P, m, Frm(a), d, s1, fuel)
  }

  /** The frame as the function wants it: the right number of arguments, the rest collected when it takes more. */
  function Accept(fun: Icode, a: nat, st: Store): (r: Option<Store>)
    requires fun.Abstraction?
  {
    match Supplied(st, FrameRef(a))
    case None => None
    case Some(n) =>
      if fun.nary then (if n >= fun.arity + 1 then Pack(st, FrameRef(a), fun.arity) else None)
      else if n == fun.arity + 1 then Some(st) else None
  }

  /** A function applied to a frame of arguments. */
  function Apply(P: Program, v: Value, a: nat, d: Scope, st: Store, fuel: nat): (o: Outcome)
    decreases fuel, P.funs, 3
  {
    match v
    case Closure(entry, env) =>
      if entry in P.funs && P.funs[entry].Abstraction? then
        match Accept(P.funs[entry], a, st)
        case None => Stuck(Fault)
        case Some(s1) =>
          if fuel == 0 then Stuck(Deep)
          else EvalIn(P, P.funs[entry].mp, a, env, d, s1, fuel - 1)
      else Stuck(Foreign)
    case Primitive(p) => Yields(CallPrimitive(P.prim, st, p, FrameRef(a)), st)
    case _ => Stuck(Fault)
  }
}
