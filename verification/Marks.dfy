/**
  What I-code carries that no value shows: which calls and lets are tail ones, which nodes record their source, how a
  top-level variable is fetched, and the names the frames' slots go by.
 */
module Marks {

  import opened Machine
  import opened Icode
  import opened E = Evaluate
  import opened SourceCorrect
  import L = Lexical

  datatype Mark =
    | Fetch(called: bool)
    | Stores(src: bool)
    | Test(src: bool)
    | Connect(conj: bool, tail: bool)
    | Negate(tail: bool)
    | CallOf(tail: bool, src: bool)
    | LetOf(tail: bool, names: Value)
    | LocalOf(src: bool, names: Value)
    | HostCall(src: bool)
    | Closes(nary: bool, arity: nat, names: Value)
    | TrapsFor(count: nat)

  /** The marks in a piece of I-code, those of its parts first. */
  function MarksOf(m: Icode): (r: seq<Mark>) {
    match m
    case SymbolRef(called, _) => [Fetch(called)]
    case ShallowArgumentSet(_, m1) => MarksOf(m1)
    case DeepArgumentSet(_, _, m1) => MarksOf(m1)
    case SymbolSet(src, _, m1) => MarksOf(m1) + [Stores(src)]
    case Alternative(src, m1, m2, m3) => MarksOf(m1) + (MarksOf(m2) + (MarksOf(m3) + [Test(src)]))
    case Sequence(m1, mp) => MarksOf(m1) + MarksOf(mp)
    case Each(ms) => MarksEach(ms)
    case Begin(_, ms) => MarksEach(ms)
    case Junction(conj, tail, ms) => MarksEach(ms) + [Connect(conj, tail)]
    case Negation(tail, m1) => MarksOf(m1) + [Negate(tail)]
    case FixLet(tail, args, mp, formals) => MarksArgs(args) + (MarksOf(mp) + [LetOf(tail, formals)])
    case Local(src, _, m1, mp, _, formals) => MarksOf(m1) + (MarksOf(mp) + [LocalOf(src, formals)])
    case Primitive0(src, _) => [HostCall(src)]
    case Primitive1(src, m1, _) => MarksOf(m1) + [HostCall(src)]
    case Primitive2(src, m1, m2, _) => MarksOf(m1) + (MarksOf(m2) + [HostCall(src)])
    case Call(tail, src, m1, args) => MarksOf(m1) + (MarksArgs(args) + [CallOf(tail, src)])
    case Abstraction(nary, mp, _, arity, formals, _, _) => MarksOf(mp) + [Closes(nary, arity, formals)]
    case ScopedLet(_, _, m1, mp) => MarksOf(m1) + MarksOf(mp)
    case Trapping(sis, m1, mp) => MarksOf(m1) + (MarksOf(mp) + [TrapsFor(|sis|)])
    case _ => []
  }

  function MarksEach(ms: Codes): (r: seq<Mark>) {
    match ms
    case One(m) => MarksOf(m)
    case More(m, rest) => MarksOf(m) + MarksEach(rest)
  }

  function MarksArgs(args: Args): (r: seq<Mark>) {
    match args
    case StoreArgument(m1, rest, _) => MarksOf(m1) + MarksArgs(rest)
    case ListArgument(m1, rest, _) => MarksOf(m1) + MarksArgs(rest)
    case AllocFrame(_) => []
  }

  /** The names as the byte code's constants have them: symbols, and false for the slot without a name. */
  function Shown(names: seq<L.Name>): (vs: seq<Value>) {
    seq(|names|, k requires 0 <= k < |names| => if names[k].Sym? then Object(names[k].id) else FALSE)
  }

  function NameList(names: seq<L.Name>): (v: Value) { ListOf(Shown(names)) }

  /** The slots of a function's frame: its parameters, and one more where the last does not take a rest. */
  function ParameterNames(dotted: bool, names: seq<L.Name>): (v: Value) {
    NameList(if dotted then names else names + [L.Unnamed])
  }

  /**
    The marks an expression should leave.  What comes last in a body or an arm is in tail position if the whole is; the
    value of an assignment, a test, an operand, an argument, and the body of a dynamic, environment or trap form never
    is, nor is the call that assigns to a place.  A function's body always is.
   */
  function Wanted(G: Globals, e: Expr, nt: seq<L.Level>, tail: bool): (r: seq<Mark>)
    decreases e
  {
    match e
    case Literal(_) => []
    case Variable(name) => Fetched(G, name, nt, false)
    case Assign(name, e1) => Wanted(G, e1, nt, false) + (if L.Lookup(nt, name, 0).Slot? then [] else [Stores(true)])
    case AssignPlace(call) => Wanted(G, call, nt, false)
    case If(e1, e2, e3) => Wanted(G, e1, nt, false) + (Wanted(G, e2, nt, tail) + (Wanted(G, e3, nt, tail) + [Test(true)]))
    case Block(es) => WantedEach(G, es, nt, tail)
    case Connective(conj, es) => WantedEach(G, es, nt, tail) + [Connect(conj, tail)]
    case NotExpr(e1) => Wanted(G, e1, nt, false) + [Negate(tail)]
    case Function(dotted, names, body) =>
      WantedEach(G, body, ParamTree(dotted, names, nt), true)
      + [Closes(dotted, if dotted && names != [] then |names| - 1 else |names|, ParameterNames(dotted, names))]
    case Application(fe, args) =>
      (if fe.Variable? then Fetched(G, fe.name, nt, true) else Wanted(G, fe, nt, false)) + (WantedArgs(G, args, nt) + [CallOf(tail, true)])
    case Closed(dotted, names, body, args) =>
      WantedArgs(G, args, nt) + (WantedEach(G, body, ParamTree(dotted, names, nt), tail) + [LetOf(tail, ParameterNames(dotted, names))])
    case LocalIn(name, e1, body) =>
      Wanted(G, e1, nt, false) + (WantedEach(G, body, LocalTree(name, nt), tail) + [LocalOf(true, NameList(L.NamesOf(nt) + [name]))])
    case PrimitiveOf0(_) => [HostCall(true)]
    case PrimitiveOf1(_, e1) => Wanted(G, e1, nt, false) + [HostCall(true)]
    case PrimitiveOf2(_, e1, e2) => Wanted(G, e1, nt, false) + (Wanted(G, e2, nt, false) + [HostCall(true)])
    case ScopedIn(environ, name, si, e1, body) =>
      Wanted(G, e1, nt, false) + WantedEach(G, body, L.ExtendScoped(nt, name, if environ then L.Environ else L.Dynamic, si), false)
    case TrapIn(sis, handler, body) => Wanted(G, handler, nt, false) + (WantedEach(G, body, nt, false) + [TrapsFor(|sis|)])
  }

  /** Top-level variables are fetched in one way to be called and in another for their value. */
  function Fetched(G: Globals, name: L.Name, nt: seq<L.Level>, called: bool): (r: seq<Mark>) {
    if L.Lookup(nt, name, 0).Global? && G(name).Toplevel? then [Fetch(called)] else []
  }

  function WantedEach(G: Globals, es: Exprs, nt: seq<L.Level>, tail: bool): (r: seq<Mark>)
    decreases es
  {
    match es
    case Last(e) => Wanted(G, e, nt, tail)
    case Then(e, rest) => Wanted(G, e, nt, false) + WantedEach(G, rest, nt, tail)
  }

  function WantedArgs(G: Globals, args: Actuals, nt: seq<L.Level>): (r: seq<Mark>)
    decreases args
  {
    match args
    case NoMore => []
    case Actual(e, rest) => Wanted(G, e, nt, false) + WantedArgs(G, rest, nt)
  }

  // Names

  lemma NamesAre(names: seq<L.Name>)
    ensures NameValues(names) == Shown(names)
  {
  }

  lemma ParametersListed(dotted: bool, names: seq<L.Name>, nt: seq<L.Level>)
    requires dotted ==> names != []
    ensures FormalsOf(ParamTree(dotted, names, nt)) == ParameterNames(dotted, names)
  {
    hide ListOf;
    var xs := if dotted then names else names + [L.Unnamed];
    var ent := ParamTree(dotted, names, nt);
    assert L.LevelNames(L.ParamLevel(xs)) == xs;
    assert ent[0] == L.ParamLevel(xs) && ent[0][0].sort == L.Param;
    assert L.AnyParam(ent[0]) && L.NamesOf(ent) == xs;
    NamesAre(xs);
  }

  lemma LocalListed(name: L.Name, nt: seq<L.Level>)
    ensures FormalsOf(LocalTree(name, nt)) == NameList(L.NamesOf(nt) + [name])
  {
    hide ListOf;
    var ent := LocalTree(name, nt);
    assert ent[1..] == nt && L.LevelNames(ent[0]) == [name];
    NamesAre(L.NamesOf(nt) + [name]);
  }

  // The evaluator

  /** The evaluator's I-code carries just the marks wanted: in particular every call in tail position is a tail call. */
  lemma {:induction false} MarksAre(G: Globals, e: Expr, nt: seq<L.Level>, f: Flags, v: nat)
    requires Proper(e)
    ensures MarksOf(E.Meaning(G, e, nt, f, v).m) == Wanted(G, e, nt, IsTail(f))
    decreases e, 1
  {
    hide E.Meaning, MeaningEach, MeaningArgs, MeaningDotted, Reference, Assignment, IsTail, SetTail, NotTail, NoDefine, ToplevelScope;
    hide FormalsOf, ParameterNames, NameList, Shown, ParamTree, LocalTree, Fetched, L.Lookup, L.NamesOf, FixedCount;
    MeaningByRule(G, e, nt, f, v);
    TailFlags(f);
    ToplevelIsSet(f);
    match e
    case Literal(_) =>
    case Variable(name) => ReferenceMarks(G, false, name, nt);
    case Assign(_, _) => AssignmentMarks(G, e, nt, f, v);
    case AssignPlace(call) =>
      AssignedNeverTail(ToplevelScope(f));
      MarksAre(G, call, nt, NoDefine(ToplevelScope(f)), v);
    case If(_, _, _) => IfMarks(G, e, nt, f, v);
    case Block(es) => EachMarks(G, es, nt, f, v);
    case Connective(_, es) => EachMarks(G, es, nt, f, v);
    case NotExpr(e1) => MarksAre(G, e1, nt, NotTail(f), v);
    case Function(_, _, _) => FunctionMarks(G, e, nt, f, v);
    case Application(_, _) => CallMarks(G, e, nt, f, v);
    case Closed(_, _, _, _) => LetMarks(G, e, nt, f, v);
    case LocalIn(_, _, _) => LocalMarks(G, e, nt, f, v);
    case PrimitiveOf0(_) =>
    case PrimitiveOf1(_, e1) => MarksAre(G, e1, nt, NotTail(f), v);
    case PrimitiveOf2(_, _, _) => PairMarks(G, e, nt, f, v);
    case ScopedIn(_, _, _, _, _) => ScopedMarks(G, e, nt, f, v);
    case TrapIn(_, _, _) => ScopedMarks(G, e, nt, f, v);
  }

  lemma {:induction false} IfMarks(G: Globals, e: Expr, nt: seq<L.Level>, f: Flags, v: nat)
    requires e.If? && Proper(e)
    ensures MarksOf(MeaningRule(G, e, nt, f, v).m) == Wanted(G, e, nt, IsTail(f))
    decreases e, 0
  {
    hide E.Meaning, IsTail, NotTail;
    TailFlags(f);
    var r1 := E.Meaning(G, e.e1, nt, NotTail(f), v);
    var r2 := E.Meaning(G, e.e2, nt, f, r1.v);
    MarksAre(G, e.e1, nt, NotTail(f), v);
    MarksAre(G, e.e2, nt, f, r1.v);
    MarksAre(G, e.e3, nt, f, r2.v);
  }

  lemma {:induction false} LocalMarks(G: Globals, e: Expr, nt: seq<L.Level>, f: Flags, v: nat)
    requires e.LocalIn? && Proper(e)
    ensures MarksOf(MeaningRule(G, e, nt, f, v).m) == Wanted(G, e, nt, IsTail(f))
    decreases e, 0
  {
    hide E.Meaning, MeaningEach, IsTail, NotTail, FormalsOf, NameList, LocalTree, L.NamesOf;
    TailFlags(f);
    MarksAre(G, e.e, nt, NotTail(f), v);
    EachMarks(G, e.body, LocalTree(e.name, nt), f, E.Meaning(G, e.e, nt, NotTail(f), v).v);
    LocalListed(e.name, nt);
  }

  lemma {:induction false} PairMarks(G: Globals, e: Expr, nt: seq<L.Level>, f: Flags, v: nat)
    requires e.PrimitiveOf2? && Proper(e)
    ensures MarksOf(MeaningRule(G, e, nt, f, v).m) == Wanted(G, e, nt, IsTail(f))
    decreases e, 0
  {
    hide E.Meaning, IsTail, NotTail;
    TailFlags(f);
    MarksAre(G, e.e1, nt, NotTail(f), v);
    MarksAre(G, e.e2, nt, NotTail(f), E.Meaning(G, e.e1, nt, NotTail(f), v).v);
  }

  lemma ReferenceMarks(G: Globals, called: bool, name: L.Name, nt: seq<L.Level>)
    ensures MarksOf(Reference(G, called, name, nt)) == Fetched(G, name, nt, called)
  {
    hide L.Lookup;
  }

  lemma {:induction false} AssignmentMarks(G: Globals, e: Expr, nt: seq<L.Level>, f: Flags, v: nat)
    requires e.Assign? && Proper(e)
    ensures MarksOf(MeaningRule(G, e, nt, f, v).m) == Wanted(G, e, nt, IsTail(f))
    decreases e, 0
  {
    hide E.Meaning, IsTail, NotTail, NoDefine, ToplevelScope, L.Lookup;
    var fl := NoDefine(NotTail(ToplevelScope(f)));
    ToplevelIsSet(f);
    AssignedNeverTail(ToplevelScope(f));
    MarksAre(G, e.e, nt, fl, v);
  }

  lemma {:induction false} FunctionMarks(G: Globals, e: Expr, nt: seq<L.Level>, f: Flags, v: nat)
    requires e.Function? && Proper(e)
    ensures MarksOf(MeaningRule(G, e, nt, f, v).m) == Wanted(G, e, nt, IsTail(f))
    decreases e, 0
  {
    hide E.Meaning, MeaningEach, IsTail, SetTail, FormalsOf, ParameterNames, ParamTree;
    TailFlags(f);
    EachMarks(G, e.body, ParamTree(e.dotted, e.names, nt), SetTail(f), v);
    ParametersListed(e.dotted, e.names, nt);
  }

  lemma {:induction false} CallMarks(G: Globals, e: Expr, nt: seq<L.Level>, f: Flags, v: nat)
    requires e.Application? && Proper(e)
    ensures MarksOf(MeaningRule(G, e, nt, f, v).m) == Wanted(G, e, nt, IsTail(f))
    decreases e, 0
  {
    hide E.Meaning, MeaningArgs, Reference, IsTail, NotTail, Fetched;
    TailFlags(f);
    var fe := e.fe;
    var r := if fe.Variable? then Made(Reference(G, true, fe.name, nt), v) else E.Meaning(G, fe, nt, NotTail(f), v);
    if fe.Variable? {
      ReferenceMarks(G, true, fe.name, nt);
    } else {
      MarksAre(G, fe, nt, NotTail(f), v);
    }
    ArgsMarks(G, e.args, nt, ActualCount(e.args), NotTail(f), r.v);
  }

  lemma {:induction false} LetMarks(G: Globals, e: Expr, nt: seq<L.Level>, f: Flags, v: nat)
    requires e.Closed? && Proper(e)
    ensures MarksOf(MeaningRule(G, e, nt, f, v).m) == Wanted(G, e, nt, IsTail(f))
    decreases e, 0
  {
    hide E.Meaning, MeaningEach, MeaningArgs, MeaningDotted, IsTail, NotTail, FormalsOf, ParameterNames, ParamTree;
    var k := ActualCount(e.args);
    var q := if e.dotted then MeaningDotted(G, e.args, nt, k, FixedCount(true, e.names), NotTail(f), v)
             else MeaningArgs(G, e.args, nt, k, NotTail(f), v);
    if e.dotted {
      DottedMarks(G, e.args, nt, k, FixedCount(true, e.names), NotTail(f), v);
    } else {
      ArgsMarks(G, e.args, nt, k, NotTail(f), v);
    }
    EachMarks(G, e.body, ParamTree(e.dotted, e.names, nt), f, q.v);
    ParametersListed(e.dotted, e.names, nt);
  }

  lemma {:induction false} ScopedMarks(G: Globals, e: Expr, nt: seq<L.Level>, f: Flags, v: nat)
    requires (e.ScopedIn? || e.TrapIn?) && Proper(e)
    ensures MarksOf(MeaningRule(G, e, nt, f, v).m) == Wanted(G, e, nt, IsTail(f))
    decreases e, 0
  {
    hide E.Meaning, MeaningEach, IsTail, NotTail, L.ExtendScoped;
    TailFlags(f);
    var e1 := if e.TrapIn? then e.handler else e.e;
    MarksAre(G, e1, nt, NotTail(f), v);
    var ent := if e.TrapIn? then nt else L.ExtendScoped(nt, e.name, if e.environ then L.Environ else L.Dynamic, e.si);
    EachMarks(G, e.body, ent, NotTail(f), E.Meaning(G, e1, nt, NotTail(f), v).v);
  }

  lemma {:induction false} EachMarks(G: Globals, es: Exprs, nt: seq<L.Level>, f: Flags, v: nat)
    requires ProperEach(es)
    ensures MarksEach(MeaningEach(G, es, nt, f, v).ms) == WantedEach(G, es, nt, IsTail(f))
    decreases es, 2
  {
    hide E.Meaning, IsTail, NotTail, MarksOf, Wanted, Proper;
    TailFlags(f);
    match es
    case Last(e) => MarksAre(G, e, nt, f, v);
    case Then(e, rest) =>
      MarksAre(G, e, nt, NotTail(f), v);
      EachMarks(G, rest, nt, f, E.Meaning(G, e, nt, NotTail(f), v).v);
  }

  lemma {:induction false} ArgsMarks(G: Globals, args: Actuals, nt: seq<L.Level>, arity: nat, f: Flags, v: nat)
    requires ProperArgs(args)
    ensures MarksArgs(MeaningArgs(G, args, nt, arity, f, v).args) == WantedArgs(G, args, nt)
    decreases args, 2
  {
    hide E.Meaning, IsTail, NotTail, MarksOf, Wanted, Proper;
    TailFlags(f);
    if args.Actual? {
      MarksAre(G, args.e, nt, NotTail(f), v);
      ArgsMarks(G, args.rest, nt, arity, f, E.Meaning(G, args.e, nt, NotTail(f), v).v);
    }
  }

  lemma {:induction false} DottedMarks(G: Globals, args: Actuals, nt: seq<L.Level>, nargs: nat, arity: nat, f: Flags, v: nat)
    requires ProperArgs(args)
    ensures MarksArgs(MeaningDotted(G, args, nt, nargs, arity, f, v).args) == WantedArgs(G, args, nt)
    decreases args, 2
  {
    hide E.Meaning, IsTail, NotTail, MarksOf, Wanted, Proper;
    TailFlags(f);
    if args.Actual? {
      MarksAre(G, args.e, nt, NotTail(f), v);
      DottedMarks(G, args.rest, nt, nargs, arity, f, E.Meaning(G, args.e, nt, NotTail(f), v).v);
    }
  }
}
