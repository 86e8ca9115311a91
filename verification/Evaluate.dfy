/**
  From expressions to intermediate code: which variable is where, and which calls are tail calls.
  Flags travel down with the expression; the tail flag says that nothing but the return is left.
 */
module Evaluate {

  import opened Machine
  import L = Lexical
  import opened Icode

  // Flags

  type Flags = bv8

  const TAILP: Flags := 0x01
  const TOPLEVEL_SCOPE: Flags := 0x02
  const DYNAMIC_SCOPE: Flags := 0x04
  const ENVIRON_SCOPE: Flags := 0x08
  const COMPUTED_SCOPE: Flags := 0x10
  const DEFINE: Flags := 0x20
  const SCOPE_MASK: Flags := 0x1E

  predicate IsTail(f: Flags) { f & TAILP != 0 }

  function SetTail(f: Flags): Flags { f | TAILP }

  function NotTail(f: Flags): Flags { f & !TAILP }

  /** The flags with another scope. */
  function WithScope(f: Flags, scope: Flags): Flags { (f & !SCOPE_MASK) | scope }

  function ToplevelScope(f: Flags): Flags { WithScope(f, TOPLEVEL_SCOPE) }

  /** The macro compares with zero instead of clearing the bit: its value is a truth value, 1 or 0. */
  function NoDefine(f: Flags): Flags { if f & !DEFINE == 0 then 1 else 0 }

  lemma TailFlags(f: Flags)
    ensures IsTail(SetTail(f)) && !IsTail(NotTail(f))
  {
  }

  /** What comes out of NO_DEFINE means "tail" exactly when no flag but DEFINE was set. */
  lemma NoDefineTail(f: Flags)
    ensures IsTail(NoDefine(f)) <==> f & !DEFINE == 0
  {
  }

  /** So clearing the define flag of no flags at all would make a value a tail position. */
  lemma NoDefineOfNothing()
    ensures IsTail(NoDefine(0)) && IsTail(NoDefine(DEFINE)) && IsTail(NoDefine(NotTail(TAILP)))
  {
  }

  /** But an assignment always comes with a scope, whichever it is, and then its value is never in tail position. */
  lemma AssignedNeverTail(f: Flags)
    requires f & SCOPE_MASK != 0
    ensures !IsTail(NoDefine(NotTail(f))) && !IsTail(NoDefine(f)) && !IsTail(NoDefine(NotTail(f | DEFINE)))
  {
    assert f & !DEFINE & SCOPE_MASK == f & SCOPE_MASK;
    assert f & !TAILP & !DEFINE & SCOPE_MASK == f & SCOPE_MASK;
    assert (f | DEFINE) & !TAILP & !DEFINE & SCOPE_MASK == f & SCOPE_MASK;
  }

  /** Each of the scopes an assignment can be made in is such a scope. */
  lemma ScopesAreSet(f: Flags)
    ensures WithScope(f, TOPLEVEL_SCOPE) & SCOPE_MASK != 0 && WithScope(f, DYNAMIC_SCOPE) & SCOPE_MASK != 0
    ensures WithScope(f, ENVIRON_SCOPE) & SCOPE_MASK != 0 && WithScope(f, COMPUTED_SCOPE) & SCOPE_MASK != 0
  {
  }

  lemma ToplevelIsSet(f: Flags)
    ensures ToplevelScope(f) & SCOPE_MASK != 0
  {
    ScopesAreSet(f);
  }

  // Expressions, with bodies already rewritten

  datatype Expr =
    | Literal(c: Value)
    | Variable(name: L.Name)
    | Assign(name: L.Name, e: Expr)
    | AssignPlace(call: Expr)
    | If(e1: Expr, e2: Expr, e3: Expr)
    | Block(es: Exprs)
    | Connective(conj: bool, es: Exprs)
    | NotExpr(e: Expr)
    | Function(dotted: bool, names: seq<L.Name>, body: Exprs)
    | Application(fe: Expr, args: Actuals)
    | Closed(dotted: bool, names: seq<L.Name>, body: Exprs, args: Actuals)
    | LocalIn(name: L.Name, e: Expr, body: Exprs)
    | PrimitiveOf0(pd: nat)
    | PrimitiveOf1(pd: nat, e: Expr)
    | PrimitiveOf2(pd: nat, e1: Expr, e2: Expr)
    | ScopedIn(environ: bool, name: L.Name, si: nat, e: Expr, body: Exprs)
    | TrapIn(sis: seq<nat>, handler: Expr, body: Exprs)

  datatype Exprs = Last(e: Expr) | Then(e: Expr, rest: Exprs)

  datatype Actuals = NoMore | Actual(e: Expr, rest: Actuals)

  function ActualCount(args: Actuals): nat {
    match args
    case NoMore => 0
    case Actual(_, rest) => 1 + ActualCount(rest)
  }

  /** What a name that is not lexical is: an ordinary variable, or one with dynamic or environment bindings. */
  datatype Outer = Toplevel(si: nat) | DynamicOf(si: nat) | EnvironOf(si: nat)

  type Globals = L.Name -> Outer

  // References

  function Reference(G: Globals, called: bool, name: L.Name, nt: seq<L.Level>): Icode {
    match L.Lookup(nt, name, 0)
    case Slot(_, i, j) => if i == 0 then ShallowArgumentRef(j) else DeepArgumentRef(i, j)
    case Scoped(sort, index) => ScopedRef(sort == L.Environ, index)
    case Global =>
      match G(name)
      case Toplevel(si) => SymbolRef(called, si)
      case DynamicOf(si) => ScopedRef(false, si)
      case EnvironOf(si) => ScopedRef(true, si)
  }

  function Assignment(G: Globals, name: L.Name, nt: seq<L.Level>, m: Icode): Icode {
    match L.Lookup(nt, name, 0)
    case Slot(_, i, j) => if i == 0 then ShallowArgumentSet(j, m) else DeepArgumentSet(i, j, m)
    case Scoped(_, index) => SymbolSet(true, index, m)
    case Global => SymbolSet(true, G(name).si, m)
  }

  function NameValue(name: L.Name): Value {
    match name
    case Unnamed => FALSE
    case Sym(id) => Object(id)
  }

  function NameValues(names: seq<L.Name>): seq<Value> {
    seq(|names|, k requires 0 <= k < |names| => NameValue(names[k]))
  }

  function FormalsOf(nt: seq<L.Level>): Value { ListOf(NameValues(L.NamesOf(nt))) }

  function ParamTree(dotted: bool, names: seq<L.Name>, nt: seq<L.Level>): seq<L.Level> {
    [L.ParamLevel(if dotted then names else names + [L.Unnamed])] + nt
  }

  function LocalTree(name: L.Name, nt: seq<L.Level>): seq<L.Level> {
    [[L.Entry(name, L.Local, L.Base(nt))]] + nt
  }

  /** The parameters a dotted list of names takes one by one. */
  function FixedCount(dotted: bool, names: seq<L.Name>): nat {
    if dotted && names != [] then |names| - 1 else |names|
  }

  // Meanings; v is the next free function number

  /** Traps are pushed from the last condition written to the first. */
  function Backwards(sis: seq<nat>): (r: seq<nat>)
    ensures |r| == |sis|
    decreases |sis|
  {
    if sis == [] then [] else Backwards(sis[1..]) + [sis[0]]
  }

  datatype Made = Made(m: Icode, v: nat)

  datatype MadeEach = MadeEach(ms: Codes, v: nat)

  datatype MadeArgs = MadeArgs(args: Args, v: nat)

  function Meaning(G: Globals, e: Expr, nt: seq<L.Level>, f: Flags, v: nat): Made
    decreases e, 1
  {
    MeaningRule(G, e, nt, f, v)
  }

  lemma MeaningByRule(G: Globals, e: Expr, nt: seq<L.Level>, f: Flags, v: nat)
    ensures Meaning(G, e, nt, f, v) == MeaningRule(G, e, nt, f, v)
  {
    hide MeaningRule;
  }

  function MeaningRule(G: Globals, e: Expr, nt: seq<L.Level>, f: Flags, v: nat): Made
    decreases e, 0
  {
    match e
    case Literal(c) => Made(ConstantOf(c), v)
    case Variable(name) => Made(Reference(G, false, name, nt), v)
    case Assign(name, e1) =>
      var r := Meaning(G, e1, nt, NoDefine(NotTail(ToplevelScope(f))), v);
      Made(Assignment(G, name, nt, r.m), r.v)
    case AssignPlace(call) => Meaning(G, call, nt, NoDefine(ToplevelScope(f)), v)
    case If(e1, e2, e3) =>
      var r1 := Meaning(G, e1, nt, NotTail(f), v);
      var r2 := Meaning(G, e2, nt, f, r1.v);
      var r3 := Meaning(G, e3, nt, f, r2.v);
      Made(Alternative(true, r1.m, r2.m, r3.m), r3.v)
    case Block(es) =>
      var r := MeaningEach(G, es, nt, f, v);
      Made(Begin(IsTail(f), r.ms), r.v)
    case Connective(conj, es) =>
      var r := MeaningEach(G, es, nt, f, v);
      Made(Junction(conj, IsTail(f), r.ms), r.v)
    case NotExpr(e1) =>
      var r := Meaning(G, e1, nt, NotTail(f), v);
      Made(Negation(IsTail(f), r.m), r.v)
    case Function(dotted, names, body) =>
      var ent := ParamTree(dotted, names, nt);
      var r := MeaningEach(G, body, ent, SetTail(f), v);
      Made(Abstraction(dotted, Begin(true, r.ms), NIL, FixedCount(dotted, names), FormalsOf(ent), NIL, r.v), r.v + 1)
    case Application(fe, args) =>
      var r := if fe.Variable? then Made(Reference(G, true, fe.name, nt), v) else Meaning(G, fe, nt, NotTail(f), v);
      var q := MeaningArgs(G, args, nt, ActualCount(args), NotTail(f), r.v);
      Made(Call(IsTail(f), true, r.m, q.args), q.v)
    case Closed(dotted, names, body, args) =>
      var q := if dotted then MeaningDotted(G, args, nt, ActualCount(args), FixedCount(true, names), NotTail(f), v)
               else MeaningArgs(G, args, nt, ActualCount(args), NotTail(f), v);
      var ent := ParamTree(dotted, names, nt);
      var r := MeaningEach(G, body, ent, f, q.v);
      Made(FixLet(IsTail(f), q.args, Begin(IsTail(f), r.ms), FormalsOf(ent)), r.v)
    case LocalIn(name, e1, body) =>
      var r1 := Meaning(G, e1, nt, NotTail(f), v);
      var ent := LocalTree(name, nt);
      var r := MeaningEach(G, body, ent, f, r1.v);
      Made(Icode.Local(true, L.Base(nt), r1.m, Begin(IsTail(f), r.ms), |L.NamesOf(ent)|, FormalsOf(ent)), r.v)
    case PrimitiveOf0(pd) => Made(Primitive0(true, pd), v)
    case PrimitiveOf1(pd, e1) =>
      var r := Meaning(G, e1, nt, NotTail(f), v);
      Made(Primitive1(true, r.m, pd), r.v)
    case PrimitiveOf2(pd, e1, e2) =>
      var r1 := Meaning(G, e1, nt, NotTail(f), v);
      var r2 := Meaning(G, e2, nt, NotTail(f), r1.v);
      Made(Primitive2(true, r1.m, r2.m, pd), r2.v)
    case ScopedIn(environ, name, si, e1, body) =>
      var r1 := Meaning(G, e1, nt, NotTail(f), v);
      var ent := L.ExtendScoped(nt, name, if environ then L.Environ else L.Dynamic, si);
      var r := MeaningEach(G, body, ent, NotTail(f), r1.v);
      Made(ScopedLet(environ, si, r1.m, Begin(false, r.ms)), r.v)
    case TrapIn(sis, handler, body) =>
      var r1 := Meaning(G, handler, nt, NotTail(f), v);
      var r := MeaningEach(G, body, nt, NotTail(f), r1.v);
      Made(Trapping(Backwards(sis), r1.m, Begin(false, r.ms)), r.v)
  }

  /** Only the last expression keeps the tail flag. */
  function MeaningEach(G: Globals, es: Exprs, nt: seq<L.Level>, f: Flags, v: nat): MadeEach
    decreases es, 2
  {
    match es
    case Last(e) =>
      var r := Meaning(G, e, nt, f, v);
      MadeEach(One(r.m), r.v)
    case Then(e, rest) =>
      var r := Meaning(G, e, nt, NotTail(f), v);
      var q := MeaningEach(G, rest, nt, f, r.v);
      MadeEach(More(r.m, q.ms), q.v)
  }

  function MeaningArgs(G: Globals, args: Actuals, nt: seq<L.Level>, arity: nat, f: Flags, v: nat): MadeArgs
    decreases args, 2
  {
    match args
    case NoMore => MadeArgs(AllocFrame(arity), v)
    case Actual(e, rest) =>
      var r := Meaning(G, e, nt, NotTail(f), v);
      var q := MeaningArgs(G, rest, nt, arity, f, r.v);
      var left := ActualCount(rest) + 1;
      MadeArgs(StoreArgument(r.m, q.args, if left <= arity then arity - left else 0), q.v)
  }

  function MeaningDotted(G: Globals, args: Actuals, nt: seq<L.Level>, nargs: nat, arity: nat, f: Flags, v: nat): MadeArgs
    decreases args, 2
  {
    match args
    case NoMore => MadeArgs(AllocFrame(arity), v)
    case Actual(e, rest) =>
      var r := Meaning(G, e, nt, NotTail(f), v);
      var q := MeaningDotted(G, rest, nt, nargs, arity, f, r.v);
      var left := ActualCount(rest) + 1;
      var rank := if left <= nargs then nargs - left else 0;
      MadeArgs(if rank < arity then StoreArgument(r.m, q.args, rank) else ListArgument(r.m, q.args, arity), q.v)
  }

  // Tail positions

  /** What may stand anywhere may stand in tail position. */
  lemma {:induction false} AnywhereInTail(m: Icode)
    requires TailOK(m, false)
    ensures TailOK(m, true)
    decreases m
  {
    match m
    case Alternative(_, _, m2, m3) =>
      AnywhereInTail(m2);
      AnywhereInTail(m3);
    case Sequence(_, mp) => AnywhereInTail(mp);
    case Each(ms) => AnywhereInTailEach(ms);
    case Begin(_, ms) => AnywhereInTailEach(ms);
    case Junction(_, t, ms) => AnywhereInTailEach(ms);
    case Local(_, _, _, mp, _, _) => AnywhereInTail(mp);
    case _ =>
  }

  lemma {:induction false} AnywhereInTailEach(ms: Codes)
    requires TailEach(ms, false)
    ensures TailEach(ms, true)
    decreases ms
  {
    hide TailOK;
    match ms
    case One(m) => AnywhereInTail(m);
    case More(_, rest) => AnywhereInTailEach(rest);
  }

  /** The evaluator makes tail calls and tail lets only in tail position. */
  lemma {:induction false} TailPlaces(G: Globals, e: Expr, nt: seq<L.Level>, f: Flags, v: nat)
    ensures TailOK(Meaning(G, e, nt, f, v).m, IsTail(f))
    decreases e, 1
  {
    hide Meaning, FormalsOf, ParamTree, LocalTree, TailEach, TailArgs, MeaningEach, MeaningArgs, MeaningDotted;
    hide Reference, Assignment, IsTail, SetTail, NotTail, NoDefine, ToplevelScope;
    ToplevelIsSet(f);
    MeaningByRule(G, e, nt, f, v);
    TailFlags(f);
    match e
    case Literal(_) =>
    case Variable(name) => ReferenceTail(G, false, name, nt, IsTail(f));
    case Assign(name, e1) =>
      AssignedNeverTail(ToplevelScope(f));
      TailPlaces(G, e1, nt, NoDefine(NotTail(ToplevelScope(f))), v);
      AssignmentTail(G, name, nt, Meaning(G, e1, nt, NoDefine(NotTail(ToplevelScope(f))), v).m, IsTail(f));
    case AssignPlace(call) =>
      AssignedNeverTail(ToplevelScope(f));
      TailPlaces(G, call, nt, NoDefine(ToplevelScope(f)), v);
      AnywhereInTail(Meaning(G, call, nt, NoDefine(ToplevelScope(f)), v).m);
    case If(e1, e2, e3) =>
      var r1 := Meaning(G, e1, nt, NotTail(f), v);
      TailPlaces(G, e1, nt, NotTail(f), v);
      TailPlaces(G, e2, nt, f, r1.v);
      TailPlaces(G, e3, nt, f, Meaning(G, e2, nt, f, r1.v).v);
    case Block(es) => TailPlacesEach(G, es, nt, f, v);
    case Connective(conj, es) => TailPlacesEach(G, es, nt, f, v);
    case NotExpr(e1) => TailPlaces(G, e1, nt, NotTail(f), v);
    case Function(dotted, names, body) => TailPlacesEach(G, body, ParamTree(dotted, names, nt), SetTail(f), v);
    case Application(fe, args) => TailApplication(G, fe, args, nt, f, v);
    case Closed(dotted, names, body, args) => TailClosed(G, dotted, names, body, args, nt, f, v);
    case LocalIn(_, _, _) => TailTwo(G, e, nt, f, v);
    case PrimitiveOf0(_) =>
    case PrimitiveOf1(_, e1) => TailPlaces(G, e1, nt, NotTail(f), v);
    case PrimitiveOf2(_, _, _) => TailTwo(G, e, nt, f, v);
    case ScopedIn(_, _, _, _, _) => TailTwo(G, e, nt, f, v);
    case TrapIn(_, _, _) => TailTwo(G, e, nt, f, v);
  }

  lemma {:induction false} TailTwo(G: Globals, e: Expr, nt: seq<L.Level>, f: Flags, v: nat)
    requires e.LocalIn? || e.PrimitiveOf2? || e.ScopedIn? || e.TrapIn?
    ensures TailOK(MeaningRule(G, e, nt, f, v).m, IsTail(f))
    decreases e, 0
  {
    hide Meaning, FormalsOf, LocalTree, TailEach, MeaningEach, IsTail, NotTail;
    TailFlags(f);
    match e
    case LocalIn(name, e1, body) =>
      TailPlaces(G, e1, nt, NotTail(f), v);
      TailPlacesEach(G, body, LocalTree(name, nt), f, Meaning(G, e1, nt, NotTail(f), v).v);
    case PrimitiveOf2(_, e1, e2) =>
      TailPlaces(G, e1, nt, NotTail(f), v);
      TailPlaces(G, e2, nt, NotTail(f), Meaning(G, e1, nt, NotTail(f), v).v);
    case ScopedIn(environ, name, si, e1, body) =>
      var ent := L.ExtendScoped(nt, name, if environ then L.Environ else L.Dynamic, si);
      TailPlaces(G, e1, nt, NotTail(f), v);
      TailPlacesEach(G, body, ent, NotTail(f), Meaning(G, e1, nt, NotTail(f), v).v);
    case TrapIn(sis, handler, body) =>
      TailPlaces(G, handler, nt, NotTail(f), v);
      TailPlacesEach(G, body, nt, NotTail(f), Meaning(G, handler, nt, NotTail(f), v).v);
  }

  lemma ReferenceTail(G: Globals, called: bool, name: L.Name, nt: seq<L.Level>, tail: bool)
    ensures TailOK(Reference(G, called, name, nt), tail)
  {
  }

  lemma AssignmentTail(G: Globals, name: L.Name, nt: seq<L.Level>, m: Icode, tail: bool)
    requires TailOK(m, false)
    ensures TailOK(Assignment(G, name, nt, m), tail)
  {
  }

  lemma {:induction false} TailApplication(G: Globals, fe: Expr, args: Actuals, nt: seq<L.Level>, f: Flags, v: nat)
    ensures TailOK(MeaningRule(G, Application(fe, args), nt, f, v).m, IsTail(f))
    decreases Application(fe, args), 0
  {
    hide Meaning, MeaningArgs, Reference, IsTail, NotTail;
    TailFlags(f);
    var r := if fe.Variable? then Made(Reference(G, true, fe.name, nt), v) else Meaning(G, fe, nt, NotTail(f), v);
    if fe.Variable? {
      ReferenceTail(G, true, fe.name, nt, false);
    } else {
      TailPlaces(G, fe, nt, NotTail(f), v);
    }
    TailPlacesArgs(G, args, nt, ActualCount(args), NotTail(f), r.v);
  }

  lemma {:induction false} TailClosed(G: Globals, dotted: bool, names: seq<L.Name>, body: Exprs, args: Actuals, nt: seq<L.Level>, f: Flags, v: nat)
    ensures TailOK(MeaningRule(G, Closed(dotted, names, body, args), nt, f, v).m, IsTail(f))
    decreases Closed(dotted, names, body, args), 0
  {
    hide Meaning, FormalsOf, ParamTree, TailEach, TailArgs, ActualCount, MeaningEach, MeaningArgs, MeaningDotted;
    hide IsTail, NotTail;
    TailFlags(f);
    var q;
    if dotted {
      q := MeaningDotted(G, args, nt, ActualCount(args), FixedCount(true, names), NotTail(f), v);
      TailPlacesDotted(G, args, nt, ActualCount(args), FixedCount(true, names), NotTail(f), v);
    } else {
      q := MeaningArgs(G, args, nt, ActualCount(args), NotTail(f), v);
      TailPlacesArgs(G, args, nt, ActualCount(args), NotTail(f), v);
    }
    TailPlacesEach(G, body, ParamTree(dotted, names, nt), f, q.v);
  }

  lemma {:induction false} TailPlacesEach(G: Globals, es: Exprs, nt: seq<L.Level>, f: Flags, v: nat)
    ensures TailEach(MeaningEach(G, es, nt, f, v).ms, IsTail(f))
    decreases es, 2
  {
    hide Meaning, TailOK, IsTail, NotTail;
    TailFlags(f);
    match es
    case Last(e) => TailPlaces(G, e, nt, f, v);
    case Then(e, rest) =>
      TailPlaces(G, e, nt, NotTail(f), v);
      TailPlacesEach(G, rest, nt, f, Meaning(G, e, nt, NotTail(f), v).v);
  }

  lemma {:induction false} TailPlacesArgs(G: Globals, args: Actuals, nt: seq<L.Level>, arity: nat, f: Flags, v: nat)
    ensures TailArgs(MeaningArgs(G, args, nt, arity, f, v).args)
    decreases args, 2
  {
    hide Meaning, TailOK, IsTail, NotTail;
    TailFlags(f);
    match args
    case NoMore =>
    case Actual(e, rest) =>
      TailPlaces(G, e, nt, NotTail(f), v);
      TailPlacesArgs(G, rest, nt, arity, f, Meaning(G, e, nt, NotTail(f), v).v);
  }

  lemma {:induction false} TailPlacesDotted(G: Globals, args: Actuals, nt: seq<L.Level>, nargs: nat, arity: nat, f: Flags, v: nat)
    ensures TailArgs(MeaningDotted(G, args, nt, nargs, arity, f, v).args)
    decreases args, 2
  {
    hide Meaning, TailOK, IsTail, NotTail;
    TailFlags(f);
    match args
    case NoMore =>
    case Actual(e, rest) =>
      TailPlaces(G, e, nt, NotTail(f), v);
      TailPlacesDotted(G, rest, nt, nargs, arity, f, Meaning(G, e, nt, NotTail(f), v).v);
  }
}
