/**
  What expressions mean, said of the expressions themselves: variables are looked up by name in an environment,
  and a function value runs the function that was written.  There are no addresses, no I-code and no tail calls
  here.  An activation has slots for its parameters and, after them, for the locals in scope.
 */
module Source {

  import opened Options
  import opened Machine
  import opened Meaning
  import opened ArgumentFrames
  import L = Lexical
  import opened E = Evaluate

  // Environments

  /** The names that came into scope together, and the activation that holds their values. */
  datatype Rib =
    | Params(at: Link, names: seq<L.Name>)
    | OneLocal(at: Link, name: L.Name, j: nat)
    | Binds(name: L.Name, environ: bool, si: nat)

  type Ribs = seq<Rib>

  datatype Place = Cell(at: Link, j: nat) | Dyn(environ: bool, si: nat) | Ordinary(si: nat) | Outside

  /** The last parameter of a name. */
  function LastIndex(names: seq<L.Name>, name: L.Name): (r: Option<nat>)
    decreases |names|
  {
    if names == [] then None
    else if names[|names| - 1] == name then Some(|names| - 1)
    else LastIndex(names[..|names| - 1], name)
  }

  function PlaceIn(rib: Rib, name: L.Name): (r: Option<Place>) {
    match rib
    case Params(at, names) =>
      (match LastIndex(names, name)
       case None => None
       case Some(j) => Some(Cell(at, j)))
    case OneLocal(at, n, j) => if n == name then Some(Cell(at, j)) else None
    case Binds(n, environ, si) => if n == name then Some(Dyn(environ, si)) else None
  }

  /** Where the innermost binding of a name is. */
  function Where(env: Ribs, name: L.Name): (p: Place)
    decreases |env|
  {
    if env == [] then Outside
    else
      match PlaceIn(env[0], name)
      case Some(p) => p
      case None => Where(env[1..], name)
  }

  predicate InFunction(env: Ribs) {
    exists k :: 0 <= k < |env| && env[k].Params?
  }

  /** The slot after the parameters and the locals in scope. */
  function NextSlot(env: Ribs): (j: nat)
    decreases |env|
  {
    if env == [] then 0
    else
      match env[0]
      case Params(_, names) => |names|
      case OneLocal(_, _, _) => 1 + NextSlot(env[1..])
      case Binds(_, _, _) => NextSlot(env[1..])
  }

  /** As many slots as there are names in scope in this activation. */
  function Room(env: Ribs): (n: nat)
    decreases |env|
  {
    if env == [] then 0
    else
      match env[0]
      case Params(_, names) => |names|
      case _ => 1 + Room(env[1..])
  }

  // Functions

  /** A function as it is written, the names in scope there, and the number of its first inner function. */
  datatype Def = Def(dotted: bool, names: seq<L.Name>, body: Exprs, scope: seq<L.Level>, v: nat)

  /** Labels are given by the numbers of functions; the host's primitives come along. */
  datatype Library = Library(G: Globals, labels: map<nat, nat>, defs: map<nat, Def>, prim: (nat, seq<Value>) -> Option<Value>)

  /** The environment of the names in scope, from an activation on; None when an activation is missing. */
  function RibsOf(scope: seq<L.Level>, frames: seq<Frame>, f: Link): (r: Option<Ribs>)
    decreases |scope|
  {
    if scope == [] then Some([])
    else if scope[0] != [] && scope[0][0].sort == L.Param then
      if f.Frm? && f.a < |frames| then Onto(Params(f, L.LevelNames(scope[0])), RibsOf(scope[1..], frames, frames[f.a].next)) else None
    else if scope[0] != [] && scope[0][0].sort == L.Local then
      Onto(OneLocal(f, scope[0][0].name, scope[0][0].index), RibsOf(scope[1..], frames, f))
    else if scope[0] != [] then
      Onto(Binds(scope[0][0].name, scope[0][0].sort == L.Environ, scope[0][0].index), RibsOf(scope[1..], frames, f))
    else None
  }

  function Onto(rib: Rib, rest: Option<Ribs>): (r: Option<Ribs>) {
    match rest
    case None => None
    case Some(env) => Some([rib] + env)
  }

  /** How many functions are written in an expression. */
  function FnCount(e: Expr): nat {
    match e
    case Assign(_, e1) => FnCount(e1)
    case AssignPlace(call) => FnCount(call)
    case If(e1, e2, e3) => FnCount(e1) + FnCount(e2) + FnCount(e3)
    case Block(es) => FnCounts(es)
    case Connective(_, es) => FnCounts(es)
    case NotExpr(e1) => FnCount(e1)
    case Function(_, _, body) => FnCounts(body) + 1
    case Application(fe, args) => FnCount(fe) + FnCountArgs(args)
    case Closed(_, _, body, args) => FnCountArgs(args) + FnCounts(body)
    case LocalIn(_, e1, body) => FnCount(e1) + FnCounts(body)
    case PrimitiveOf1(_, e1) => FnCount(e1)
    case PrimitiveOf2(_, e1, e2) => FnCount(e1) + FnCount(e2)
    case ScopedIn(_, _, _, e1, body) => FnCount(e1) + FnCounts(body)
    case TrapIn(_, handler, body) => FnCount(handler) + FnCounts(body)
    case _ => 0
  }

  function FnCounts(es: Exprs): nat {
    match es
    case Last(e) => FnCount(e)
    case Then(e, rest) => FnCount(e) + FnCounts(rest)
  }

  function FnCountArgs(args: Actuals): nat {
    match args
    case NoMore => 0
    case Actual(e, rest) => FnCount(e) + FnCountArgs(rest)
  }

  // Meaning

  /** The outcome of an expression: its value, the store, the bindings in force, and whether those were left alone; or why it has none. */
  datatype Result = Had(v: Value, st: Store, d: Scope, kept: bool) | Nothing(why: Reason, kept: bool)

  datatype Results = Had(vs: seq<Value>, st: Store, d: Scope, kept: bool) | Nothing(why: Reason, kept: bool)

  function Left(o: Outcome, d: Scope): (r: Result) {
    match o
    case Stuck(w) => Result.Nothing(w, true)
    case Done(v, st) => Result.Had(v, st, d, true)
  }

  /** What comes after something that left the bindings alone or not. */
  function After(kept: bool, r: Result): (q: Result) {
    r.(kept := kept && r.kept)
  }

  /** The binding is gone. */
  function Unbound(r: Result): (q: Result) {
    if r.Nothing? then r else if r.d.Bind? then r.(d := r.d.rest) else Result.Nothing(Foreign, r.kept)
  }

  /** Where a name is, inside or outside all functions. */
  function PlaceOf(S: Library, env: Ribs, name: L.Name): (p: Place) {
    match Where(env, name)
    case Outside =>
      (match S.G(name)
       case Toplevel(si) => Ordinary(si)
       case DynamicOf(si) => Dyn(false, si)
       case EnvironOf(si) => Dyn(true, si))
    case p => p
  }

  /** The name is a dynamic or environment variable that has a binding in force. */
  predicate InForce(S: Library, env: Ribs, name: L.Name, d: Scope) {
    var p := PlaceOf(S, env, name);
    p.Dyn? && Lookup(d, p.environ, p.si).Some?
  }

  function Get(S: Library, env: Ribs, name: L.Name, d: Scope, st: Store): (o: Outcome) {
    match PlaceOf(S, env, name)
    case Cell(at, j) => Yields(Fetch(st.frames, at, 0, j), st)
    case Dyn(environ, si) =>
      (match Lookup(d, environ, si)
       case Some(v) => Done(v, st)
       case None => Yields(ValueOf(st.values, si), st))
    case Ordinary(si) => Yields(ValueOf(st.values, si), st)
    case Outside => Stuck(Fault)
  }

  /** The nearest binding of a variable changed. */
  function Rebound(d: Scope, environ: bool, si: nat, v: Value): (r: Scope) {
    match d
    case NoScope => NoScope
    case Bind(e, x, w, rest) => if e == environ && x == si then Bind(e, x, v, rest) else Bind(e, x, w, Rebound(rest, environ, si, v))
  }

  /** Assigning changes what the name is bound to: for a variable with a binding in force, that binding. */
  function Put(S: Library, env: Ribs, name: L.Name, v: Value, d: Scope, st: Store): (r: Result) {
    match PlaceOf(S, env, name)
    case Cell(at, j) => Left(Changes(v, Update(st, at, 0, j, v)), d)
    case Dyn(environ, si) =>
      if Lookup(d, environ, si).Some? then Result.Had(v, st, Rebound(d, environ, si, v), false) else Left(PutValue(S, si, v, st), d)
    case Ordinary(si) => Left(PutValue(S, si, v, st), d)
    case Outside => Result.Nothing(Fault, true)
  }

  /** A function's own number is not a variable. */
  function PutValue(S: Library, si: nat, v: Value, st: Store): (o: Outcome) {
    if si in S.labels then Stuck(Foreign) else Done(v, st.(values := st.values[si := v]))
  }

  /** The names of the slots a call fills: one more, without a name, for a fixed number of parameters. */
  function Slots(dotted: bool, names: seq<L.Name>): seq<L.Name> {
    if dotted then names else names + [L.Unnamed]
  }

  /** The frame a let makes of its values. */
  function LetFrame(dotted: bool, names: seq<L.Name>, vs: seq<Value>): Frame {
    var k := FixedCount(dotted, names);
    if dotted && k <= |vs| then Frame(vs[..k] + [ListOf(vs[k..])], k, NoFrame) else Frame(vs + [NIL], |vs|, NoFrame)
  }

  /** The entry is that of the function as it is written here, and its names in scope are those of this environment. */
  predicate Holds(S: Library, entry: nat, dotted: bool, names: seq<L.Name>, body: Exprs, v: nat, env: Ribs, f: Link, st: Store) {
    && entry in S.defs
    && var def := S.defs[entry];
       def == Def(dotted, names, body, def.scope, v) && RibsOf(def.scope, st.frames, f) == Some(env)
  }

  /** The value of e in activation f with the environment env; its functions are numbered from v. */
  function SEval(S: Library, e: Expr, env: Ribs, f: Link, v: nat, d: Scope, st: Store, fuel: nat): (o: Result)
    decreases fuel, e, 1
  {
    SRule(S, e, env, f, v, d, st, fuel)
  }

  lemma SByRule(S: Library, e: Expr, env: Ribs, f: Link, v: nat, d: Scope, st: Store, fuel: nat)
    ensures SEval(S, e, env, f, v, d, st, fuel) == SRule(S, e, env, f, v, d, st, fuel)
  {
    hide SRule;
  }

  function SRule(S: Library, e: Expr, env: Ribs, f: Link, v: nat, d: Scope, st: Store, fuel: nat): (o: Result)
    decreases fuel, e, 0
  {
    match e
    case Literal(c) => Result.Had(c, st, d, true)
    case Variable(name) => Left(Get(S, env, name, d, st), d)
    case Assign(name, e1) =>
      (match SEval(S, e1, env, f, v, d, st, fuel)
       case Nothing(w, k) => Result.Nothing(w, k)
       case Had(x, s1, d1, k) => After(k, Put(S, env, name, x, d1, s1)))
    case AssignPlace(call) => SEval(S, call, env, f, v, d, st, fuel)
    case If(e1, e2, e3) =>
      (match SEval(S, e1, env, f, v, d, st, fuel)
       case Nothing(w, k) => Result.Nothing(w, k)
       case Had(x, s1, d1, k) =>
         if x != FALSE then After(k, SEval(S, e2, env, f, v + FnCount(e1), d1, s1, fuel))
         else After(k, SEval(S, e3, env, f, v + FnCount(e1) + FnCount(e2), d1, s1, fuel)))
    case Block(es) => SEach(S, es, env, f, v, d, st, fuel)
    case Connective(conj, es) => SJunction(S, conj, es, env, f, v, d, st, fuel)
    case NotExpr(e1) =>
      (match SEval(S, e1, env, f, v, d, st, fuel)
       case Nothing(w, k) => Result.Nothing(w, k)
       case Had(x, s1, d1, k) => Result.Had(Truth(x == FALSE), s1, d1, k))
    case Function(dotted, names, body) =>
      var n := v + FnCounts(body);
      if n in S.labels && Holds(S, S.labels[n], dotted, names, body, v, env, f, st) then Result.Had(Closure(S.labels[n], f), st, d, true)
      else Result.Nothing(Foreign, true)
    case Application(fe, args) =>
      (match SEval(S, fe, env, f, v, d, st, fuel)
       case Nothing(w, k) => Result.Nothing(w, k)
       case Had(x, s1, d1, k1) =>
         match SList(S, args, env, f, v + FnCount(fe), d1, s1, fuel)
         case Nothing(w, k2) => Result.Nothing(w, k1 && k2)
         case Had(vs, s2, d2, k2) =>
           if fuel == 0 then Result.Nothing(Deep, k1 && k2)
           else After(k1 && k2, SApply(S, x, |s2.frames|, d2, WithFrame(s2, Frame(vs + [NIL], |vs|, NoFrame)), fuel - 1)))
    case Closed(dotted, names, body, args) =>
      (match SList(S, args, env, f, v, d, st, fuel)
       case Nothing(w, k) => Result.Nothing(w, k)
       case Had(vs, s1, d1, k) =>
         var a := |s1.frames|;
         var s2 := WithFrame(s1, LetFrame(dotted, names, vs).(next := f));
         After(k, SEach(S, body, [Params(Frm(a), Slots(dotted, names))] + env, Frm(a), v + FnCountArgs(args), d1, s2, fuel)))
    case LocalIn(name, e1, body) =>
      (match SEval(S, e1, env, f, v, d, st, fuel)
       case Nothing(w, k) => Result.Nothing(w, k)
       case Had(x, s1, d1, k) =>
         if !InFunction(env) then Result.Nothing(Foreign, k)
         else
           var j := NextSlot(env);
           var inner := [OneLocal(f, name, j)] + env;
           match Extend(s1, f, Room(inner))
           case None => Result.Nothing(Fault, k)
           case Some(s2) =>
             match Update(s2, f, 0, j, x)
             case None => Result.Nothing(Fault, k)
             case Some(s3) => After(k, SEach(S, body, inner, f, v + FnCount(e1), d1, s3, fuel)))
    case PrimitiveOf0(pd) => Left(Yields(Host(S.prim, pd, []), st), d)
    case PrimitiveOf1(pd, e1) =>
      (match SEval(S, e1, env, f, v, d, st, fuel)
       case Nothing(w, k) => Result.Nothing(w, k)
       case Had(x, s1, d1, k) => After(k, Left(Yields(Host(S.prim, pd, [x]), s1), d1)))
    case PrimitiveOf2(pd, e1, e2) =>
      (match SEval(S, e1, env, f, v, d, st, fuel)
       case Nothing(w, k) => Result.Nothing(w, k)
       case Had(x, s1, d1, k1) =>
         match SEval(S, e2, env, f, v + FnCount(e1), d1, s1, fuel)
         case Nothing(w, k2) => Result.Nothing(w, k1 && k2)
         case Had(y, s2, d2, k2) => After(k1 && k2, Left(Yields(Host(S.prim, pd, [x, y]), s2), d2)))
    case ScopedIn(environ, name, si, e1, body) =>
      (match SEval(S, e1, env, f, v, d, st, fuel)
       case Nothing(w, k) => Result.Nothing(w, k)
       case Had(x, s1, d1, k) =>
         After(k, Unbound(SEach(S, body, [Binds(name, environ, si)] + env, f, v + FnCount(e1), Bind(environ, si, x, d1), s1, fuel))))
    case TrapIn(sis, handler, body) =>
      (match SEval(S, handler, env, f, v, d, st, fuel)
       case Nothing(w, k) => Result.Nothing(w, k)
       case Had(x, s1, d1, k) =>
         if sis != [] && !x.Closure? && !x.Primitive? then Result.Nothing(Fault, k)
         else After(k, SEach(S, body, env, f, v + FnCount(handler), d1, s1, fuel)))
  }

  function SEach(S: Library, es: Exprs, env: Ribs, f: Link, v: nat, d: Scope, st: Store, fuel: nat): (o: Result)
    decreases fuel, es, 0
  {
    match es
    case Last(e) => SEval(S, e, env, f, v, d, st, fuel)
    case Then(e, rest) =>
      match SEval(S, e, env, f, v, d, st, fuel)
      case Nothing(w, k) => Result.Nothing(w, k)
      case Had(_, s1, d1, k) => After(k, SEach(S, rest, env, f, v + FnCount(e), d1, s1, fuel))
  }

  function SJunction(S: Library, conj: bool, es: Exprs, env: Ribs, f: Link, v: nat, d: Scope, st: Store, fuel: nat): (o: Result)
    decreases fuel, es, 0
  {
    match es
    case Last(e) => SEval(S, e, env, f, v, d, st, fuel)
    case Then(e, rest) =>
      match SEval(S, e, env, f, v, d, st, fuel)
      case Nothing(w, k) => Result.Nothing(w, k)
      case Had(x, s1, d1, k) =>
        if conj == (x == FALSE) then Result.Had(x, s1, d1, k) else After(k, SJunction(S, conj, rest, env, f, v + FnCount(e), d1, s1, fuel))
  }

  /** The values of arguments, left to right. */
  function SList(S: Library, args: Actuals, env: Ribs, f: Link, v: nat, d: Scope, st: Store, fuel: nat): (r: Results)
    ensures r.Had? ==> |r.vs| == ActualCount(args)
    decreases fuel, args, 0
  {
    match args
    case NoMore => Results.Had([], st, d, true)
    case Actual(e, rest) =>
      match SEval(S, e, env, f, v, d, st, fuel)
      case Nothing(w, k) => Results.Nothing(w, k)
      case Had(x, s1, d1, k1) =>
        match SList(S, rest, env, f, v + FnCount(e), d1, s1, fuel)
        case Nothing(w, k2) => Results.Nothing(w, k1 && k2)
        case Had(vs, s2, d2, k2) => Results.Had([x] + vs, s2, d2, k1 && k2)
  }

  /** A call's frame as the function wants it. */
  function Taken(def: Def, a: nat, st: Store): (r: Option<Store>) {
    var k := FixedCount(def.dotted, def.names);
    match Supplied(st, FrameRef(a))
    case None => None
    case Some(n) =>
      if def.dotted then (if n >= k + 1 then Pack(st, FrameRef(a), k) else None)
      else if n == k + 1 then Some(st) else None
  }

  function SApply(S: Library, x: Value, a: nat, d: Scope, st: Store, fuel: nat): (o: Result)
    decreases fuel, S.defs, 3
  {
    match x
    case Closure(entry, g) =>
      if entry !in S.defs then Result.Nothing(Foreign, true)
      else
        var def := S.defs[entry];
        (match Taken(def, a, st)
         case None => Result.Nothing(Fault, true)
         case Some(s1) =>
           if fuel == 0 then Result.Nothing(Deep, true)
           else
             match LinkTo(s1, FrameRef(a), g)
             case None => Result.Nothing(Fault, true)
             case Some(s2) =>
               match RibsOf(def.scope, s2.frames, g)
               case None => Result.Nothing(Foreign, true)
               case Some(env) => SEach(S, def.body, [Params(Frm(a), Slots(def.dotted, def.names))] + env, Frm(a), def.v, d, s2, fuel - 1))
    case Primitive(p) => Left(Yields(CallPrimitive(S.prim, st, p, FrameRef(a)), st), d)
    case _ => Result.Nothing(Fault, true)
  }

  // All the functions written in an expression, inner ones first

  function DefsOf(e: Expr, scope: seq<L.Level>, v: nat): seq<Def> {
    match e
    case Assign(_, e1) => DefsOf(e1, scope, v)
    case AssignPlace(call) => DefsOf(call, scope, v)
    case If(e1, e2, e3) =>
      DefsOf(e1, scope, v) + (DefsOf(e2, scope, v + FnCount(e1)) + DefsOf(e3, scope, v + FnCount(e1) + FnCount(e2)))
    case Block(es) => DefsEach(es, scope, v)
    case Connective(_, es) => DefsEach(es, scope, v)
    case NotExpr(e1) => DefsOf(e1, scope, v)
    case Function(dotted, names, body) => DefsEach(body, ParamTree(dotted, names, scope), v) + [Def(dotted, names, body, scope, v)]
    case Application(fe, args) => DefsOf(fe, scope, v) + DefsArgs(args, scope, v + FnCount(fe))
    case Closed(dotted, names, body, args) =>
      DefsArgs(args, scope, v) + DefsEach(body, ParamTree(dotted, names, scope), v + FnCountArgs(args))
    case LocalIn(name, e1, body) => DefsOf(e1, scope, v) + DefsEach(body, LocalTree(name, scope), v + FnCount(e1))
    case PrimitiveOf1(_, e1) => DefsOf(e1, scope, v)
    case PrimitiveOf2(_, e1, e2) => DefsOf(e1, scope, v) + DefsOf(e2, scope, v + FnCount(e1))
    case ScopedIn(environ, name, si, e1, body) =>
      DefsOf(e1, scope, v) + DefsEach(body, L.ExtendScoped(scope, name, if environ then L.Environ else L.Dynamic, si), v + FnCount(e1))
    case TrapIn(_, handler, body) => DefsOf(handler, scope, v) + DefsEach(body, scope, v + FnCount(handler))
    case _ => []
  }

  function DefsEach(es: Exprs, scope: seq<L.Level>, v: nat): seq<Def> {
    match es
    case Last(e) => DefsOf(e, scope, v)
    case Then(e, rest) => DefsOf(e, scope, v) + DefsEach(rest, scope, v + FnCount(e))
  }

  function DefsArgs(args: Actuals, scope: seq<L.Level>, v: nat): seq<Def> {
    match args
    case NoMore => []
    case Actual(e, rest) => DefsOf(e, scope, v) + DefsArgs(rest, scope, v + FnCount(e))
  }

  /** A function's own number comes after those of the functions inside it. */
  function DefNumber(def: Def): nat { def.v + FnCounts(def.body) }

  /** The definition's number leads to the definition. */
  predicate Leads(S: Library, number: nat, def: Def) {
    number in S.labels && S.labels[number] in S.defs && S.defs[S.labels[number]] == def
  }

  // Assignments that cannot meet a binding in force

  /** No dynamic or environment variable is assigned in the expression, which stands in the scope given. */
  predicate Calm(G: Globals, e: Expr, scope: seq<L.Level>) {
    match e
    case Assign(name, e1) => !ScopedName(G, name, scope) && Calm(G, e1, scope)
    case AssignPlace(call) => Calm(G, call, scope)
    case If(e1, e2, e3) => Calm(G, e1, scope) && Calm(G, e2, scope) && Calm(G, e3, scope)
    case Block(es) => CalmEach(G, es, scope)
    case Connective(_, es) => CalmEach(G, es, scope)
    case NotExpr(e1) => Calm(G, e1, scope)
    case Function(dotted, names, body) => CalmEach(G, body, ParamTree(dotted, names, scope))
    case Application(fe, args) => Calm(G, fe, scope) && CalmArgs(G, args, scope)
    case Closed(dotted, names, body, args) => CalmEach(G, body, ParamTree(dotted, names, scope)) && CalmArgs(G, args, scope)
    case LocalIn(name, e1, body) => Calm(G, e1, scope) && CalmEach(G, body, LocalTree(name, scope))
    case PrimitiveOf1(_, e1) => Calm(G, e1, scope)
    case PrimitiveOf2(_, e1, e2) => Calm(G, e1, scope) && Calm(G, e2, scope)
    case ScopedIn(environ, name, si, e1, body) =>
      Calm(G, e1, scope) && CalmEach(G, body, L.ExtendScoped(scope, name, if environ then L.Environ else L.Dynamic, si))
    case TrapIn(_, handler, body) => Calm(G, handler, scope) && CalmEach(G, body, scope)
    case _ => true
  }

  predicate CalmEach(G: Globals, es: Exprs, scope: seq<L.Level>) {
    match es
    case Last(e) => Calm(G, e, scope)
    case Then(e, rest) => Calm(G, e, scope) && CalmEach(G, rest, scope)
  }

  predicate CalmArgs(G: Globals, args: Actuals, scope: seq<L.Level>) {
    match args
    case NoMore => true
    case Actual(e, rest) => Calm(G, e, scope) && CalmArgs(G, rest, scope)
  }

  /** In this scope the name is a dynamic or environment variable. */
  predicate ScopedName(G: Globals, name: L.Name, scope: seq<L.Level>) {
    match L.Lookup(scope, name, 0)
    case Scoped(_, _) => true
    case Global => !G(name).Toplevel?
    case Slot(_, _, _) => false
  }

  predicate CalmDef(G: Globals, def: Def) {
    CalmEach(G, def.body, ParamTree(def.dotted, def.names, def.scope))
  }

  predicate CalmLibrary(S: Library) {
    forall l :: l in S.defs ==> CalmDef(S.G, S.defs[l])
  }
}
