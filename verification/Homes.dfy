/**
  Expressions that stay at home: where every function value at hand was written in the library and closed over an
  activation of the right shape, no run of an expression calls anything else.
 */
module Homes {

  import opened Options
  import opened Machine
  import opened Meaning
  import opened ArgumentFrames
  import opened Source
  import opened SourceCorrect
  import L = Lexical
  import opened E = Evaluate

  // Values

  /** Every function in the value was written in the library, and the activation it closes over has its names in scope. */
  predicate Home(S: Library, frames: seq<Frame>, v: Value) {
    match v
    case Closure(entry, env) => entry in S.defs && RibsOf(S.defs[entry].scope, frames, env).Some?
    case Pair(head, tail) => Home(S, frames, head) && Home(S, frames, tail)
    case _ => true
  }

  predicate HomeAll(S: Library, frames: seq<Frame>, vs: seq<Value>) {
    forall i :: 0 <= i < |vs| ==> Home(S, frames, vs[i])
  }

  /** All values in activations, and all values of names. */
  ghost predicate HomeStore(S: Library, st: Store) {
    && (forall a :: 0 <= a < |st.frames| ==> HomeAll(S, st.frames, st.frames[a].args))
    && (forall si :: si in st.values && si !in S.labels ==> Home(S, st.frames, st.values[si]))
  }

  predicate HomeScope(S: Library, frames: seq<Frame>, d: Scope) {
    match d
    case NoScope => true
    case Bind(_, _, v, rest) => Home(S, frames, v) && HomeScope(S, frames, rest)
  }

  function Bindings(d: Scope): (n: nat) {
    match d
    case NoScope => 0
    case Bind(_, _, _, rest) => 1 + Bindings(rest)
  }

  /** No function in the value. */
  predicate Plain(v: Value) {
    match v
    case Closure(_, _) => false
    case Pair(head, tail) => Plain(head) && Plain(tail)
    case _ => true
  }

  // Expressions

  /** The name's index, if it has one, is no function's number. */
  predicate Free(S: Library, name: L.Name, nt: seq<L.Level>) {
    match L.Lookup(nt, name, 0)
    case Slot(_, _, _) => true
    case Scoped(_, si) => si !in S.labels
    case Global => S.G(name).si !in S.labels
  }

  /** Every function is in the library, names have indices of their own, locals stand in functions. */
  predicate Tidy(S: Library, e: Expr, nt: seq<L.Level>, v: nat) {
    match e
    case Literal(c) => Plain(c)
    case Variable(name) => Free(S, name, nt)
    case Assign(name, e1) => Free(S, name, nt) && Tidy(S, e1, nt, v)
    case AssignPlace(call) => Tidy(S, call, nt, v)
    case If(e1, e2, e3) =>
      Tidy(S, e1, nt, v) && Tidy(S, e2, nt, v + FnCount(e1)) && Tidy(S, e3, nt, v + FnCount(e1) + FnCount(e2))
    case Block(es) => TidyEach(S, es, nt, v)
    case Connective(_, es) => TidyEach(S, es, nt, v)
    case NotExpr(e1) => Tidy(S, e1, nt, v)
    case Function(dotted, names, body) => Leads(S, v + FnCounts(body), Def(dotted, names, body, nt, v))
    case Application(fe, args) => Tidy(S, fe, nt, v) && TidyArgs(S, args, nt, v + FnCount(fe))
    case Closed(dotted, names, body, args) =>
      (dotted ==> names != []) && TidyArgs(S, args, nt, v) && TidyEach(S, body, ParamTree(dotted, names, nt), v + FnCountArgs(args))
    case LocalIn(name, e1, body) => L.HasParams(nt) && Tidy(S, e1, nt, v) && TidyEach(S, body, LocalTree(name, nt), v + FnCount(e1))
    case PrimitiveOf0(_) => true
    case PrimitiveOf1(_, e1) => Tidy(S, e1, nt, v)
    case PrimitiveOf2(_, e1, e2) => Tidy(S, e1, nt, v) && Tidy(S, e2, nt, v + FnCount(e1))
    case ScopedIn(environ, name, si, e1, body) =>
      Tidy(S, e1, nt, v) && TidyEach(S, body, L.ExtendScoped(nt, name, if environ then L.Environ else L.Dynamic, si), v + FnCount(e1))
    case TrapIn(_, handler, body) => Tidy(S, handler, nt, v) && TidyEach(S, body, nt, v + FnCount(handler))
  }

  predicate TidyEach(S: Library, es: Exprs, nt: seq<L.Level>, v: nat) {
    match es
    case Last(e) => Tidy(S, e, nt, v)
    case Then(e, rest) => Tidy(S, e, nt, v) && TidyEach(S, rest, nt, v + FnCount(e))
  }

  predicate TidyArgs(S: Library, args: Actuals, nt: seq<L.Level>, v: nat) {
    match args
    case NoMore => true
    case Actual(e, rest) => Tidy(S, e, nt, v) && TidyArgs(S, rest, nt, v + FnCount(e))
  }

  predicate TidyDef(S: Library, def: Def) {
    (def.dotted ==> def.names != []) && L.Grown(def.scope) && TidyEach(S, def.body, ParamTree(def.dotted, def.names, def.scope), def.v)
  }

  /** All functions of the library are tidy, and the host makes no functions of its own. */
  ghost predicate TidyLibrary(S: Library) {
    && (forall entry :: entry in S.defs ==> TidyDef(S, S.defs[entry]))
    && (forall frames, p, vs {:trigger HomeAll(S, frames, vs), S.prim(p, vs)} ::
          HomeAll(S, frames, vs) && S.prim(p, vs).Some? ==> Home(S, frames, S.prim(p, vs).value))
  }

  // Growing stores

  lemma {:induction false} HomeMore(S: Library, frames: seq<Frame>, after: seq<Frame>, v: Value)
    requires Grew(frames, after) && Home(S, frames, v)
    ensures Home(S, after, v)
  {
    hide RibsOf, Grew;
    match v
    case Closure(entry, env) => RibsKept(S.defs[entry].scope, frames, after, env);
    case Pair(head, tail) =>
      HomeMore(S, frames, after, head);
      HomeMore(S, frames, after, tail);
    case _ =>
  }

  lemma HomeAllMore(S: Library, frames: seq<Frame>, after: seq<Frame>, vs: seq<Value>)
    requires Grew(frames, after) && HomeAll(S, frames, vs)
    ensures HomeAll(S, after, vs)
  {
    hide Home, Grew;
    forall i | 0 <= i < |vs|
      ensures Home(S, after, vs[i])
    {
      HomeMore(S, frames, after, vs[i]);
    }
  }

  lemma {:induction false} HomeScopeMore(S: Library, frames: seq<Frame>, after: seq<Frame>, d: Scope)
    requires Grew(frames, after) && HomeScope(S, frames, d)
    ensures HomeScope(S, after, d)
  {
    hide Home, Grew;
    if d.Bind? {
      HomeMore(S, frames, after, d.v);
      HomeScopeMore(S, frames, after, d.rest);
    }
  }

  lemma {:induction false} PlainHome(S: Library, frames: seq<Frame>, v: Value)
    requires Plain(v)
    ensures Home(S, frames, v)
  {
    hide RibsOf;
    if v.Pair? {
      PlainHome(S, frames, v.head);
      PlainHome(S, frames, v.tail);
    }
  }

  /** A store whose frames have grown, one of them with other arguments. */
  lemma HomeGrown(S: Library, st: Store, after: Store, a: nat)
    requires HomeStore(S, st) && Grew(st.frames, after.frames) && after.values == st.values
    requires a < |after.frames| && HomeAll(S, after.frames, after.frames[a].args)
    requires forall b :: 0 <= b < |after.frames| && b != a ==> b < |st.frames| && after.frames[b].args == st.frames[b].args
    ensures HomeStore(S, after)
  {
    hide Home, HomeAll, Grew;
    forall b | 0 <= b < |after.frames|
      ensures HomeAll(S, after.frames, after.frames[b].args)
    {
      var fr := after.frames[b];
      if b != a {
        HomeAllMore(S, st.frames, after.frames, st.frames[b].args);
      }
    }
    forall si | si in after.values && si !in S.labels
      ensures Home(S, after.frames, after.values[si])
    {
      HomeMore(S, st.frames, after.frames, st.values[si]);
    }
  }

  lemma HomeUpdate(S: Library, st: Store, f: Link, d: nat, j: nat, v: Value)
    requires HomeStore(S, st) && Home(S, st.frames, v) && Update(st, f, d, j, v).Some?
    ensures HomeStore(S, Update(st, f, d, j, v).value) && Grew(st.frames, Update(st, f, d, j, v).value.frames)
  {
    hide Home, Up;
    var a, after := Up(st.frames, f, d).a, Update(st, f, d, j, v).value;
    HomeAllMore(S, st.frames, after.frames, st.frames[a].args);
    HomeMore(S, st.frames, after.frames, v);
    HomeGrown(S, st, after, a);
  }

  lemma HomeExtend(S: Library, st: Store, f: Link, size: nat)
    requires HomeStore(S, st) && Extend(st, f, size).Some?
    ensures HomeStore(S, Extend(st, f, size).value) && Grew(st.frames, Extend(st, f, size).value.frames)
  {
    hide Home;
    var after := Extend(st, f, size).value;
    HomeAllMore(S, st.frames, after.frames, st.frames[f.a].args);
    PlainHome(S, after.frames, UNDEF);
    HomeGrown(S, st, after, f.a);
  }

  lemma HomeWithFrame(S: Library, st: Store, fr: Frame)
    requires HomeStore(S, st) && HomeAll(S, st.frames, fr.args)
    ensures HomeStore(S, WithFrame(st, fr)) && Grew(st.frames, WithFrame(st, fr).frames)
  {
    hide Home, HomeAll;
    HomeAllMore(S, st.frames, WithFrame(st, fr).frames, fr.args);
    HomeGrown(S, st, WithFrame(st, fr), |st.frames|);
  }

  lemma {:induction false} HomeList(S: Library, frames: seq<Frame>, vs: seq<Value>)
    requires HomeAll(S, frames, vs)
    ensures Home(S, frames, ListOf(vs))
    decreases |vs|
  {
    hide RibsOf;
    if vs != [] {
      HomeList(S, frames, vs[1..]);
    }
  }

  lemma HomeTaken(S: Library, def: Def, a: nat, st: Store)
    requires HomeStore(S, st) && Taken(def, a, st).Some?
    ensures HomeStore(S, Taken(def, a, st).value) && Grew(st.frames, Taken(def, a, st).value.frames)
  {
    hide Home, ListOf;
    var after := Taken(def, a, st).value;
    if def.dotted {
      var fr, k := st.frames[a], FixedCount(def.dotted, def.names);
      HomeList(S, st.frames, fr.args[k..fr.nparams]);
      HomeMore(S, st.frames, after.frames, ListOf(fr.args[k..fr.nparams]));
      HomeAllMore(S, st.frames, after.frames, fr.args);
      HomeGrown(S, st, after, a);
    }
  }

  // Linking a frame that hangs loose

  lemma {:induction false} RibsLoose(scope: seq<L.Level>, frames: seq<Frame>, after: seq<Frame>, f: Link)
    requires RibsOf(scope, frames, NoFrame).Some?
    ensures RibsOf(scope, after, f).Some?
    decreases |scope|
  {
    if scope != [] {
      RibsLoose(scope[1..], frames, after, f);
    }
  }

  lemma {:induction false} RibsLinked(scope: seq<L.Level>, frames: seq<Frame>, a: nat, g: Link, f: Link)
    requires a < |frames| && frames[a].next == NoFrame && RibsOf(scope, frames, f).Some?
    ensures RibsOf(scope, frames[a := frames[a].(next := g)], f).Some?
    decreases |scope|
  {
    var after := frames[a := frames[a].(next := g)];
    if scope != [] {
      if scope[0][0].sort == L.Param && f.a == a {
        RibsLoose(scope[1..], frames, after, g);
      } else if scope[0][0].sort == L.Param {
        RibsLinked(scope[1..], frames, a, g, frames[f.a].next);
      } else {
        RibsLinked(scope[1..], frames, a, g, f);
      }
    }
  }

  lemma {:induction false} HomeLinked(S: Library, frames: seq<Frame>, a: nat, g: Link, v: Value)
    requires a < |frames| && frames[a].next == NoFrame && Home(S, frames, v)
    ensures Home(S, frames[a := frames[a].(next := g)], v)
  {
    hide RibsOf;
    match v
    case Closure(entry, env) => RibsLinked(S.defs[entry].scope, frames, a, g, env);
    case Pair(head, tail) =>
      HomeLinked(S, frames, a, g, head);
      HomeLinked(S, frames, a, g, tail);
    case _ =>
  }

  lemma {:induction false} HomeScopeLinked(S: Library, frames: seq<Frame>, a: nat, g: Link, d: Scope)
    requires a < |frames| && frames[a].next == NoFrame && HomeScope(S, frames, d)
    ensures HomeScope(S, frames[a := frames[a].(next := g)], d)
  {
    hide Home;
    if d.Bind? {
      HomeLinked(S, frames, a, g, d.v);
      HomeScopeLinked(S, frames, a, g, d.rest);
    }
  }

  lemma HomeStoreLinked(S: Library, st: Store, a: nat, g: Link)
    requires HomeStore(S, st) && a < |st.frames| && st.frames[a].next == NoFrame
    ensures HomeStore(S, st.(frames := st.frames[a := st.frames[a].(next := g)]))
  {
    hide Home;
    var after := st.(frames := st.frames[a := st.frames[a].(next := g)]);
    forall b, i | 0 <= b < |after.frames| && 0 <= i < |after.frames[b].args|
      ensures Home(S, after.frames, after.frames[b].args[i])
    {
      HomeLinked(S, st.frames, a, g, st.frames[b].args[i]);
    }
    forall si | si in after.values && si !in S.labels
      ensures Home(S, after.frames, after.values[si])
    {
      HomeLinked(S, st.frames, a, g, st.values[si]);
    }
  }

  // Runs

  /** All is at home before the run of an expression that stands among the names of nt. */
  ghost predicate Around(S: Library, nt: seq<L.Level>, env: Ribs, f: Link, d: Scope, st: Store) {
    TidyLibrary(S) && L.Grown(nt) && RibsOf(nt, st.frames, f) == Some(env) && HomeStore(S, st) && HomeScope(S, st.frames, d)
  }

  /** And after it. */
  ghost predicate Kept(S: Library, d: Scope, frames: seq<Frame>, r: Result) {
    match r
    case Nothing(why, _) => why != Foreign
    case Had(x, st, d1, _) =>
      && Home(S, st.frames, x) && HomeStore(S, st) && HomeScope(S, st.frames, d1)
      && Bindings(d1) == Bindings(d) && Grew(frames, st.frames)
  }

  lemma AroundAfter(S: Library, nt: seq<L.Level>, env: Ribs, f: Link, d: Scope, st: Store, r: Result)
    requires Around(S, nt, env, f, d, st) && Kept(S, d, st.frames, r) && r.Had?
    ensures Around(S, nt, env, f, r.d, r.st)
  {
    hide RibsOf, HomeStore, HomeScope, TidyLibrary, Home, L.Grown, Grew;
    RibsKept(nt, st.frames, r.st.frames, f);
  }

  lemma KeptAfter(S: Library, d: Scope, frames: seq<Frame>, r: Result, q: Result, k: bool)
    requires Kept(S, d, frames, r) && r.Had? && Kept(S, r.d, r.st.frames, q)
    ensures Kept(S, d, frames, q) && Kept(S, d, frames, After(k, q))
  {
    hide HomeStore, HomeScope, Home;
  }

  lemma KeptSame(S: Library, nt: seq<L.Level>, env: Ribs, f: Link, d: Scope, st: Store, o: Outcome)
    requires Around(S, nt, env, f, d, st)
    requires if o.Stuck? then o.why != Foreign else Home(S, st.frames, o.v) && o.st == st
    ensures Kept(S, d, st.frames, Left(o, d))
  {
    hide RibsOf, HomeStore, HomeScope, TidyLibrary, Home, L.Grown;
  }

  // Variables

  lemma PlaceIs(S: Library, name: L.Name, nt: seq<L.Level>, env: Ribs, frames: seq<Frame>, f: Link)
    requires L.Grown(nt) && RibsOf(nt, frames, f) == Some(env) && Free(S, name, nt)
    ensures match PlaceOf(S, env, name)
      case Cell(_, _) => true
      case Dyn(_, si) => si !in S.labels
      case Ordinary(si) => si !in S.labels
      case Outside => false
  {
    hide RibsOf, Where, L.Lookup, L.Grown;
    WhereIs(nt, frames, f, name);
  }

  lemma {:induction false} HomeLookup(S: Library, frames: seq<Frame>, d: Scope, environ: bool, si: nat)
    requires HomeScope(S, frames, d) && Lookup(d, environ, si).Some?
    ensures Home(S, frames, Lookup(d, environ, si).value)
  {
    hide Home;
    if !(d.environ == environ && d.si == si) {
      HomeLookup(S, frames, d.rest, environ, si);
    }
  }

  lemma HomeFetch(S: Library, st: Store, f: Link, j: nat)
    requires HomeStore(S, st) && Fetch(st.frames, f, 0, j).Some?
    ensures Home(S, st.frames, Fetch(st.frames, f, 0, j).value)
  {
    hide Home;
  }

  lemma GetStays(S: Library, name: L.Name, nt: seq<L.Level>, env: Ribs, f: Link, d: Scope, st: Store)
    requires Around(S, nt, env, f, d, st) && Free(S, name, nt)
    ensures Kept(S, d, st.frames, Left(Get(S, env, name, d, st), d))
  {
    hide RibsOf, HomeScope, TidyLibrary, Home, HomeAll, L.Grown, Free, PlaceOf, Lookup, Fetch, Kept;
    PlaceIs(S, name, nt, env, st.frames, f);
    match PlaceOf(S, env, name) {
      case Cell(at, j) =>
        if Fetch(st.frames, at, 0, j).Some? {
          HomeFetch(S, st, at, j);
        }
      case Dyn(environ, si) =>
        if Lookup(d, environ, si).Some? {
          HomeLookup(S, st.frames, d, environ, si);
        }
      case _ =>
    }
    KeptSame(S, nt, env, f, d, st, Get(S, env, name, d, st));
  }

  lemma {:induction false} HomeRebound(S: Library, frames: seq<Frame>, d: Scope, environ: bool, si: nat, v: Value)
    requires HomeScope(S, frames, d) && Home(S, frames, v)
    ensures HomeScope(S, frames, Rebound(d, environ, si, v)) && Bindings(Rebound(d, environ, si, v)) == Bindings(d)
  {
    hide Home;
    if d.Bind? {
      HomeRebound(S, frames, d.rest, environ, si, v);
    }
  }

  lemma PutStays(S: Library, name: L.Name, x: Value, nt: seq<L.Level>, env: Ribs, f: Link, d: Scope, st: Store)
    requires Around(S, nt, env, f, d, st) && Free(S, name, nt) && Home(S, st.frames, x)
    ensures Kept(S, d, st.frames, Put(S, env, name, x, d, st))
  {
    hide RibsOf, TidyLibrary, Home, HomeAll, L.Grown, Free, PlaceOf, Lookup, Update, HomeScope, Rebound;
    PlaceIs(S, name, nt, env, st.frames, f);
    match PlaceOf(S, env, name)
    case Cell(at, j) =>
      if Update(st, at, 0, j, x).Some? {
        CellStays(S, st, at, j, x, d);
      }
    case Dyn(environ, si) => HomeRebound(S, st.frames, d, environ, si, x);
    case _ =>
  }

  lemma CellStays(S: Library, st: Store, f: Link, j: nat, x: Value, d: Scope)
    requires HomeStore(S, st) && Home(S, st.frames, x) && HomeScope(S, st.frames, d) && Update(st, f, 0, j, x).Some?
    ensures Kept(S, d, st.frames, Left(Done(x, Update(st, f, 0, j, x).value), d))
  {
    hide Home, HomeStore, Update, HomeScope, Grew;
    HomeUpdate(S, st, f, 0, j, x);
    HomeMore(S, st.frames, Update(st, f, 0, j, x).value.frames, x);
    HomeScopeMore(S, st.frames, Update(st, f, 0, j, x).value.frames, d);
  }

  lemma HostStays(S: Library, nt: seq<L.Level>, env: Ribs, f: Link, d: Scope, st: Store, pd: nat, vs: seq<Value>)
    requires Around(S, nt, env, f, d, st) && HomeAll(S, st.frames, vs)
    ensures Kept(S, d, st.frames, Left(Yields(Host(S.prim, pd, vs), st), d))
  {
    hide RibsOf, HomeStore, HomeScope, Home, HomeAll, L.Grown, Tidy, TidyEach, Kept;
    KeptSame(S, nt, env, f, d, st, Yields(Host(S.prim, pd, vs), st));
  }

  // Expressions

  /** Where all is at home, the run of a tidy expression calls nothing from elsewhere and leaves all at home. */
  lemma {:induction false} SStays(S: Library, e: Expr, nt: seq<L.Level>, env: Ribs, f: Link, v: nat, d: Scope, st: Store, fuel: nat)
    requires Around(S, nt, env, f, d, st) && Tidy(S, e, nt, v)
    ensures Kept(S, d, st.frames, SEval(S, e, env, f, v, d, st, fuel))
    decreases fuel, e, 3
  {
    hide SEval, SEach, SJunction, SList, SApply, Get, Put, Around, Kept, Tidy, Host;
    SByRule(S, e, env, f, v, d, st, fuel);
    if e.If? || e.Application? || e.Closed? || e.LocalIn? || e.PrimitiveOf2? || e.ScopedIn? || e.TrapIn? {
      LargeStays(S, e, nt, env, f, v, d, st, fuel);
    } else if e.Literal? || e.Variable? || e.Function? || e.PrimitiveOf0? {
      LeafStays(S, e, nt, env, f, v, d, st, fuel);
    } else {
      UnaryStays(S, e, nt, env, f, v, d, st, fuel);
    }
  }

  lemma LeafStays(S: Library, e: Expr, nt: seq<L.Level>, env: Ribs, f: Link, v: nat, d: Scope, st: Store, fuel: nat)
    requires e.Literal? || e.Variable? || e.Function? || e.PrimitiveOf0?
    requires Around(S, nt, env, f, d, st) && Tidy(S, e, nt, v)
    ensures Kept(S, d, st.frames, SRule(S, e, env, f, v, d, st, fuel))
  {
    hide SEval, SEach, SJunction, SList, SApply, Get, Put, Around, Kept, Host, RibsOf;
    match e
    case Literal(c) =>
      PlainHome(S, st.frames, c);
      KeptSame(S, nt, env, f, d, st, Done(c, st));
    case Variable(name) => GetStays(S, name, nt, env, f, d, st);
    case Function(_, _, body) => FunctionStays(S, e, nt, env, f, v, d, st, fuel);
    case PrimitiveOf0(pd) => HostStays(S, nt, env, f, d, st, pd, []);
  }

  lemma FunctionStays(S: Library, e: Expr, nt: seq<L.Level>, env: Ribs, f: Link, v: nat, d: Scope, st: Store, fuel: nat)
    requires e.Function? && Around(S, nt, env, f, d, st) && Tidy(S, e, nt, v)
    ensures Kept(S, d, st.frames, SRule(S, e, env, f, v, d, st, fuel))
  {
    hide SEval, HomeStore, HomeScope, TidyLibrary, RibsOf, L.Grown, Kept;
    KeptSame(S, nt, env, f, d, st, Done(Closure(S.labels[v + FnCounts(e.body)], f), st));
  }

  lemma {:induction false} UnaryStays(S: Library, e: Expr, nt: seq<L.Level>, env: Ribs, f: Link, v: nat, d: Scope, st: Store, fuel: nat)
    requires e.Assign? || e.AssignPlace? || e.NotExpr? || e.PrimitiveOf1? || e.Block? || e.Connective?
    requires Around(S, nt, env, f, d, st) && Tidy(S, e, nt, v)
    ensures Kept(S, d, st.frames, SRule(S, e, env, f, v, d, st, fuel))
    decreases fuel, e, 2
  {
    hide SEval, SEach, SJunction, SList, SApply, Get, Put, Around, Host, Home, HomeStore, HomeScope, Free, Grew;
    match e
    case AssignPlace(call) => SStays(S, call, nt, env, f, v, d, st, fuel);
    case Block(es) => EachStays(S, es, nt, env, f, v, d, st, fuel);
    case Connective(conj, es) => JunctionStays(S, conj, es, nt, env, f, v, d, st, fuel);
    case NotExpr(e1) =>
      SStays(S, e1, nt, env, f, v, d, st, fuel);
      var o := SEval(S, e1, env, f, v, d, st, fuel);
      if o.Had? {
        PlainHome(S, o.st.frames, Truth(o.v == FALSE));
      }
    case _ => OneStays(S, e, nt, env, f, v, d, st, fuel);
  }

  lemma {:induction false} OneStays(S: Library, e: Expr, nt: seq<L.Level>, env: Ribs, f: Link, v: nat, d: Scope, st: Store, fuel: nat)
    requires (e.Assign? || e.PrimitiveOf1?) && Around(S, nt, env, f, d, st) && Tidy(S, e, nt, v)
    ensures Kept(S, d, st.frames, SRule(S, e, env, f, v, d, st, fuel))
    decreases fuel, e, 1
  {
    hide SEval, Get, Put, Around, Host, Home, HomeStore, HomeScope, Free, Grew;
    var e1 := e.e;
    SStays(S, e1, nt, env, f, v, d, st, fuel);
    var o := SEval(S, e1, env, f, v, d, st, fuel);
    if o.Had? {
      AroundAfter(S, nt, env, f, d, st, o);
      if e.Assign? {
        PutStays(S, e.name, o.v, nt, env, f, o.d, o.st);
        KeptAfter(S, d, st.frames, o, Put(S, env, e.name, o.v, o.d, o.st), o.kept);
      } else {
        HostStays(S, nt, env, f, o.d, o.st, e.pd, [o.v]);
        KeptAfter(S, d, st.frames, o, Left(Yields(Host(S.prim, e.pd, [o.v]), o.st), o.d), o.kept);
      }
    }
  }

  lemma {:induction false} EachStays(S: Library, es: Exprs, nt: seq<L.Level>, env: Ribs, f: Link, v: nat, d: Scope, st: Store, fuel: nat)
    requires Around(S, nt, env, f, d, st) && TidyEach(S, es, nt, v)
    ensures Kept(S, d, st.frames, SEach(S, es, env, f, v, d, st, fuel))
    decreases fuel, es, 4
  {
    hide SEval, Around, Home, HomeStore, HomeScope, Tidy, Grew;
    match es
    case Last(e) => SStays(S, e, nt, env, f, v, d, st, fuel);
    case Then(e, rest) =>
      SStays(S, e, nt, env, f, v, d, st, fuel);
      var o := SEval(S, e, env, f, v, d, st, fuel);
      if o.Had? {
        AroundAfter(S, nt, env, f, d, st, o);
        EachStays(S, rest, nt, env, f, v + FnCount(e), o.d, o.st, fuel);
        KeptAfter(S, d, st.frames, o, SEach(S, rest, env, f, v + FnCount(e), o.d, o.st, fuel), o.kept);
      }
  }

  lemma {:induction false} JunctionStays(S: Library, conj: bool, es: Exprs, nt: seq<L.Level>, env: Ribs, f: Link, v: nat, d: Scope, st: Store, fuel: nat)
    requires Around(S, nt, env, f, d, st) && TidyEach(S, es, nt, v)
    ensures Kept(S, d, st.frames, SJunction(S, conj, es, env, f, v, d, st, fuel))
    decreases fuel, es, 4
  {
    hide SEval, Around, Home, HomeStore, HomeScope, Tidy, Grew;
    match es
    case Last(e) => SStays(S, e, nt, env, f, v, d, st, fuel);
    case Then(e, rest) =>
      SStays(S, e, nt, env, f, v, d, st, fuel);
      var o := SEval(S, e, env, f, v, d, st, fuel);
      if o.Had? && conj != (o.v == FALSE) {
        AroundAfter(S, nt, env, f, d, st, o);
        JunctionStays(S, conj, rest, nt, env, f, v + FnCount(e), o.d, o.st, fuel);
        KeptAfter(S, d, st.frames, o, SJunction(S, conj, rest, env, f, v + FnCount(e), o.d, o.st, fuel), o.kept);
      }
  }

  ghost predicate KeptAll(S: Library, d: Scope, frames: seq<Frame>, r: Results) {
    match r
    case Nothing(why, _) => why != Foreign
    case Had(vs, st, d1, _) =>
      && HomeAll(S, st.frames, vs) && HomeStore(S, st) && HomeScope(S, st.frames, d1)
      && Bindings(d1) == Bindings(d) && Grew(frames, st.frames)
  }

  lemma {:induction false} ListStays(S: Library, args: Actuals, nt: seq<L.Level>, env: Ribs, f: Link, v: nat, d: Scope, st: Store, fuel: nat)
    requires Around(S, nt, env, f, d, st) && TidyArgs(S, args, nt, v)
    ensures KeptAll(S, d, st.frames, SList(S, args, env, f, v, d, st, fuel))
    decreases fuel, args, 4
  {
    hide SEval, RibsOf, HomeStore, HomeScope, TidyLibrary, L.Grown, Home, Tidy;
    match args
    case NoMore =>
    case Actual(e, rest) =>
      SStays(S, e, nt, env, f, v, d, st, fuel);
      var o := SEval(S, e, env, f, v, d, st, fuel);
      if o.Had? {
        AroundAfter(S, nt, env, f, d, st, o);
        ListStays(S, rest, nt, env, f, v + FnCount(e), o.d, o.st, fuel);
        var q := SList(S, rest, env, f, v + FnCount(e), o.d, o.st, fuel);
        if q.Had? {
          HomeMore(S, o.st.frames, q.st.frames, o.v);
        }
      }
  }

  lemma {:induction false} LargeStays(S: Library, e: Expr, nt: seq<L.Level>, env: Ribs, f: Link, v: nat, d: Scope, st: Store, fuel: nat)
    requires e.If? || e.Application? || e.Closed? || e.LocalIn? || e.PrimitiveOf2? || e.ScopedIn? || e.TrapIn?
    requires Around(S, nt, env, f, d, st) && Tidy(S, e, nt, v)
    ensures Kept(S, d, st.frames, SRule(S, e, env, f, v, d, st, fuel))
    decreases fuel, e, 2
  {
    hide *;
    match e
    case If(_, _, _) => TwoStay(S, e, nt, env, f, v, d, st, fuel);
    case PrimitiveOf2(_, _, _) => TwoStay(S, e, nt, env, f, v, d, st, fuel);
    case LocalIn(_, _, _) => LocalStays(S, e, nt, env, f, v, d, st, fuel);
    case ScopedIn(_, _, _, _, _) => ScopedStays(S, e, nt, env, f, v, d, st, fuel);
    case TrapIn(_, _, _) => TrapStays(S, e, nt, env, f, v, d, st, fuel);
    case Application(_, _) => CallStays(S, e, nt, env, f, v, d, st, fuel);
    case Closed(_, _, _, _) => ClosedStays(S, e, nt, env, f, v, d, st, fuel);
  }

  lemma {:induction false} TwoStay(S: Library, e: Expr, nt: seq<L.Level>, env: Ribs, f: Link, v: nat, d: Scope, st: Store, fuel: nat)
    requires (e.If? || e.PrimitiveOf2?) && Around(S, nt, env, f, d, st) && Tidy(S, e, nt, v)
    ensures Kept(S, d, st.frames, SRule(S, e, env, f, v, d, st, fuel))
    decreases fuel, e, 1
  {
    hide SEval, Around, Host, Home, HomeStore, HomeScope, Grew;
    SStays(S, e.e1, nt, env, f, v, d, st, fuel);
    var o, v1 := SEval(S, e.e1, env, f, v, d, st, fuel), v + FnCount(e.e1);
    if o.Had? {
      AroundAfter(S, nt, env, f, d, st, o);
      if e.PrimitiveOf2? {
        SStays(S, e.e2, nt, env, f, v1, o.d, o.st, fuel);
        SecondStays(S, e, nt, env, f, v1, d, st.frames, o, SEval(S, e.e2, env, f, v1, o.d, o.st, fuel));
      } else if o.v != FALSE {
        SStays(S, e.e2, nt, env, f, v1, o.d, o.st, fuel);
        KeptAfter(S, d, st.frames, o, SEval(S, e.e2, env, f, v1, o.d, o.st, fuel), o.kept);
      } else {
        SStays(S, e.e3, nt, env, f, v1 + FnCount(e.e2), o.d, o.st, fuel);
        KeptAfter(S, d, st.frames, o, SEval(S, e.e3, env, f, v1 + FnCount(e.e2), o.d, o.st, fuel), o.kept);
      }
    }
  }

  /** A primitive with both its operands. */
  lemma SecondStays(S: Library, e: Expr, nt: seq<L.Level>, env: Ribs, f: Link, v: nat, d: Scope, frames: seq<Frame>, o: Result, q: Result)
    requires e.PrimitiveOf2? && o.Had? && Around(S, nt, env, f, o.d, o.st) && Kept(S, d, frames, o) && Kept(S, o.d, o.st.frames, q)
    ensures Kept(S, d, frames, q)
    ensures q.Had? ==> Kept(S, d, frames, After(o.kept && q.kept, Left(Yields(Host(S.prim, e.pd, [o.v, q.v]), q.st), q.d)))
  {
    hide Around, Host, Home, HomeStore, HomeScope, Grew;
    KeptAfter(S, d, frames, o, q, true);
    if q.Had? {
      AroundAfter(S, nt, env, f, o.d, o.st, q);
      HomeMore(S, o.st.frames, q.st.frames, o.v);
      HostStays(S, nt, env, f, q.d, q.st, e.pd, [o.v, q.v]);
      KeptAfter(S, d, frames, q, Left(Yields(Host(S.prim, e.pd, [o.v, q.v]), q.st), q.d), o.kept && q.kept);
    }
  }

  lemma {:induction false} TrapStays(S: Library, e: Expr, nt: seq<L.Level>, env: Ribs, f: Link, v: nat, d: Scope, st: Store, fuel: nat)
    requires e.TrapIn? && Around(S, nt, env, f, d, st) && Tidy(S, e, nt, v)
    ensures Kept(S, d, st.frames, SRule(S, e, env, f, v, d, st, fuel))
    decreases fuel, e, 1
  {
    hide SEval, SEach, Around, Home, HomeStore, HomeScope, Grew;
    SStays(S, e.handler, nt, env, f, v, d, st, fuel);
    var o, v1 := SEval(S, e.handler, env, f, v, d, st, fuel), v + FnCount(e.handler);
    if o.Had? && (e.sis == [] || o.v.Closure? || o.v.Primitive?) {
      AroundAfter(S, nt, env, f, d, st, o);
      EachStays(S, e.body, nt, env, f, v1, o.d, o.st, fuel);
      KeptAfter(S, d, st.frames, o, SEach(S, e.body, env, f, v1, o.d, o.st, fuel), o.kept);
    }
  }

  lemma {:induction false} ScopedStays(S: Library, e: Expr, nt: seq<L.Level>, env: Ribs, f: Link, v: nat, d: Scope, st: Store, fuel: nat)
    requires e.ScopedIn? && Around(S, nt, env, f, d, st) && Tidy(S, e, nt, v)
    ensures Kept(S, d, st.frames, SRule(S, e, env, f, v, d, st, fuel))
    decreases fuel, e, 1
  {
    hide SEval, SEach, Around, Home, HomeStore, HomeScope, Grew, L.ExtendScoped;
    SStays(S, e.e, nt, env, f, v, d, st, fuel);
    var o, v1 := SEval(S, e.e, env, f, v, d, st, fuel), v + FnCount(e.e);
    if o.Had? {
      AroundAfter(S, nt, env, f, d, st, o);
      var ent, inner, d1 := L.ExtendScoped(nt, e.name, if e.environ then L.Environ else L.Dynamic, e.si), [Binds(e.name, e.environ, e.si)] + env, Bind(e.environ, e.si, o.v, o.d);
      AroundScoped(S, e, nt, env, f, o.d, o.st, o.v);
      EachStays(S, e.body, ent, inner, f, v1, d1, o.st, fuel);
      var q := SEach(S, e.body, inner, f, v1, d1, o.st, fuel);
      KeptUnbound(S, o.d, o.st.frames, d1, q);
      KeptAfter(S, d, st.frames, o, Unbound(q), o.kept);
    }
  }

  lemma AroundScoped(S: Library, e: Expr, nt: seq<L.Level>, env: Ribs, f: Link, d: Scope, st: Store, x: Value)
    requires e.ScopedIn? && Around(S, nt, env, f, d, st) && Home(S, st.frames, x)
    ensures Around(S, L.ExtendScoped(nt, e.name, if e.environ then L.Environ else L.Dynamic, e.si), [Binds(e.name, e.environ, e.si)] + env, f,
                   Bind(e.environ, e.si, x, d), st)
  {
    hide RibsOf, HomeStore, TidyLibrary, Home, L.Grown, L.ExtendScoped;
    RibsScoped(e.environ, e.name, e.si, nt, env, st.frames, f);
  }

  lemma KeptUnbound(S: Library, d: Scope, frames: seq<Frame>, d1: Scope, q: Result)
    requires Kept(S, d1, frames, q) && d1.Bind? && d1.rest == d
    ensures Kept(S, d, frames, Unbound(q))
  {
    hide HomeStore, Home, Grew;
  }

  lemma {:induction false} LocalStays(S: Library, e: Expr, nt: seq<L.Level>, env: Ribs, f: Link, v: nat, d: Scope, st: Store, fuel: nat)
    requires e.LocalIn? && Around(S, nt, env, f, d, st) && Tidy(S, e, nt, v)
    ensures Kept(S, d, st.frames, SRule(S, e, env, f, v, d, st, fuel))
    decreases fuel, e, 1
  {
    hide SEval, SEach, Home, HomeStore, HomeScope, Grew, RibsOf, TidyLibrary, L.Grown, Extend, Update, LocalTree, Room, NextSlot, InFunction, L.HasParams;
    SStays(S, e.e, nt, env, f, v, d, st, fuel);
    var o, v1 := SEval(S, e.e, env, f, v, d, st, fuel), v + FnCount(e.e);
    if o.Had? {
      AroundAfter(S, nt, env, f, d, st, o);
      ParamsThere(nt, o.st.frames, f);
      var j := NextSlot(env);
      var inner := [OneLocal(f, e.name, j)] + env;
      var s2 := Extend(o.st, f, Room(inner));
      if s2.Some? && Update(s2.value, f, 0, j, o.v).Some? {
        var s3 := Update(s2.value, f, 0, j, o.v).value;
        AroundLocal(S, e.name, nt, env, f, o.d, o.st, Room(inner), o.v);
        EachStays(S, e.body, LocalTree(e.name, nt), inner, f, v1, o.d, s3, fuel);
        var q := SEach(S, e.body, inner, f, v1, o.d, s3, fuel);
        KeptGrown(S, o.d, o.st.frames, s3.frames, q);
        KeptAfter(S, d, st.frames, o, q, o.kept);
      }
    }
  }

  /** In a function there is an activation. */
  lemma {:induction false} ParamsThere(nt: seq<L.Level>, frames: seq<Frame>, f: Link)
    requires L.Grown(nt) && L.HasParams(nt) && RibsOf(nt, frames, f).Some?
    ensures InFunction(RibsOf(nt, frames, f).value)
    decreases |nt|
  {
    var env := RibsOf(nt, frames, f).value;
    L.ParamsOrSingle(nt);
    if L.IsParams(nt[0]) {
      assert env[0].Params?;
    } else {
      ParamsThere(nt[1..], frames, f);
      var k :| 0 <= k < |env[1..]| && env[1..][k].Params?;
      assert env[k + 1].Params?;
    }
  }

  lemma AroundLocal(S: Library, name: L.Name, nt: seq<L.Level>, env: Ribs, f: Link, d: Scope, st: Store, size: nat, x: Value)
    requires Around(S, nt, env, f, d, st) && InFunction(env) && Home(S, st.frames, x)
    requires Extend(st, f, size).Some? && Update(Extend(st, f, size).value, f, 0, NextSlot(env), x).Some?
    ensures var s3 := Update(Extend(st, f, size).value, f, 0, NextSlot(env), x).value;
      Around(S, LocalTree(name, nt), [OneLocal(f, name, NextSlot(env))] + env, f, d, s3) && Grew(st.frames, s3.frames)
  {
    hide RibsOf, HomeStore, TidyLibrary, Home, L.Grown, LocalTree, Room, NextSlot, InFunction, HomeScope, Extend, Update, Grew;
    var s2 := Extend(st, f, size).value;
    var s3 := Update(s2, f, 0, NextSlot(env), x).value;
    RibsLocal(name, nt, env, st.frames, f);
    assert Slotted(st, f, size, NextSlot(env), x) == Done(x, s3);
    SlotMade(st, f, size, NextSlot(env), x);
    RibsKept(LocalTree(name, nt), st.frames, s3.frames, f);
    HomeExtend(S, st, f, size);
    HomeMore(S, st.frames, s2.frames, x);
    HomeUpdate(S, s2, f, 0, NextSlot(env), x);
    HomeScopeMore(S, st.frames, s3.frames, d);
  }

  lemma KeptGrown(S: Library, d: Scope, frames: seq<Frame>, more: seq<Frame>, q: Result)
    requires Grew(frames, more) && Kept(S, d, more, q)
    ensures Kept(S, d, frames, q)
  {
    hide HomeStore, Home, HomeScope;
  }

  lemma {:induction false} ClosedStays(S: Library, e: Expr, nt: seq<L.Level>, env: Ribs, f: Link, v: nat, d: Scope, st: Store, fuel: nat)
    requires e.Closed? && Around(S, nt, env, f, d, st) && Tidy(S, e, nt, v)
    ensures Kept(S, d, st.frames, SRule(S, e, env, f, v, d, st, fuel))
    decreases fuel, e, 1
  {
    hide SEval, SEach, SList, Home, HomeStore, HomeScope, HomeAll, RibsOf, TidyLibrary, L.Grown, ParamTree, LetFrame, Slots, Grew;
    ListStays(S, e.args, nt, env, f, v, d, st, fuel);
    var r, v1 := SList(S, e.args, env, f, v, d, st, fuel), v + FnCountArgs(e.args);
    if r.Had? {
      var a := Frm(|r.st.frames|);
      var s2 := WithFrame(r.st, LetFrame(e.dotted, e.names, r.vs).(next := f));
      RibsKept(nt, st.frames, r.st.frames, f);
      AroundClosed(S, e, nt, env, f, r.d, r.st, r.vs);
      EachStays(S, e.body, ParamTree(e.dotted, e.names, nt), [Params(a, Slots(e.dotted, e.names))] + env, a, v1, r.d, s2, fuel);
      var q := SEach(S, e.body, [Params(a, Slots(e.dotted, e.names))] + env, a, v1, r.d, s2, fuel);
      KeptGrown(S, r.d, r.st.frames, s2.frames, q);
      KeptGrown(S, r.d, st.frames, r.st.frames, q);
      KeptScope(S, d, r.d, st.frames, q, r.kept);
    }
  }

  lemma KeptScope(S: Library, d: Scope, d1: Scope, frames: seq<Frame>, q: Result, k: bool)
    requires Kept(S, d1, frames, q) && Bindings(d1) == Bindings(d)
    ensures Kept(S, d, frames, After(k, q))
  {
    hide HomeStore, Home, HomeScope, Grew;
  }

  lemma AroundClosed(S: Library, e: Expr, nt: seq<L.Level>, env: Ribs, f: Link, d: Scope, st: Store, vs: seq<Value>)
    requires e.Closed? && (e.dotted ==> e.names != []) && Around(S, nt, env, f, d, st) && HomeAll(S, st.frames, vs)
    ensures var a := Frm(|st.frames|);
      var s2 := WithFrame(st, LetFrame(e.dotted, e.names, vs).(next := f));
      Around(S, ParamTree(e.dotted, e.names, nt), [Params(a, Slots(e.dotted, e.names))] + env, a, d, s2) && Grew(st.frames, s2.frames)
  {
    hide RibsOf, HomeStore, TidyLibrary, Home, L.Grown, ParamTree, HomeScope, Slots, LetFrame, HomeAll;
    var fr := LetFrame(e.dotted, e.names, vs).(next := f);
    var s2 := WithFrame(st, fr);
    HomeLetFrame(S, st.frames, e.dotted, e.names, vs);
    HomeWithFrame(S, st, fr);
    RibsKept(nt, st.frames, s2.frames, f);
    RibsInside(e.dotted, e.names, nt, env, s2.frames, |st.frames|);
    HomeScopeMore(S, st.frames, s2.frames, d);
  }

  lemma HomeLetFrame(S: Library, frames: seq<Frame>, dotted: bool, names: seq<L.Name>, vs: seq<Value>)
    requires HomeAll(S, frames, vs)
    ensures HomeAll(S, frames, LetFrame(dotted, names, vs).args)
  {
    hide Home, ListOf;
    var k := FixedCount(dotted, names);
    PlainHome(S, frames, NIL);
    if dotted && k <= |vs| {
      HomeList(S, frames, vs[k..]);
    }
  }

  lemma {:induction false} CallStays(S: Library, e: Expr, nt: seq<L.Level>, env: Ribs, f: Link, v: nat, d: Scope, st: Store, fuel: nat)
    requires e.Application? && Around(S, nt, env, f, d, st) && Tidy(S, e, nt, v)
    ensures Kept(S, d, st.frames, SRule(S, e, env, f, v, d, st, fuel))
    decreases fuel, e, 1
  {
    hide SEval, SList, SApply, Home, HomeStore, HomeScope, HomeAll, Around, Grew;
    SStays(S, e.fe, nt, env, f, v, d, st, fuel);
    var o, v1 := SEval(S, e.fe, env, f, v, d, st, fuel), v + FnCount(e.fe);
    if o.Had? {
      AroundAfter(S, nt, env, f, d, st, o);
      ListStays(S, e.args, nt, env, f, v1, o.d, o.st, fuel);
      var q := SList(S, e.args, env, f, v1, o.d, o.st, fuel);
      if q.Had? && fuel > 0 {
        var s2 := WithFrame(q.st, Frame(q.vs + [NIL], |q.vs|, NoFrame));
        ReadyToApply(S, nt, env, f, o, q);
        ApplyStays(S, o.v, |q.st.frames|, q.st.frames, q.d, s2, fuel - 1);
        var r := SApply(S, o.v, |q.st.frames|, q.d, s2, fuel - 1);
        KeptGrown(S, q.d, o.st.frames, q.st.frames, r);
        KeptScope(S, o.d, q.d, o.st.frames, r, q.kept);
        KeptAfter(S, d, st.frames, o, After(q.kept, r), o.kept);
      }
    }
  }

  lemma ReadyToApply(S: Library, nt: seq<L.Level>, env: Ribs, f: Link, o: Result, q: Results)
    requires o.Had? && Around(S, nt, env, f, o.d, o.st) && Home(S, o.st.frames, o.v) && KeptAll(S, o.d, o.st.frames, q) && q.Had?
    ensures var s2 := WithFrame(q.st, Frame(q.vs + [NIL], |q.vs|, NoFrame));
      TidyLibrary(S) && HomeStore(S, s2) && HomeScope(S, s2.frames, q.d) && Home(S, s2.frames, o.v) && Grew(q.st.frames, s2.frames)
  {
    hide RibsOf, HomeStore, TidyLibrary, Home, L.Grown, HomeScope;
    var fr := Frame(q.vs + [NIL], |q.vs|, NoFrame);
    PlainHome(S, q.st.frames, NIL);
    HomeWithFrame(S, q.st, fr);
    HomeScopeMore(S, q.st.frames, WithFrame(q.st, fr).frames, q.d);
    HomeMore(S, o.st.frames, q.st.frames, o.v);
    HomeMore(S, q.st.frames, WithFrame(q.st, fr).frames, o.v);
  }

  /** A function applied to a frame that was not there before and hangs loose. */
  lemma {:induction false} ApplyStays(S: Library, x: Value, a: nat, frames: seq<Frame>, d: Scope, st: Store, fuel: nat)
    requires TidyLibrary(S) && HomeStore(S, st) && HomeScope(S, st.frames, d) && Home(S, st.frames, x)
    requires Grew(frames, st.frames) && |frames| <= a < |st.frames| && st.frames[a].next == NoFrame
    ensures Kept(S, d, frames, SApply(S, x, a, d, st, fuel))
    decreases fuel, S.defs, 5
  {
    hide SEach, HomeStore, HomeScope, RibsOf, TidyDef, HomeAll, Taken, CallPrimitive;
    match x
    case Closure(entry, g) =>
      var def := S.defs[entry];
      if Taken(def, a, st).Some? && fuel > 0 {
        var s1 := Taken(def, a, st).value;
        TakenLoose(def, a, st);
        HomeTaken(S, def, a, st);
        HomeMore(S, st.frames, s1.frames, x);
        HomeScopeMore(S, st.frames, s1.frames, d);
        BodyStays(S, def, g, a, frames, d, s1, fuel - 1);
      }
    case Primitive(p) => PrimitiveStays(S, p, a, frames, d, st);
    case _ =>
  }

  lemma TakenLoose(def: Def, a: nat, st: Store)
    requires a < |st.frames| && Taken(def, a, st).Some?
    ensures var s1 := Taken(def, a, st).value; a < |s1.frames| && s1.frames[a].next == st.frames[a].next
  {
    hide ListOf;
  }

  lemma PrimitiveStays(S: Library, p: nat, a: nat, frames: seq<Frame>, d: Scope, st: Store)
    requires TidyLibrary(S) && HomeStore(S, st) && HomeScope(S, st.frames, d) && Grew(frames, st.frames)
    ensures Kept(S, d, frames, Left(Yields(CallPrimitive(S.prim, st, p, FrameRef(a)), st), d))
  {
    hide Home, HomeScope, TidyDef, Grew;
    if CallPrimitive(S.prim, st, p, FrameRef(a)).Some? {
      var vs := st.frames[a].args[..st.frames[a].nparams];
      assert HomeAll(S, st.frames, vs);
    }
  }

  lemma {:induction false} BodyStays(S: Library, def: Def, g: Link, a: nat, frames: seq<Frame>, d: Scope, st: Store, fuel: nat)
    requires TidyLibrary(S) && TidyDef(S, def) && HomeStore(S, st) && HomeScope(S, st.frames, d) && RibsOf(def.scope, st.frames, g).Some?
    requires Grew(frames, st.frames) && |frames| <= a < |st.frames| && st.frames[a].next == NoFrame
    ensures LinkTo(st, FrameRef(a), g).Some?
    ensures var s2 := LinkTo(st, FrameRef(a), g).value;
      && RibsOf(def.scope, s2.frames, g).Some?
      && Kept(S, d, frames, SEach(S, def.body, [Params(Frm(a), Slots(def.dotted, def.names))] + RibsOf(def.scope, s2.frames, g).value, Frm(a), def.v, d, s2, fuel))
    decreases fuel, def.body, 6
  {
    hide SEach, HomeStore, HomeScope, RibsOf, HomeAll, TidyLibrary, TidyEach, L.Grown, ParamTree, Slots, Home;
    var s2 := LinkTo(st, FrameRef(a), g).value;
    HomeStoreLinked(S, st, a, g);
    HomeScopeLinked(S, st.frames, a, g, d);
    RibsLinked(def.scope, st.frames, a, g, g);
    var env := RibsOf(def.scope, s2.frames, g).value;
    RibsInside(def.dotted, def.names, def.scope, env, s2.frames, a);
    EachStays(S, def.body, ParamTree(def.dotted, def.names, def.scope), [Params(Frm(a), Slots(def.dotted, def.names))] + env, Frm(a), def.v, d, s2, fuel);
    KeptGrown(S, d, frames, s2.frames, SEach(S, def.body, [Params(Frm(a), Slots(def.dotted, def.names))] + env, Frm(a), def.v, d, s2, fuel));
  }
}
