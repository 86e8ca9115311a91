/**
  The cond rewrite: clauses become nested if, let and or, as section 4.2.1 of R7RS has them.
  Expressions may have effects, so what is run, how often and in what order matters.
 */
module Cond {

  import opened Options

  /** A name the user wrote, or one made up by the rewrite. */
  datatype Name = User(id: nat) | Gensym(k: nat)

  datatype Value = False | Void | Other(n: int)

  /** Everything effects can change. */
  type World = seq<int>

  datatype Result = Result(v: Value, w: World)

  /** What the user's own expressions do, and what applying a function does. */
  datatype Host = Host(
    expr: (nat, map<nat, Value>, World) -> Option<Result>,
    apply: (Value, Value, World) -> Option<Result>)

  datatype Expr =
    | Source(id: nat)
    | Variable(name: Name)
    | Nothing
    | If(e1: Expr, e2: Expr, e3: Expr)
    | Or(e1: Expr, e2: Expr)
    | Let(name: Name, e1: Expr, e2: Expr)
    | Apply(e1: Expr, e2: Expr)
    | Begin(ids: seq<nat>)

  /** A clause: the test, and what follows it. */
  datatype Clause =
    | NotPair
    | Else(body: seq<nat>)
    | Arrow(test: nat, receivers: seq<nat>)
    | Test(test: nat)
    | Then(test: nat, body: seq<nat>)

  datatype Outcome = Ok(e: Expr) | ClauseNotPair | ElseNotLast | InvalidArrow

  /** k is the next name to make up. */
  function Rewrite(cs: seq<Clause>, k: nat): (r: Outcome)
    decreases |cs|
  {
    if cs == [] then Ok(Nothing)
    else
      match cs[0]
      case NotPair => ClauseNotPair
      case Else(body) => if |cs| == 1 then Ok(Begin(body)) else ElseNotLast
      case Arrow(test, receivers) =>
        if |receivers| != 1 then InvalidArrow
        else
          (match Rewrite(cs[1..], k + 1)
           case Ok(rest) =>
             var g := Gensym(k);
             Ok(Let(g, Source(test), If(Variable(g), Apply(Source(receivers[0]), Variable(g)), rest)))
           case error => error)
      case Test(test) =>
        (match Rewrite(cs[1..], k + 1)
         case Ok(rest) => Ok(Let(Gensym(k), Source(test), Or(Variable(Gensym(k)), rest)))
         case error => error)
      case Then(test, body) =>
        (match Rewrite(cs[1..], k)
         case Ok(rest) => Ok(If(Source(test), Begin(body), rest))
         case error => error)
  }

  /** The clauses that can be rewritten: pairs, one receiver to an arrow, an else only at the end. */
  predicate Legal(cs: seq<Clause>) {
    forall i :: 0 <= i < |cs| ==> !cs[i].NotPair? && (cs[i].Else? ==> i == |cs| - 1) && (cs[i].Arrow? ==> |cs[i].receivers| == 1)
  }

  lemma {:induction false} RewriteLegal(cs: seq<Clause>, k: nat)
    ensures Rewrite(cs, k).Ok? <==> Legal(cs)
    decreases |cs|
  {
    if cs != [] {
      RewriteLegal(cs[1..], k);
      RewriteLegal(cs[1..], k + 1);
      assert Legal(cs) ==> Legal(cs[1..]) by {
        assert forall i :: 0 <= i < |cs| - 1 ==> cs[1..][i] == cs[i + 1];
      }
      assert forall i :: 1 <= i < |cs| ==> cs[i] == cs[1..][i - 1];
    }
  }

  // Running expressions

  /** The bindings the user's expressions can see: those of names the user wrote. */
  function UserPart(env: map<Name, Value>): (r: map<nat, Value>) {
    map x: Name | x in env && x.User? :: x.id := env[x]
  }

  function RunSource(H: Host, id: nat, env: map<Name, Value>, w: World): (r: Option<Result>) {
    H.expr(id, UserPart(env), w)
  }

  function RunBegin(H: Host, ids: seq<nat>, env: map<Name, Value>, last: Value, w: World): (r: Option<Result>)
    decreases |ids|
  {
    if ids == [] then Some(Result(last, w))
    else
      match RunSource(H, ids[0], env, w)
      case None => None
      case Some(r) => RunBegin(H, ids[1..], env, r.v, r.w)
  }

  function Run(H: Host, e: Expr, env: map<Name, Value>, w: World): (r: Option<Result>)
    decreases e
  {
    match e
    case Source(id) => RunSource(H, id, env, w)
    case Variable(name) => if name in env then Some(Result(env[name], w)) else None
    case Nothing => Some(Result(Void, w))
    case If(e1, e2, e3) =>
      (match Run(H, e1, env, w)
       case None => None
       case Some(r) => if r.v != False then Run(H, e2, env, r.w) else Run(H, e3, env, r.w))
    case Or(e1, e2) =>
      (match Run(H, e1, env, w)
       case None => None
       case Some(r) => if r.v != False then Some(r) else Run(H, e2, env, r.w))
    case Let(name, e1, e2) =>
      (match Run(H, e1, env, w)
       case None => None
       case Some(r) => Run(H, e2, env[name := r.v], r.w))
    case Apply(e1, e2) =>
      (match Run(H, e1, env, w)
       case None => None
       case Some(f) =>
         match Run(H, e2, env, f.w)
         case None => None
         case Some(x) => H.apply(f.v, x.v, x.w))
    case Begin(ids) => RunBegin(H, ids, env, Void, w)
  }

  // What cond means

  /** Tests one by one, each once, up to the first that is true; only that clause goes on. */
  function Cond(H: Host, cs: seq<Clause>, env: map<Name, Value>, w: World): (r: Option<Result>)
    decreases |cs|
  {
    if cs == [] then Some(Result(Void, w))
    else if cs[0].NotPair? then None
    else if cs[0].Else? then RunBegin(H, cs[0].body, env, Void, w)
    else
      match RunSource(H, cs[0].test, env, w)
      case None => None
      case Some(r) =>
        if r.v == False then Cond(H, cs[1..], env, r.w)
        else
          match cs[0]
          case Then(_, body) => RunBegin(H, body, env, Void, r.w)
          case Arrow(_, receivers) =>
            if receivers == [] then None
            else
              (match RunSource(H, receivers[0], env, r.w)
               case None => None
               case Some(f) => H.apply(f.v, r.v, f.w))
          case _ => Some(r)
  }

  /** Binding a made-up name changes nothing the user's expressions can see. */
  lemma NotCaptured(env: map<Name, Value>, k: nat, v: Value)
    ensures UserPart(env[Gensym(k) := v]) == UserPart(env)
  {
    var a, b := UserPart(env[Gensym(k) := v]), UserPart(env);
    forall id ensures id in a <==> id in b {
      if id in b {
        assert User(id) in env[Gensym(k) := v];
      }
    }
    forall id | id in a ensures a[id] == b[id] {
      assert User(id) in env;
    }
  }

  lemma {:induction false} BeginNotCaptured(H: Host, ids: seq<nat>, env: map<Name, Value>, k: nat, v: Value, last: Value, w: World)
    ensures RunBegin(H, ids, env[Gensym(k) := v], last, w) == RunBegin(H, ids, env, last, w)
    decreases |ids|
  {
    NotCaptured(env, k, v);
    if ids != [] {
      match RunSource(H, ids[0], env, w)
      case None =>
      case Some(r) => BeginNotCaptured(H, ids[1..], env, k, v, r.v, r.w);
    }
  }

  /** So cond means the same inside the let that a clause before it was turned into. */
  lemma {:induction false} CondNotCaptured(H: Host, cs: seq<Clause>, env: map<Name, Value>, k: nat, v: Value, w: World)
    ensures Cond(H, cs, env[Gensym(k) := v], w) == Cond(H, cs, env, w)
    decreases |cs|
  {
    NotCaptured(env, k, v);
    if cs != [] && !cs[0].NotPair? {
      if cs[0].Else? {
        BeginNotCaptured(H, cs[0].body, env, k, v, Void, w);
      } else {
        match RunSource(H, cs[0].test, env, w)
        case None =>
        case Some(r) =>
          CondNotCaptured(H, cs[1..], env, k, v, r.w);
          if cs[0].Then? {
            BeginNotCaptured(H, cs[0].body, env, k, v, Void, r.w);
          }
      }
    }
  }

  /** The rewritten expression does what cond means: the same value, the same effects in the same order, the same failures. */
  lemma {:induction false} RewriteMeans(H: Host, cs: seq<Clause>, k: nat, env: map<Name, Value>, w: World)
    requires Legal(cs)
    ensures Rewrite(cs, k).Ok? && Run(H, Rewrite(cs, k).e, env, w) == Cond(H, cs, env, w)
    decreases |cs|
  {
    RewriteLegal(cs, k);
    if cs != [] {
      assert Legal(cs[1..]) by {
        assert forall i :: 0 <= i < |cs| - 1 ==> cs[1..][i] == cs[i + 1];
      }
      if cs[0].Then? {
        match RunSource(H, cs[0].test, env, w)
        case None =>
        case Some(r) => RewriteMeans(H, cs[1..], k, env, r.w);
      } else if cs[0].Arrow? || cs[0].Test? {
        match RunSource(H, cs[0].test, env, w)
        case None =>
        case Some(r) =>
          var env1 := env[Gensym(k) := r.v];
          NotCaptured(env, k, r.v);
          RewriteMeans(H, cs[1..], k + 1, env1, r.w);
          CondNotCaptured(H, cs[1..], env, k, r.v, r.w);
          var g, rest := Variable(Gensym(k)), Rewrite(cs[1..], k + 1).e;
          assert Run(H, g, env1, r.w) == Some(r);
          if cs[0].Arrow? {
            var f := Source(cs[0].receivers[0]);
            assert Run(H, f, env1, r.w) == RunSource(H, cs[0].receivers[0], env, r.w);
            assert Run(H, f, env1, r.w).Some? ==> var s := Run(H, f, env1, r.w).value; Run(H, g, env1, s.w) == Some(Result(r.v, s.w));
            assert Run(H, If(g, Apply(f, g), rest), env1, r.w)
                == if r.v != False then Run(H, Apply(f, g), env1, r.w) else Run(H, rest, env1, r.w);
          } else {
            assert Run(H, Or(g, rest), env1, r.w) == if r.v != False then Some(r) else Run(H, rest, env1, r.w);
          }
      }
    }
  }
}
