/** Rewritten bodies run as the source says: same values, same effects, every name with the value of its own definition. */
module BodyRuns {

  import opened Options
  import opened BodyRewrite

  /** A name in scope and the values it is bound to; one, or none for a name that was unset. */
  datatype Cell = Cell(b: Bound, vs: seq<int>)

  /** What value expressions do, and what assigning a name that is bound nowhere in the body does. */
  datatype Host = Host(eval: (Value, seq<Cell>, int) -> Option<(int, int)>, assign: (nat, int, int) -> Option<int>)

  /** A value, the cells in scope and the state of the world. */
  datatype Result = Result(v: int, env: seq<Cell>, w: int)

  /** The nearest cell of the name takes the value. */
  function Assign(H: Host, name: nat, v: int, env: seq<Cell>, w: int): (r: Option<Result>)
    ensures r.Some? ==> |r.value.env| == |env|
    decreases |env|
  {
    if env == [] then
      match H.assign(name, v, w)
      case None => None
      case Some(w1) => Some(Result(v, env, w1))
    else if env[0].b.name == name then Some(Result(v, [Cell(env[0].b, [v])] + env[1..], w))
    else
      match Assign(H, name, v, env[1..], w)
      case None => None
      case Some(r) => Some(Result(v, [env[0]] + r.env, r.w))
  }

  /** Evaluating and then assigning. */
  function Store(H: Host, name: nat, x: Value, env: seq<Cell>, w: int): (r: Option<Result>)
    ensures r.Some? ==> |r.value.env| == |env|
  {
    match H.eval(x, env, w)
    case None => None
    case Some((v, w1)) => Assign(H, name, v, env, w1)
  }

  function EvalAll(H: Host, xs: seq<Value>, env: seq<Cell>, w: int): (r: Option<(seq<int>, int)>)
    decreases |xs|
  {
    if xs == [] then Some(([], w))
    else
      match H.eval(xs[0], env, w)
      case None => None
      case Some((v, w1)) =>
        match EvalAll(H, xs[1..], env, w1)
        case None => None
        case Some((vs, w2)) => Some(([v] + vs, w2))
  }

  /** Leaving a scope of k names. */
  function Left(k: nat, r: Option<Result>): (q: Option<Result>) {
    if r.Some? && k <= |r.value.env| then Some(r.value.(env := r.value.env[k..])) else None
  }

  /** Names of a group before any of them has a value. */
  function Empty(names: seq<nat>): (cells: seq<Cell>)
    ensures |cells| == |names|
  {
    seq(|names|, k requires 0 <= k < |names| => Cell(Bound(ByLetrec, names[k]), []))
  }

  // Rewritten bodies

  function Run(H: Host, f: Form, env: seq<Cell>, w: int): (r: Option<Result>)
    decreases f, 0
  {
    match f
    case Plain(x) =>
      (match H.eval(x, env, w)
       case None => None
       case Some((v, w1)) => Some(Result(v, env, w1)))
    case Set(name, x) => Store(H, name, x, env, w)
    case LetOne(local, name, x, body) =>
      (match H.eval(x, env, w)
       case None => None
       case Some((v, w1)) => Left(1, RunAll(H, body, [Cell(Bound(if local then ByLocal else ByLet, name), [v])] + env, v, w1)))
    case LetAll(names, body) => Left(|names|, RunAll(H, body, Empty(names) + env, 0, w))
    case ScopeIn(kind, name, xs, body) =>
      (match EvalAll(H, xs, env, w)
       case None => None
       case Some((vs, w1)) => Left(1, RunAll(H, body, [Cell(Bound(By(kind), name), vs)] + env, 0, w1)))
    case _ => None
  }

  /** One after the other; the value is the last one's. */
  function RunAll(H: Host, fs: seq<Form>, env: seq<Cell>, last: int, w: int): (r: Option<Result>)
    decreases fs, 1
  {
    if fs == [] then Some(Result(last, env, w))
    else
      match Run(H, fs[0], env, w)
      case None => None
      case Some(r) => RunAll(H, fs[1..], r.env, r.v, r.w)
  }

  // The source

  /** The definitions from the i-th up to the k-th: each value, when its turn comes, goes to its own name. */
  function RunDefs(H: Host, fs: seq<Form>, i: nat, k: nat, env: seq<Cell>, last: int, w: int): (r: Option<Result>)
    requires i <= k <= |fs| && forall j :: 0 <= j < k ==> fs[j].Define?
    decreases k - i
  {
    if i == k then Some(Result(last, env, w))
    else
      match Store(H, fs[i].name, Called(fs[i].name, fs[i].v), env, w)
      case None => None
      case Some(r) => RunDefs(H, fs, i + 1, k, r.env, r.v, r.w)
  }

  /** The cells of a group, none of them with a value yet. */
  function Unset(fs: seq<Form>, k: nat): (cells: seq<Cell>)
    requires k <= |fs| && forall j :: 0 <= j < k ==> fs[j].Define?
  {
    seq(k, i requires 0 <= i < k => Cell(Bound(ByLetrec, fs[i].name), []))
  }

  /** An introduction opens a scope that reaches to the end of the body; a group of definitions one scope for all its names. */
  function SourceRun(H: Host, local: bool, fs: seq<Form>, env: seq<Cell>, last: int, w: int): (r: Option<Result>)
    decreases |fs|
  {
    if fs == [] then Some(Result(last, env, w))
    else
      match fs[0]
      case Define(_, _) =>
        var k := Group(fs);
        (match RunDefs(H, fs, 0, k, Unset(fs, k) + env, 0, w)
         case None => None
         case Some(r) => Left(k, SourceRun(H, local, fs[k..], r.env, r.v, r.w)))
      case Introduce(name, x) =>
        (match H.eval(Called(name, x), env, w)
         case None => None
         case Some((v, w1)) => Left(1, SourceRun(H, local, fs[1..], [Cell(Bound(if local then ByLocal else ByLet, name), [v])] + env, v, w1)))
      case Scope(kind, name, xs) =>
        (match EvalAll(H, xs, env, w)
         case None => None
         case Some((vs, w1)) => Left(1, SourceRun(H, local, fs[1..], [Cell(Bound(By(kind), name), vs)] + env, last, w1)))
      case _ =>
        match Run(H, fs[0], env, w)
        case None => None
        case Some(r) => SourceRun(H, local, fs[1..], r.env, r.v, r.w)
  }

  // Both are the same

  lemma {:induction false} RunAppend(H: Host, a: seq<Form>, b: seq<Form>, env: seq<Cell>, last: int, w: int)
    ensures RunAll(H, a + b, env, last, w)
      == var r := RunAll(H, a, env, last, w); if r.Some? then RunAll(H, b, r.value.env, r.value.v, r.value.w) else None
    decreases |a|
  {
    hide Run;
    if a == [] {
      assert a + b == b;
    } else {
      assert (a + b)[1..] == a[1..] + b;
      var r := Run(H, a[0], env, w);
      if r.Some? {
        RunAppend(H, a[1..], b, r.value.env, r.value.v, r.value.w);
      }
    }
  }

  lemma {:induction false} DefsSame(H: Host, fs: seq<Form>, i: nat, k: nat, env: seq<Cell>, last: int, w: int)
    requires i <= k <= |fs| && forall j :: 0 <= j < k ==> fs[j].Define?
    ensures RunAll(H, Sets(fs[..k])[i..], env, last, w) == RunDefs(H, fs, i, k, env, last, w)
    decreases k - i
  {
    hide Store;
    if i < k {
      var sets := Sets(fs[..k]);
      assert sets[i..][1..] == sets[i + 1..];
      var r := Store(H, fs[i].name, Called(fs[i].name, fs[i].v), env, w);
      if r.Some? {
        DefsSame(H, fs, i + 1, k, r.value.env, r.value.v, r.value.w);
      }
    }
  }

  /** One form and the rest. */
  lemma RunOne(H: Host, f: Form, env: seq<Cell>, last: int, w: int)
    ensures RunAll(H, [f], env, last, w) == Run(H, f, env, w)
  {
    hide Run;
    assert [f][1..] == [];
  }

  /** What came before does not matter to the value of a body that has a form. */
  lemma LastForgotten(H: Host, fs: seq<Form>, env: seq<Cell>, last: int, other: int, w: int)
    requires fs != []
    ensures RunAll(H, fs, env, last, w) == RunAll(H, fs, env, other, w)
  {
    hide Run;
  }

  lemma {:induction false} NothingRuns(H: Host, local: bool, fs: seq<Form>, env: seq<Cell>, last: int, w: int)
    requires OnlyIntroduces(fs) && ValueCount(fs) == 0
    ensures SourceRun(H, local, fs, env, last, w) == Some(Result(last, env, w))
    decreases |fs|
  {
    if fs != [] {
      var cells := [Cell(Bound(By(fs[0].kind), fs[0].name), [])] + env;
      NothingRuns(H, local, fs[1..], cells, last, w);
      assert cells[1..] == env;
    }
  }

  /**
    Every body that does not end by introducing a value runs, rewritten, as the source says: its value, its effects in
    order, its failures, and what it assigns outside.
   */
  lemma {:induction false} RunsSame(H: Host, local: bool, fs: seq<Form>, env: seq<Cell>, last: int, w: int)
    requires Flat(fs) && Rewrite(local, fs).Ok? && Lost(fs) == 0
    ensures RunAll(H, Rewrite(local, fs).forms, env, last, w) == SourceRun(H, local, fs, env, last, w)
    decreases |fs|
  {
    hide Run, RunDefs, EvalAll, Left;
    if OnlyIntroduces(fs) {
      IntroductionsVanish(local, fs, []);
      NothingRuns(H, local, fs, env, last, w);
    } else if fs[0].Define? {
      GroupRuns(H, local, fs, env, last, w);
    } else if Proper(fs[0]) {
      var rest := Rewrite(local, fs[1..]).forms;
      assert ([fs[0]] + rest)[1..] == rest;
      var r := Run(H, fs[0], env, w);
      if r.Some? {
        RunsSame(H, local, fs[1..], r.value.env, r.value.v, r.value.w);
      }
    } else {
      IntroductionRuns(H, local, fs, env, last, w);
    }
  }

  lemma {:induction false} IntroductionRuns(H: Host, local: bool, fs: seq<Form>, env: seq<Cell>, last: int, w: int)
    requires Flat(fs) && Rewrite(local, fs).Ok? && Lost(fs) == 0 && !OnlyIntroduces(fs) && (fs[0].Introduce? || fs[0].Scope?)
    ensures RunAll(H, Rewrite(local, fs).forms, env, last, w) == SourceRun(H, local, fs, env, last, w)
    decreases |fs|, 0
  {
    hide RunDefs, EvalAll, Left, RunAll;
    var f, rest := fs[0], Rewrite(local, fs[1..]).forms;
    ScopesKept(local, fs[1..], []);
    MoreThanIntroductions(fs);
    RunOne(H, InLet(local, f, rest)[0], env, last, w);
    if f.Introduce? {
      var x := H.eval(Called(f.name, f.v), env, w);
      if x.Some? {
        RunsSame(H, local, fs[1..], [Cell(Opened(local, f), [x.value.0])] + env, x.value.0, x.value.1);
      }
    } else {
      var x := EvalAll(H, f.vs, env, w);
      if x.Some? {
        var cells := [Cell(Opened(local, f), x.value.0)] + env;
        RunsSame(H, local, fs[1..], cells, last, x.value.1);
        LastForgotten(H, rest, cells, last, 0, x.value.1);
      }
    }
  }

  lemma {:induction false} GroupRuns(H: Host, local: bool, fs: seq<Form>, env: seq<Cell>, last: int, w: int)
    requires Flat(fs) && Rewrite(local, fs).Ok? && Lost(fs) == 0 && fs != [] && fs[0].Define?
    ensures RunAll(H, Rewrite(local, fs).forms, env, last, w) == SourceRun(H, local, fs, env, last, w)
    decreases |fs|, 0
  {
    hide RunDefs, RunAll;
    var k := Group(fs);
    GroupGathered(local, fs, []);
    assert [] + fs[..k] == fs[..k];
    LostAfterGroup(fs, k);
    var rest, names, sets := Rewrite(local, fs[k..]).forms, Names(fs[..k]), Sets(fs[..k]);
    var cells := Unset(fs, k);
    assert Empty(names) == cells && |names| == k;
    assert Rewrite(local, fs).forms == [LetAll(names, sets + rest)];
    assert Run(H, LetAll(names, sets + rest), env, w) == Left(k, RunAll(H, sets + rest, cells + env, 0, w));
    RunOne(H, LetAll(names, sets + rest), env, last, w);
    RunAppend(H, sets, rest, cells + env, 0, w);
    DefsSame(H, fs, 0, k, cells + env, 0, w);
    assert sets[0..] == sets;
    var r := RunDefs(H, fs, 0, k, cells + env, 0, w);
    if r.Some? {
      RunsSame(H, local, fs[k..], r.value.env, r.value.v, r.value.w);
    }
  }

  // What a group defines

  /** The nearest cell of a name. */
  function Look(name: nat, env: seq<Cell>): (r: Option<Cell>)
    decreases |env|
  {
    if env == [] then None else if env[0].b.name == name then Some(env[0]) else Look(name, env[1..])
  }

  lemma {:induction false} AssignLooks(H: Host, name: nat, v: int, env: seq<Cell>, w: int, other: nat)
    requires Look(name, env).Some?
    ensures var r := Assign(H, name, v, env, w);
      && r.Some? && r.value.w == w
      && Look(other, r.value.env) == if other == name then Some(Cell(Look(name, env).value.b, [v])) else Look(other, env)
    decreases |env|
  {
    if env[0].b.name != name {
      AssignLooks(H, name, v, env[1..], w, other);
      var r := Assign(H, name, v, env[1..], w).value;
      assert ([env[0]] + r.env)[1..] == r.env;
    } else {
      assert ([Cell(env[0].b, [v])] + env[1..])[1..] == env[1..];
    }
  }

  /** All names of the definitions from the i-th on are bound. */
  predicate AllBound(fs: seq<Form>, i: nat, k: nat, env: seq<Cell>)
    requires k <= |fs| && forall j :: 0 <= j < k ==> fs[j].Define?
  {
    forall j :: i <= j < k ==> Look(fs[j].name, env).Some?
  }

  /**
    After a group of definitions with different names, each name has the value of its own expression: vs[j] is what
    the j-th had when its turn came.
   */
  lemma {:induction false} GroupDefines(H: Host, fs: seq<Form>, i: nat, k: nat, env: seq<Cell>, last: int, w: int) returns (vs: seq<int>)
    requires i <= k <= |fs| && (forall j :: 0 <= j < k ==> fs[j].Define?) && AllBound(fs, i, k, env)
    requires forall j, l :: i <= j < l < k ==> fs[j].name != fs[l].name
    requires RunDefs(H, fs, i, k, env, last, w).Some?
    ensures |vs| == k - i
    ensures var r := RunDefs(H, fs, i, k, env, last, w).value;
      forall j :: i <= j < k ==> Look(fs[j].name, r.env).Some? && Look(fs[j].name, r.env).value.vs == [vs[j - i]]
    ensures var r := RunDefs(H, fs, i, k, env, last, w).value;
      forall name {:trigger Look(name, env)} :: (forall j :: i <= j < k ==> fs[j].name != name) ==> Look(name, r.env) == Look(name, env)
    ensures i < k ==> H.eval(Called(fs[i].name, fs[i].v), env, w).Some? && vs[0] == H.eval(Called(fs[i].name, fs[i].v), env, w).value.0
    decreases k - i
  {
    vs := [];
    if i < k {
      var name := fs[i].name;
      var x := H.eval(Called(name, fs[i].v), env, w).value;
      var r := Store(H, name, Called(name, fs[i].v), env, w).value;
      forall other
        ensures Look(other, r.env) == if other == name then Some(Cell(Look(name, env).value.b, [x.0])) else Look(other, env)
      {
        AssignLooks(H, name, x.0, env, x.1, other);
      }
      var rest := GroupDefines(H, fs, i + 1, k, r.env, r.v, r.w);
      vs := [x.0] + rest;
      assert forall j :: i + 1 <= j < k ==> fs[j].name != name;
    }
  }
}
