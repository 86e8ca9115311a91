/**
  Bodies.  Variable introductions anywhere in a body are turned into lets that reach to the body's end:
  := and the dynamic and environment forms one by one, :+ and define in groups.
 */
module BodyRewrite {

  import opened Options

  datatype Value = Value(id: nat, fn: Fn)

  /** Whether a value expression is a function, and whether it has a name. */
  datatype Fn = NotFunction | Anonymous | Named(name: nat)

  datatype Kind = EnvironLet | EnvironUnset | DynamicLet | DynamicUnset

  datatype Form =
    | Plain(v: Value)
    | Begin(forms: seq<Form>)
    | Define(name: nat, v: Value)
    | Introduce(name: nat, v: Value)
    | Scope(kind: Kind, name: nat, vs: seq<Value>)
    | DefineTemplate
    | Set(name: nat, v: Value)
    | LetOne(local: bool, name: nat, v: Value, body: seq<Form>)
    | LetAll(names: seq<nat>, body: seq<Form>)
    | ScopeIn(kind: Kind, name: nat, vs: seq<Value>, body: seq<Form>)

  datatype Outcome = Ok(forms: seq<Form>) | EmptyBody | InternalTemplate

  /** Forms the rewriting leaves as they are. */
  predicate Proper(f: Form) {
    f.Plain? || f.Set? || f.LetOne? || f.LetAll? || f.ScopeIn?
  }

  /** An anonymous function takes the name it is bound to. */
  function Naming(name: nat, v: Value): Value {
    if v.fn == Anonymous then v.(fn := Named(name)) else v
  }

  // Sizes, for termination

  function Weight(f: Form): (n: nat)
    ensures n >= 1
  {
    match f
    case Begin(fs) => 1 + Weights(fs)
    case _ => 1
  }

  function Weights(fs: seq<Form>): (n: nat) {
    if fs == [] then 0 else Weight(fs[0]) + Weights(fs[1..])
  }

  lemma {:induction false} WeightsAppend(a: seq<Form>, b: seq<Form>)
    ensures Weights(a + b) == Weights(a) + Weights(b)
    decreases |a|
  {
    if a == [] {
      assert a + b == b;
    } else {
      assert (a + b)[1..] == a[1..] + b;
      WeightsAppend(a[1..], b);
    }
  }

  /** Opening a begin makes the rest of the body lighter. */
  lemma OpenedLighter(fs: seq<Form>)
    requires fs != [] && fs[0].Begin?
    ensures Weights(fs[0].forms + fs[1..]) < Weights(fs)
  {
    WeightsAppend(fs[0].forms, fs[1..]);
  }

  // The result, as a function

  function InLet(local: bool, f: Form, body: seq<Form>): seq<Form>
    requires f.Introduce? || f.Scope?
  {
    if body == [] then []
    else if f.Introduce? then [LetOne(local, f.name, Naming(f.name, f.v), body)]
    else [ScopeIn(f.kind, f.name, f.vs, body)]
  }

  function Rewrite(local: bool, fs: seq<Form>): (r: Outcome)
    decreases Weights(fs), 1
  {
    if fs == [] then Ok([])
    else if fs[0].Begin? then
      OpenedLighter(fs);
      Rewrite(local, fs[0].forms + fs[1..])
    else if fs[0].Define? then RewriteDefs(local, fs, [])
    else if fs[0].DefineTemplate? then InternalTemplate
    else
      match Rewrite(local, fs[1..])
      case Ok(rest) => Ok(if Proper(fs[0]) then [fs[0]] + rest else InLet(local, fs[0], rest))
      case error => error
  }

  function Sets(defs: seq<Form>): seq<Form>
    requires forall k :: 0 <= k < |defs| ==> defs[k].Define?
  {
    seq(|defs|, k requires 0 <= k < |defs| => Set(defs[k].name, Naming(defs[k].name, defs[k].v)))
  }

  function Names(defs: seq<Form>): seq<nat>
    requires forall k :: 0 <= k < |defs| ==> defs[k].Define?
  {
    seq(|defs|, k requires 0 <= k < |defs| => defs[k].name)
  }

  /** With some definitions already gathered. */
  function RewriteDefs(local: bool, fs: seq<Form>, defs: seq<Form>): (r: Outcome)
    requires forall k :: 0 <= k < |defs| ==> defs[k].Define?
    requires defs == [] ==> fs != [] && fs[0].Define?
    decreases Weights(fs), if defs == [] then 0 else 2
  {
    if fs == [] then EmptyBody
    else if fs[0].Begin? then
      OpenedLighter(fs);
      RewriteDefs(local, fs[0].forms + fs[1..], defs)
    else if fs[0].Define? then RewriteDefs(local, fs[1..], defs + [fs[0]])
    else if fs[0].DefineTemplate? then InternalTemplate
    else
      match Rewrite(local, fs)
      case Ok(rest) => Ok([LetAll(Names(defs), Sets(defs) + rest)])
      case error => error
  }

  // The loops

  /** Forms are taken off one by one; what comes before an introduction is kept, reversed, in r. */
  method RewriteBody(local: bool, e: seq<Form>) returns (out: Outcome)
    ensures out == Rewrite(local, e)
    decreases Weights(e), 1
  {
    var l := e;
    var r: seq<Form> := [];
    while true
      invariant Weights(l) <= Weights(e)
      invariant Rewrite(local, e) == Onto(r, Rewrite(local, l))
      decreases Weights(l)
    {
      if l == [] {
        break;
      }
      var cur := l[0];
      if cur.Begin? {
        OpenedLighter(l);
        l := cur.forms + l[1..];
        continue;
      } else if cur.Define? {
        var group := RewriteLetrec(local, l);
        return Onto(r, group);
      } else if cur.DefineTemplate? {
        return InternalTemplate;
      } else if cur.Introduce? || cur.Scope? {
        var body := RewriteBody(local, l[1..]);
        if body.Ok? {
          return Onto(r, Ok(InLet(local, cur, body.forms)));
        } else {
          return body;
        }
      } else {
        ghost var before := r;
        r := r + [cur];
        OntoMore(before, cur, Rewrite(local, l[1..]));
        l := l[1..];
        continue;
      }
    }
    out := Ok(r);
  }

  function Onto(r: seq<Form>, o: Outcome): Outcome {
    match o
    case Ok(forms) => Ok(r + forms)
    case error => error
  }

  lemma OntoMore(r: seq<Form>, f: Form, o: Outcome)
    ensures Onto(r, match o case Ok(rest) => Ok([f] + rest) case error => error) == Onto(r + [f], o)
  {
    if o.Ok? {
      assert r + ([f] + o.forms) == r + [f] + o.forms;
    }
  }

  method RewriteLetrec(local: bool, e: seq<Form>) returns (out: Outcome)
    requires e != [] && e[0].Define?
    ensures out == RewriteDefs(local, e, [])
    decreases Weights(e), 0
  {
    var l := e;
    var defs: seq<Form> := [];
    while true
      invariant forall k :: 0 <= k < |defs| ==> defs[k].Define?
      invariant defs == [] ==> l == e
      invariant Weights(l) <= Weights(e) && (defs != [] ==> Weights(l) < Weights(e))
      invariant RewriteDefs(local, e, []) == RewriteDefs(local, l, defs)
      decreases Weights(l)
    {
      if l == [] {
        return EmptyBody;
      }
      var cur := l[0];
      if cur.Begin? {
        OpenedLighter(l);
        l := cur.forms + l[1..];
      } else if cur.Define? {
        defs := defs + [cur];
        l := l[1..];
      } else if cur.DefineTemplate? {
        return InternalTemplate;
      } else {
        var rest := RewriteBody(local, l);
        if rest.Ok? {
          return Ok([LetAll(Names(defs), Sets(defs) + rest.forms)]);
        } else {
          return rest;
        }
      }
    }
  }

  // Begins opened

  function Flatten(fs: seq<Form>): (r: seq<Form>)
    decreases Weights(fs)
  {
    if fs == [] then []
    else if fs[0].Begin? then
      OpenedLighter(fs);
      Flatten(fs[0].forms + fs[1..])
    else [fs[0]] + Flatten(fs[1..])
  }

  predicate Flat(fs: seq<Form>) {
    forall k :: 0 <= k < |fs| ==> !fs[k].Begin?
  }

  lemma {:induction false} FlattenFlat(fs: seq<Form>)
    ensures Flat(Flatten(fs))
    decreases Weights(fs)
  {
    if fs != [] {
      if fs[0].Begin? {
        OpenedLighter(fs);
        FlattenFlat(fs[0].forms + fs[1..]);
      } else {
        FlattenFlat(fs[1..]);
      }
    }
  }

  /** A begin that stands in a body is redundant. */
  lemma {:induction false} BeginsRedundant(local: bool, fs: seq<Form>)
    ensures Rewrite(local, fs) == Rewrite(local, Flatten(fs))
    decreases Weights(fs), 1
  {
    if fs != [] {
      if fs[0].Begin? {
        OpenedLighter(fs);
        BeginsRedundant(local, fs[0].forms + fs[1..]);
      } else {
        assert Flatten(fs)[1..] == Flatten(fs[1..]);
        if fs[0].Define? {
          BeginsRedundantDefs(local, fs, []);
        } else {
          BeginsRedundant(local, fs[1..]);
        }
      }
    }
  }

  lemma {:induction false} BeginsRedundantDefs(local: bool, fs: seq<Form>, defs: seq<Form>)
    requires forall k :: 0 <= k < |defs| ==> defs[k].Define?
    requires defs == [] ==> fs != [] && fs[0].Define?
    ensures defs == [] ==> Flatten(fs) != [] && Flatten(fs)[0].Define?
    ensures RewriteDefs(local, fs, defs) == RewriteDefs(local, Flatten(fs), defs)
    decreases Weights(fs), if defs == [] then 0 else 2
  {
    if fs != [] {
      if fs[0].Begin? {
        OpenedLighter(fs);
        BeginsRedundantDefs(local, fs[0].forms + fs[1..], defs);
      } else {
        assert Flatten(fs)[1..] == Flatten(fs[1..]);
        if fs[0].Define? {
          BeginsRedundantDefs(local, fs[1..], defs + [fs[0]]);
        } else if !fs[0].DefineTemplate? {
          BeginsRedundant(local, fs);
        }
      }
    }
  }

  // Where every expression is, and what is in scope there

  /** How a name came into scope. */
  datatype Way = ByLocal | ByLet | ByLetrec | By(kind: Kind)

  datatype Bound = Bound(way: Way, name: nat)

  /** An expression, the name its value goes to if any, and the names it can see, the nearest first. */
  datatype Leaf = Leaf(v: Value, into: Option<nat>, scope: seq<Bound>)

  function Leaves(vs: seq<Value>, name: nat, scope: seq<Bound>): seq<Leaf> {
    seq(|vs|, k requires 0 <= k < |vs| => Leaf(vs[k], Some(name), scope))
  }

  /** The expressions of one rewritten form, in the order they are run. */
  function FormLeaves(f: Form, scope: seq<Bound>): (r: seq<Leaf>)
    decreases f, 0
  {
    match f
    case Plain(v) => [Leaf(v, None, scope)]
    case Set(name, v) => [Leaf(v, Some(name), scope)]
    case LetOne(local, name, v, body) =>
      [Leaf(v, Some(name), scope)] + BodyLeaves(body, [Bound(if local then ByLocal else ByLet, name)] + scope)
    case LetAll(names, body) => BodyLeaves(body, Letrec(names) + scope)
    case ScopeIn(kind, name, vs, body) => Leaves(vs, name, scope) + BodyLeaves(body, [Bound(By(kind), name)] + scope)
    case _ => []
  }

  function Letrec(names: seq<nat>): seq<Bound> {
    seq(|names|, k requires 0 <= k < |names| => Bound(ByLetrec, names[k]))
  }

  function BodyLeaves(fs: seq<Form>, scope: seq<Bound>): (r: seq<Leaf>)
    decreases fs, 1
  {
    if fs == [] then [] else FormLeaves(fs[0], scope) + BodyLeaves(fs[1..], scope)
  }

  /** How many definitions the forms start with. */
  function Group(fs: seq<Form>): (k: nat)
    ensures k <= |fs|
    ensures forall i :: 0 <= i < k ==> fs[i].Define?
    ensures k < |fs| ==> !fs[k].Define?
  {
    if fs == [] || !fs[0].Define? then 0 else 1 + Group(fs[1..])
  }

  /** A function that has no name is named after what it is bound to. */
  function Called(name: nat, v: Value): Value {
    match v.fn
    case Anonymous => Value(v.id, Named(name))
    case _ => v
  }

  /** Each definition of a group: its own value into its own name, in order. */
  function Defined(fs: seq<Form>, k: nat, scope: seq<Bound>): (r: seq<Leaf>)
    requires k <= |fs| && forall i :: 0 <= i < k ==> fs[i].Define?
  {
    seq(k, i requires 0 <= i < k => Leaf(Called(fs[i].name, fs[i].v), Some(fs[i].name), scope))
  }

  /**
    What the source says: an introduced name can be seen by exactly the expressions after it; the names of
    a group of definitions by all of the group and everything after.
   */
  function SourceLeaves(local: bool, fs: seq<Form>, scope: seq<Bound>): (r: seq<Leaf>)
    decreases |fs|
  {
    if fs == [] then []
    else
      match fs[0]
      case Define(_, _) =>
        var k := Group(fs);
        var inner := seq(k, i requires 0 <= i < k => Bound(ByLetrec, fs[i].name)) + scope;
        Defined(fs, k, inner) + SourceLeaves(local, fs[k..], inner)
      case Introduce(name, v) =>
        [Leaf(Called(name, v), Some(name), scope)] + SourceLeaves(local, fs[1..], [Bound(if local then ByLocal else ByLet, name)] + scope)
      case Scope(kind, name, vs) => Leaves(vs, name, scope) + SourceLeaves(local, fs[1..], [Bound(By(kind), name)] + scope)
      case _ => FormLeaves(fs[0], scope) + SourceLeaves(local, fs[1..], scope)
  }

  /** Nothing but introductions. */
  predicate OnlyIntroduces(fs: seq<Form>) {
    forall k :: 0 <= k < |fs| ==> fs[k].Introduce? || fs[k].Scope?
  }

  function ValueCount(fs: seq<Form>): (n: nat) {
    if fs == [] then 0
    else (if fs[0].Introduce? then 1 else if fs[0].Scope? then |fs[0].vs| else 0) + ValueCount(fs[1..])
  }

  /** The value expressions of the introductions at the very end of a body, where nothing is left to see the names. */
  function Lost(fs: seq<Form>): (n: nat) {
    if fs == [] then 0 else if OnlyIntroduces(fs) then ValueCount(fs) else Lost(fs[1..])
  }

  lemma {:induction false} BodyLeavesAppend(a: seq<Form>, b: seq<Form>, scope: seq<Bound>)
    ensures BodyLeaves(a + b, scope) == BodyLeaves(a, scope) + BodyLeaves(b, scope)
    decreases |a|
  {
    hide FormLeaves;
    if a == [] {
      assert a + b == b;
    } else {
      assert (a + b)[1..] == a[1..] + b;
      BodyLeavesAppend(a[1..], b, scope);
    }
  }

  /** A run of definitions is gathered whole. */
  lemma {:induction false} GroupGathered(local: bool, fs: seq<Form>, defs: seq<Form>)
    requires Flat(fs) && (forall k :: 0 <= k < |defs| ==> defs[k].Define?) && defs + fs[..Group(fs)] != []
    requires defs == [] ==> fs != [] && fs[0].Define?
    ensures RewriteDefs(local, fs, defs) == RewriteDefs(local, fs[Group(fs)..], defs + fs[..Group(fs)])
    decreases |fs|
  {
    var k := Group(fs);
    if k == 0 {
      assert fs[0..] == fs && defs + fs[..0] == defs;
    } else {
      GroupGathered(local, fs[1..], defs + [fs[0]]);
      assert fs[1..][Group(fs[1..])..] == fs[k..];
      assert defs + [fs[0]] + fs[1..][..Group(fs[1..])] == defs + fs[..k];
    }
  }

  lemma {:induction false} IntroductionsVanish(local: bool, fs: seq<Form>, scope: seq<Bound>)
    requires Flat(fs) && OnlyIntroduces(fs)
    ensures Rewrite(local, fs) == Ok([]) && |SourceLeaves(local, fs, scope)| == ValueCount(fs)
    decreases |fs|
  {
    if fs != [] {
      IntroductionsVanish(local, fs[1..], [Opened(local, fs[0])] + scope);
    }
  }

  /** What an introduction brings into scope. */
  function Opened(local: bool, f: Form): Bound
    requires f.Introduce? || f.Scope?
  {
    Bound(if f.Scope? then By(f.kind) else if local then ByLocal else ByLet, f.name)
  }

  lemma {:induction false} LostAfterGroup(fs: seq<Form>, k: nat)
    requires k <= |fs| && forall i :: 0 <= i < k ==> fs[i].Define?
    ensures Lost(fs) == Lost(fs[k..])
    decreases k
  {
    if k > 0 {
      LostAfterGroup(fs[1..], k - 1);
      assert fs[1..][k - 1..] == fs[k..];
    } else {
      assert fs[0..] == fs;
    }
  }

  /**
    What rewriting keeps.  Of the expressions in the source, exactly those of the last introductions are lost;
    when none are, the rewritten body runs every expression once, in source order, each seeing just the names
    the source says it sees.
   */
  lemma {:induction false} ScopesKept(local: bool, fs: seq<Form>, scope: seq<Bound>)
    requires Flat(fs) && Rewrite(local, fs).Ok?
    ensures |BodyLeaves(Rewrite(local, fs).forms, scope)| + Lost(fs) == |SourceLeaves(local, fs, scope)|
    ensures Lost(fs) == 0 ==> BodyLeaves(Rewrite(local, fs).forms, scope) == SourceLeaves(local, fs, scope)
    ensures Rewrite(local, fs).forms == [] ==> OnlyIntroduces(fs)
    decreases |fs|
  {
    hide FormLeaves, Leaves;
    if OnlyIntroduces(fs) {
      IntroductionsVanish(local, fs, scope);
    } else if fs[0].Define? {
      var k := Group(fs);
      LostAfterGroup(fs, k);
      GroupGathered(local, fs, []);
      assert [] + fs[..k] == fs[..k];
      var inner := Letrec(Names(fs[..k])) + scope;
      assert Letrec(Names(fs[..k])) == seq(k, i requires 0 <= i < k => Bound(ByLetrec, fs[i].name));
      SetsLeaves(fs, k, inner);
      ScopesKept(local, fs[k..], inner);
      var rest := Rewrite(local, fs[k..]).forms;
      BodyLeavesAppend(Sets(fs[..k]), rest, inner);
      OneForm(LetAll(Names(fs[..k]), Sets(fs[..k]) + rest), scope);
      LetAllLeaves(Names(fs[..k]), Sets(fs[..k]) + rest, scope);
    } else if Proper(fs[0]) {
      ScopesKept(local, fs[1..], scope);
      var rest := Rewrite(local, fs[1..]).forms;
      assert ([fs[0]] + rest)[1..] == rest;
    } else {
      ScopesKept(local, fs[1..], [Opened(local, fs[0])] + scope);
      var rest := Rewrite(local, fs[1..]).forms;
      assert rest != [] by { MoreThanIntroductions(fs); }
      OneForm(InLet(local, fs[0], rest)[0], scope);
      InLetLeaves(local, fs[0], rest, scope);
    }
  }

  /** The assignments of a group are those of its definitions, one by one. */
  lemma {:induction false} SetsLeaves(fs: seq<Form>, k: nat, scope: seq<Bound>)
    requires k <= |fs| && forall i :: 0 <= i < k ==> fs[i].Define?
    ensures BodyLeaves(Sets(fs[..k]), scope) == Defined(fs, k, scope)
    decreases k
  {
    if k > 0 {
      var f := Set(fs[k - 1].name, Naming(fs[k - 1].name, fs[k - 1].v));
      SetsLeaves(fs, k - 1, scope);
      assert Sets(fs[..k]) == Sets(fs[..k - 1]) + [f];
      BodyLeavesAppend(Sets(fs[..k - 1]), [f], scope);
      OneForm(f, scope);
    }
  }

  lemma MoreThanIntroductions(fs: seq<Form>)
    requires fs != [] && (fs[0].Introduce? || fs[0].Scope?) && !OnlyIntroduces(fs)
    ensures !OnlyIntroduces(fs[1..])
  {
    var k :| 0 <= k < |fs| && !fs[k].Introduce? && !fs[k].Scope?;
    assert fs[1..][k - 1] == fs[k];
  }

  /** For any body: its expressions and their scopes survive exactly when it does not end by introducing a value. */
  lemma BodyKept(local: bool, fs: seq<Form>, scope: seq<Bound>)
    requires Rewrite(local, fs).Ok?
    ensures BodyLeaves(Rewrite(local, fs).forms, scope) == SourceLeaves(local, Flatten(fs), scope) <==> Lost(Flatten(fs)) == 0
  {
    hide BodyLeaves, SourceLeaves, Rewrite, Flatten;
    FlattenFlat(fs);
    BeginsRedundant(local, fs);
    ScopesKept(local, Flatten(fs), scope);
  }

  /** The body `x := 1` alone: the expression 1 is never run. */
  lemma LastIntroductionLost(local: bool, v: Value)
    ensures Rewrite(local, [Introduce(0, v)]) == Ok([]) && SourceLeaves(local, [Introduce(0, v)], []) == [Leaf(Called(0, v), Some(0), [])]
  {
    assert [Introduce(0, v)][1..] == [];
  }

  // Rewriting again

  lemma {:induction false} ProperUnchanged(local: bool, fs: seq<Form>)
    requires forall k :: 0 <= k < |fs| ==> Proper(fs[k])
    ensures Rewrite(local, fs) == Ok(fs)
    decreases |fs|
  {
    if fs != [] {
      ProperUnchanged(local, fs[1..]);
      assert [fs[0]] + fs[1..] == fs;
    }
  }

  lemma {:induction false} AllProper(local: bool, fs: seq<Form>)
    requires Flat(fs) && Rewrite(local, fs).Ok?
    ensures forall k :: 0 <= k < |Rewrite(local, fs).forms| ==> Proper(Rewrite(local, fs).forms[k])
    decreases |fs|
  {
    if fs != [] {
      if fs[0].Define? {
        GroupGathered(local, fs, []);
        assert [] + fs[..Group(fs)] == fs[..Group(fs)];
      } else {
        AllProper(local, fs[1..]);
      }
    }
  }

  predicate HasTemplate(fs: seq<Form>) {
    exists k :: 0 <= k < |fs| && fs[k].DefineTemplate?
  }

  lemma {:induction false} FlatFails(local: bool, fs: seq<Form>)
    requires Flat(fs)
    ensures Rewrite(local, fs) == InternalTemplate <==> HasTemplate(fs)
    ensures Rewrite(local, fs) == EmptyBody <==> !HasTemplate(fs) && fs != [] && fs[|fs| - 1].Define?
    decreases |fs|
  {
    if fs != [] {
      if fs[0].Define? {
        var k := Group(fs);
        GroupGathered(local, fs, []);
        assert [] + fs[..k] == fs[..k];
        FlatFails(local, fs[k..]);
        TemplateRest(fs, k);
      } else {
        FlatFails(local, fs[1..]);
        TemplateRest(fs, if fs[0].DefineTemplate? then 0 else 1);
      }
    }
  }

  lemma TemplateRest(fs: seq<Form>, k: nat)
    requires k <= |fs| && forall j :: 0 <= j < k ==> !fs[j].DefineTemplate?
    ensures HasTemplate(fs) <==> HasTemplate(fs[k..])
  {
    if HasTemplate(fs) {
      var j :| 0 <= j < |fs| && fs[j].DefineTemplate?;
      assert fs[k..][j - k].DefineTemplate?;
    }
  }

  /** A body is refused exactly if it defines a template inside, or ends in a definition that nothing follows. */
  lemma RewriteFails(local: bool, fs: seq<Form>)
    ensures Rewrite(local, fs) == InternalTemplate <==> HasTemplate(Flatten(fs))
    ensures Rewrite(local, fs) == EmptyBody <==> !HasTemplate(Flatten(fs)) && Flatten(fs) != [] && Flatten(fs)[|Flatten(fs)| - 1].Define?
  {
    hide Rewrite, Flatten, HasTemplate;
    FlattenFlat(fs);
    BeginsRedundant(local, fs);
    FlatFails(local, Flatten(fs));
  }

  /** A body already rewritten comes out as it went in, however often it is rewritten. */
  lemma Stable(local: bool, again: bool, fs: seq<Form>)
    requires Rewrite(local, fs).Ok?
    ensures Rewrite(again, Rewrite(local, fs).forms) == Rewrite(local, fs)
  {
    hide Rewrite, Flatten;
    FlattenFlat(fs);
    BeginsRedundant(local, fs);
    AllProper(local, Flatten(fs));
    ProperUnchanged(again, Rewrite(local, fs).forms);
  }

  /** The body of a let; other forms have none. */
  function Body(f: Form): seq<Form> {
    match f
    case LetOne(_, _, _, body) => body
    case LetAll(_, body) => body
    case ScopeIn(_, _, _, body) => body
    case _ => []
  }

  /** Rewriting the body of the form, and the bodies inside it, changes nothing. */
  predicate Stays(again: bool, f: Form) {
    && Rewrite(again, Body(f)) == Ok(Body(f))
    && match f
       case LetOne(_, _, _, body) => forall k :: 0 <= k < |body| ==> Stays(again, body[k])
       case LetAll(_, body) => forall k :: 0 <= k < |body| ==> Stays(again, body[k])
       case ScopeIn(_, _, _, body) => forall k :: 0 <= k < |body| ==> Stays(again, body[k])
       case _ => true
  }

  predicate AllStay(again: bool, fs: seq<Form>) {
    forall k :: 0 <= k < |fs| ==> Stays(again, fs[k]) && Proper(fs[k])
  }

  lemma LetStays(again: bool, f: Form)
    requires f.LetOne? || f.LetAll? || f.ScopeIn?
    requires AllStay(again, Body(f))
    ensures AllStay(again, [f])
  {
    ProperUnchanged(again, Body(f));
  }

  lemma {:induction false} FlatStays(local: bool, again: bool, fs: seq<Form>)
    requires Flat(fs) && Rewrite(local, fs).Ok? && forall k :: 0 <= k < |fs| ==> Stays(again, fs[k])
    ensures AllStay(again, Rewrite(local, fs).forms)
    decreases |fs|
  {
    hide Stays;
    if fs != [] {
      if fs[0].Define? {
        var k := Group(fs);
        GroupGathered(local, fs, []);
        assert [] + fs[..k] == fs[..k];
        FlatStays(local, again, fs[k..]);
        SetsStay(again, fs[..k]);
        LetStays(again, LetAll(Names(fs[..k]), Sets(fs[..k]) + Rewrite(local, fs[k..]).forms));
      } else {
        FlatStays(local, again, fs[1..]);
        var rest := Rewrite(local, fs[1..]).forms;
        if !Proper(fs[0]) && rest != [] {
          LetStays(again, InLet(local, fs[0], rest)[0]);
        }
      }
    }
  }

  lemma SetsStay(again: bool, defs: seq<Form>)
    requires forall k :: 0 <= k < |defs| ==> defs[k].Define?
    ensures AllStay(again, Sets(defs))
  {
  }

  /**
    Nor do the bodies inside change: the lets that rewriting makes, at any depth, have bodies that rewriting
    leaves alone, provided those the source already had do.
   */
  lemma StableInside(local: bool, again: bool, fs: seq<Form>)
    requires Rewrite(local, fs).Ok?
    requires forall k :: 0 <= k < |Flatten(fs)| ==> Stays(again, Flatten(fs)[k])
    ensures Rewrite(again, Rewrite(local, fs).forms) == Rewrite(local, fs)
    ensures forall k :: 0 <= k < |Rewrite(local, fs).forms| ==> Stays(again, Rewrite(local, fs).forms[k])
  {
    hide Rewrite, Flatten, Stays;
    FlattenFlat(fs);
    BeginsRedundant(local, fs);
    FlatStays(local, again, Flatten(fs));
    Stable(local, again, fs);
  }

  lemma OneForm(f: Form, scope: seq<Bound>)
    ensures BodyLeaves([f], scope) == FormLeaves(f, scope)
  {
    hide FormLeaves;
    assert [f][1..] == [];
  }

  lemma LetAllLeaves(names: seq<nat>, body: seq<Form>, scope: seq<Bound>)
    ensures FormLeaves(LetAll(names, body), scope) == BodyLeaves(body, Letrec(names) + scope)
  {
  }

  lemma InLetLeaves(local: bool, f: Form, rest: seq<Form>, scope: seq<Bound>)
    requires (f.Introduce? || f.Scope?) && rest != []
    ensures FormLeaves(InLet(local, f, rest)[0], scope)
      == (if f.Introduce? then [Leaf(Called(f.name, f.v), Some(f.name), scope)] else Leaves(f.vs, f.name, scope))
         + BodyLeaves(rest, [Opened(local, f)] + scope)
  {
  }
}
