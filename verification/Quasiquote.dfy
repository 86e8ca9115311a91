/**
  Quasi-quotation.  A template is turned into an expression that builds its value with list, pair,
  append and list->array; section 4.2.8 of R7RS says what the value is.  The four names are ordinary
  ones, looked up where the template stands: whoever binds one of them there changes the template.
 */
module Quasiquote {

  import opened Options

  datatype Sexp =
    | Nil
    | Sym(s: Symbol)
    | Atom(n: int)
    | Cons(head: Sexp, tail: Sexp)
    | Array(items: Sexp)
    | Builtin(s: Symbol)
    | Closure(id: nat)

  datatype Symbol =
    | QUASIQUOTE | UNQUOTE | UNQUOTESPLICING
    | QUOTE | LIST | PAIR | APPEND | LIST2ARRAY
    | Other(id: nat)

  function List2(a: Sexp, b: Sexp): Sexp { Cons(a, Cons(b, Nil)) }

  function List3(a: Sexp, b: Sexp, c: Sexp): Sexp { Cons(a, Cons(b, Cons(c, Nil))) }

  predicate ProperList(x: Sexp) {
    match x
    case Nil => true
    case Cons(_, t) => ProperList(t)
    case _ => false
  }

  // Evaluation of the expressions that come out, and of those the user wrote

  /** The elements of a list, proper or not, and what it ends in. */
  function Elements(x: Sexp): (xs: seq<Sexp>) { if x.Cons? then [x.head] + Elements(x.tail) else [] }

  function Ending(x: Sexp): (y: Sexp) { if x.Cons? then Ending(x.tail) else x }

  function Append(a: Sexp, b: Sexp): (r: Option<Sexp>)
    ensures r.Some? <==> Ending(a) == Nil
    ensures r.Some? ==> Elements(r.value) == Elements(a) + Elements(b) && Ending(r.value) == Ending(b)
  {
    match a
    case Nil => Some(b)
    case Cons(h, t) =>
      (match Append(t, b)
       case None => None
       case Some(r) => Some(Cons(h, r)))
    case _ => None
  }

  type Env = map<Symbol, Sexp>

  /** What the user's functions do. */
  type Functions = (nat, Sexp) -> Option<Sexp>

  const CONSTRUCTORS: set<Symbol> := {LIST, PAIR, APPEND, LIST2ARRAY}

  /** The user's binding of a name comes before the predefined one. */
  function Lookup(env: Env, s: Symbol): (r: Option<Sexp>) {
    if s in env then Some(env[s]) else if s in CONSTRUCTORS then Some(Builtin(s)) else None
  }

  function Binding(env: Env, s: Symbol, w: Sexp): Env { env[s := w] }

  /** A small evaluator: variables, quotation, and application of whatever the operator's name stands for. */
  function Ev(env: Env, F: Functions, x: Sexp): (r: Option<Sexp>)
    decreases x, 1
  {
    match x
    case Sym(s) => Lookup(env, s)
    case Cons(Sym(QUOTE), args) => if args.Cons? && args.tail == Nil then Some(args.head) else None
    case Cons(f, args) =>
      (match Ev(env, F, f)
       case None => None
       case Some(v) =>
         match EvArgs(env, F, args)
         case None => None
         case Some(vs) => Apply(F, v, vs))
    case _ => Some(x)
  }

  function EvArgs(env: Env, F: Functions, args: Sexp): (r: Option<Sexp>)
    decreases args, 0
  {
    match args
    case Nil => Some(Nil)
    case Cons(x, rest) =>
      (match Ev(env, F, x)
       case None => None
       case Some(v) =>
         match EvArgs(env, F, rest)
         case None => None
         case Some(vs) => Some(Cons(v, vs)))
    case _ => None
  }

  function Apply(F: Functions, v: Sexp, vs: Sexp): (r: Option<Sexp>) {
    match v
    case Builtin(s) => Construct(s, vs)
    case Closure(id) => F(id, vs)
    case _ => None
  }

  predicate IsFunction(v: Sexp) { v.Builtin? || v.Closure? }

  /** The predefined functions. */
  function Construct(s: Symbol, vs: Sexp): (r: Option<Sexp>) {
    match s
    case LIST => Some(vs)
    case PAIR => if vs.Cons? && vs.tail.Cons? && vs.tail.tail == Nil then Some(Cons(vs.head, vs.tail.head)) else None
    case APPEND => if vs.Cons? && vs.tail.Cons? && vs.tail.tail == Nil then Append(vs.head, vs.tail.head) else None
    case LIST2ARRAY => if vs.Cons? && vs.tail == Nil && ProperList(vs.head) then Some(Array(vs.head)) else None
    case _ => None
  }

  // The transformation

  /** The second element of a form; a form without one is a fault. */
  function Second(e: Sexp): (r: Option<Sexp>) {
    if e.Cons? && e.tail.Cons? then Some(e.tail.head) else None
  }

  function Build(f: Symbol, a: Option<Sexp>, b: Option<Sexp>): (r: Option<Sexp>) {
    if a.Some? && b.Some? then Some(List3(Sym(f), a.value, b.value)) else None
  }

  function Quoted(s: Symbol): Option<Sexp> { Some(List2(Sym(QUOTE), Sym(s))) }

  predicate Splices(e: Sexp, level: int) {
    e.Cons? && level <= 0 && e.head.Cons? && e.head.head == Sym(UNQUOTESPLICING)
  }

  /** A keyword form inside the template: the keyword is kept, its argument is handled at another level. */
  predicate Keeps(e: Sexp, level: int) {
    e.Cons? && (e.head == Sym(QUASIQUOTE) || (level > 0 && (e.head == Sym(UNQUOTE) || e.head == Sym(UNQUOTESPLICING))))
  }

  function Inside(e: Sexp, level: int): int {
    if e.Cons? && e.head == Sym(QUASIQUOTE) then level + 1 else level - 1
  }

  function Dequasiquote(e: Sexp, level: int): (r: Option<Sexp>)
    decreases e
  {
    match e
    case Cons(h, t) =>
      if Keeps(e, level) then
        if t.Cons? then Build(LIST, Quoted(h.s), Dequasiquote(t.head, Inside(e, level))) else None
      else if h == Sym(UNQUOTE) then Second(e)
      else if Splices(e, level) then
        if t == Nil then Second(h)
        else Build(APPEND, Second(h), Dequasiquote(t, level))
      else Build(PAIR, Dequasiquote(h, level), Dequasiquote(t, level))
    case Array(items) =>
      (match Dequasiquote(items, level)
       case None => None
       case Some(x) => Some(List2(Sym(LIST2ARRAY), x)))
    case Sym(_) => Some(List2(Sym(QUOTE), e))
    case _ => Some(e)
  }

  // What a template means

  function Join(a: Option<Sexp>, b: Option<Sexp>): (r: Option<Sexp>) {
    if a.Some? && b.Some? then Some(Cons(a.value, b.value)) else None
  }

  /** A form of one argument around a value. */
  function Around(s: Symbol, x: Option<Sexp>): (r: Option<Sexp>) {
    if x.Some? then Some(List2(Sym(s), x.value)) else None
  }

  /**
    The value of a template, without making an expression of it first.  A quasi-quotation inside raises the level, an
    unquote lowers it; at the outermost level an unquoted part is evaluated and a spliced one put in place.
   */
  function Template(env: Env, F: Functions, e: Sexp, level: int): (r: Option<Sexp>)
    decreases e
  {
    match e
    case Cons(h, t) =>
      if h == Sym(QUASIQUOTE) then
        if t.Cons? then Around(QUASIQUOTE, Template(env, F, t.head, level + 1)) else None
      else if h == Sym(UNQUOTE) then
        if !t.Cons? then None
        else if level <= 0 then Ev(env, F, t.head)
        else Around(UNQUOTE, Template(env, F, t.head, level - 1))
      else if h == Sym(UNQUOTESPLICING) && level > 0 then
        if t.Cons? then Around(UNQUOTESPLICING, Template(env, F, t.head, level - 1)) else None
      else if h.Cons? && h.head == Sym(UNQUOTESPLICING) && level <= 0 then
        if !h.tail.Cons? then None
        else if t == Nil then Ev(env, F, h.tail.head)
        else
          var spliced, rest := Ev(env, F, h.tail.head), Template(env, F, t, level);
          if spliced.Some? && rest.Some? then Append(spliced.value, rest.value) else None
      else Join(Template(env, F, h, level), Template(env, F, t, level))
    case Array(items) =>
      (match Template(env, F, items, level)
       case None => None
       case Some(x) => if ProperList(x) then Some(Array(x)) else None)
    case _ => Some(e)
  }

  // Where the two agree

  /** The names of the functions the expression made of a template applies, besides those in unquoted parts. */
  function Used(e: Sexp, level: int): (names: set<Symbol>)
    ensures names <= CONSTRUCTORS
    decreases e
  {
    match e
    case Cons(h, t) =>
      if h == Sym(QUASIQUOTE) then {LIST} + (if t.Cons? then Used(t.head, level + 1) else {})
      else if h == Sym(UNQUOTE) && level <= 0 then {}
      else if (h == Sym(UNQUOTE) || h == Sym(UNQUOTESPLICING)) && level > 0 then {LIST} + (if t.Cons? then Used(t.head, level - 1) else {})
      else if h.Cons? && h.head == Sym(UNQUOTESPLICING) && level <= 0 then (if t == Nil then {} else {APPEND} + Used(t, level))
      else {PAIR} + Used(h, level) + Used(t, level)
    case Array(items) => {LIST2ARRAY} + Used(items, level)
    case _ => {}
  }

  lemma EvCall(env: Env, F: Functions, f: Symbol, args: Sexp)
    requires f in CONSTRUCTORS
    ensures var vs := EvArgs(env, F, args);
      Ev(env, F, Cons(Sym(f), args)) == if vs.Some? then Apply(F, Lookup(env, f).value, vs.value) else None
  {
    hide Apply, EvArgs;
    assert Ev(env, F, Sym(f)) == Lookup(env, f);
  }

  /** Evaluating a form with two arguments. */
  lemma EvTwo(env: Env, F: Functions, f: Symbol, a: Sexp, b: Sexp)
    requires f in CONSTRUCTORS
    ensures var op, va, vb := Lookup(env, f).value, Ev(env, F, a), Ev(env, F, b);
      Ev(env, F, List3(Sym(f), a, b)) == if va.Some? && vb.Some? then Apply(F, op, List2(va.value, vb.value)) else None
  {
    hide Apply, Ev;
    EvCall(env, F, f, Cons(a, Cons(b, Nil)));
    assert EvArgs(env, F, Nil) == Some(Nil);
    assert EvArgs(env, F, Cons(b, Nil)) == match Ev(env, F, b) case None => None case Some(v) => Some(Cons(v, Nil));
  }

  lemma EvOne(env: Env, F: Functions, f: Symbol, a: Sexp)
    requires f in CONSTRUCTORS
    ensures var op, va := Lookup(env, f).value, Ev(env, F, a);
      Ev(env, F, List2(Sym(f), a)) == if va.Some? then Apply(F, op, Cons(va.value, Nil)) else None
  {
    hide Apply, Ev;
    EvCall(env, F, f, Cons(a, Nil));
    assert EvArgs(env, F, Nil) == Some(Nil);
  }

  lemma EvQuote(env: Env, F: Functions, s: Symbol)
    ensures Ev(env, F, List2(Sym(QUOTE), Sym(s))) == Some(Sym(s))
  {
  }

  lemma EvAtom(env: Env, F: Functions, e: Sexp)
    requires !e.Cons? && !e.Sym?
    ensures Ev(env, F, e) == Some(e)
  {
  }

  /**
    At every level, where none of the names used is bound, evaluating the expression made of a template gives
    the template's value: unquoted parts evaluated, spliced lists appended, dotted tails and arrays kept,
    nested levels counted.
   */
  lemma {:induction false} DequasiquoteMeans(env: Env, F: Functions, e: Sexp, level: int)
    requires Used(e, level) !! env.Keys
    ensures match Dequasiquote(e, level)
      case None => Template(env, F, e, level) == None
      case Some(x) => Ev(env, F, x) == Template(env, F, e, level)
    decreases e
  {
    hide Ev, Append;
    match e
    case Cons(h, t) =>
      if Keeps(e, level) {
        if t.Cons? {
          var d := Dequasiquote(t.head, Inside(e, level));
          DequasiquoteMeans(env, F, t.head, Inside(e, level));
          EvQuote(env, F, h.s);
          if d.Some? {
            EvTwo(env, F, LIST, Quoted(h.s).value, d.value);
          }
        }
      } else if h == Sym(UNQUOTE) {
      } else if Splices(e, level) {
        if t != Nil {
          DequasiquoteMeans(env, F, t, level);
          if Second(h).Some? && Dequasiquote(t, level).Some? {
            EvTwo(env, F, APPEND, Second(h).value, Dequasiquote(t, level).value);
          }
        }
      } else {
        DequasiquoteMeans(env, F, h, level);
        DequasiquoteMeans(env, F, t, level);
        if Dequasiquote(h, level).Some? && Dequasiquote(t, level).Some? {
          EvTwo(env, F, PAIR, Dequasiquote(h, level).value, Dequasiquote(t, level).value);
        }
      }
    case Array(items) =>
      DequasiquoteMeans(env, F, items, level);
      if Dequasiquote(items, level).Some? {
        EvOne(env, F, LIST2ARRAY, Dequasiquote(items, level).value);
      }
    case Sym(s) => EvQuote(env, F, s);
    case _ => EvAtom(env, F, e);
  }

  /** Something that is no function, bound to a name used, leaves the expression without a value. */
  lemma {:induction false} Captured(env: Env, F: Functions, e: Sexp, level: int, s: Symbol)
    requires s in Used(e, level) && s in env && !IsFunction(env[s]) && Dequasiquote(e, level).Some?
    ensures Ev(env, F, Dequasiquote(e, level).value) == None
    decreases e
  {
    hide Ev;
    match e
    case Cons(h, t) =>
      if Keeps(e, level) {
        if s in Used(t.head, Inside(e, level)) {
          Captured(env, F, t.head, Inside(e, level), s);
        }
        EvTwo(env, F, LIST, Quoted(h.s).value, Dequasiquote(t.head, Inside(e, level)).value);
      } else if Splices(e, level) {
        if s in Used(t, level) {
          Captured(env, F, t, level, s);
        }
        EvTwo(env, F, APPEND, Second(h).value, Dequasiquote(t, level).value);
      } else {
        if s in Used(h, level) {
          Captured(env, F, h, level, s);
        } else if s in Used(t, level) {
          Captured(env, F, t, level, s);
        }
        EvTwo(env, F, PAIR, Dequasiquote(h, level).value, Dequasiquote(t, level).value);
      }
    case Array(items) =>
      if s in Used(items, level) {
        Captured(env, F, items, level, s);
      }
      EvOne(env, F, LIST2ARRAY, Dequasiquote(items, level).value);
  }

  /**
    Exactly when: a template that has a value keeps its meaning under every binding of a name
    if and only if the expression made of it does not use that name.
   */
  lemma BindingHarmless(env: Env, F: Functions, e: Sexp, level: int, s: Symbol)
    requires Used(e, level) - {s} !! env.Keys
    requires Dequasiquote(e, level).Some? && Template(Binding(env, s, Nil), F, e, level).Some?
    ensures s !in Used(e, level) <==>
      forall w :: Ev(Binding(env, s, w), F, Dequasiquote(e, level).value) == Template(Binding(env, s, w), F, e, level)
  {
    hide Ev, Template, Dequasiquote, Used;
    if s in Used(e, level) {
      Captured(Binding(env, s, Nil), F, e, level, s);
    } else {
      forall w
        ensures Ev(Binding(env, s, w), F, Dequasiquote(e, level).value) == Template(Binding(env, s, w), F, e, level)
      {
        DequasiquoteMeans(Binding(env, s, w), F, e, level);
      }
    }
  }

  // Levels

  /** What the expression made of a template evaluates to. */
  function Value(env: Env, F: Functions, e: Sexp, level: int): (r: Option<Sexp>) {
    match Dequasiquote(e, level)
    case None => None
    case Some(x) => Ev(env, F, x)
  }

  /** Quasi-quotations (true) and unquotes (false) around a form, the outermost first. */
  function Wrap(ws: seq<bool>, e: Sexp): (r: Sexp)
    decreases |ws|
  {
    if ws == [] then e else List2(Sym(if ws[0] then QUASIQUOTE else UNQUOTE), Wrap(ws[1..], e))
  }

  /** Quasi-quotations less unquotes. */
  function Balance(ws: seq<bool>): (n: int)
    decreases |ws|
  {
    if ws == [] then 0 else Balance(ws[..|ws| - 1]) + if ws[|ws| - 1] then 1 else -1
  }

  /** No unquote among them is at the outermost level. */
  predicate Within(ws: seq<bool>, level: int) {
    forall k :: 0 <= k < |ws| && !ws[k] ==> level + Balance(ws[..k]) > 0
  }

  lemma {:induction false} BalanceFirst(ws: seq<bool>)
    requires ws != []
    ensures Balance(ws) == (if ws[0] then 1 else -1) + Balance(ws[1..])
    decreases |ws|
  {
    if |ws| > 1 {
      BalanceFirst(ws[..|ws| - 1]);
      assert ws[1..][..|ws| - 2] == ws[..|ws| - 1][1..];
    } else {
      assert ws[1..] == [] && ws[..0] == [];
    }
  }

  /** What is under them. */
  lemma WithinRest(ws: seq<bool>, level: int)
    requires ws != [] && Within(ws, level)
    ensures ws[0] || level > 0
    ensures Within(ws[1..], level + if ws[0] then 1 else -1)
  {
    assert ws[..0] == [];
    forall k | 0 <= k < |ws[1..]| && !ws[1..][k]
      ensures level + (if ws[0] then 1 else -1) + Balance(ws[1..][..k]) > 0
    {
      assert !ws[k + 1];
      BalanceFirst(ws[..k + 1]);
      assert ws[..k + 1][1..] == ws[1..][..k];
    }
  }

  /** One of them around a form. */
  lemma OneWrap(env: Env, F: Functions, raise: bool, e: Sexp, level: int)
    requires LIST !in env
    ensures var s := if raise then QUASIQUOTE else UNQUOTE;
      Value(env, F, List2(Sym(s), e), level)
      == if raise || level > 0 then Around(s, Value(env, F, e, level + if raise then 1 else -1)) else Ev(env, F, e)
  {
    hide Ev, Append;
    var s, next := if raise then QUASIQUOTE else UNQUOTE, level + if raise then 1 else -1;
    if raise || level > 0 {
      var d := Dequasiquote(e, next);
      EvQuote(env, F, s);
      if d.Some? {
        EvTwo(env, F, LIST, Quoted(s).value, d.value);
      }
    }
  }

  /** Quasi-quotations and unquotes that stay inside the template are kept, around what the form has at their level. */
  lemma {:induction false} WrapsKept(env: Env, F: Functions, ws: seq<bool>, e: Sexp, level: int)
    requires Within(ws, level) && LIST !in env
    ensures var v := Value(env, F, e, level + Balance(ws));
      Value(env, F, Wrap(ws, e), level) == if v.Some? then Some(Wrap(ws, v.value)) else None
    decreases |ws|
  {
    hide Value, Within;
    if ws != [] {
      WithinRest(ws, level);
      BalanceFirst(ws);
      OneWrap(env, F, ws[0], Wrap(ws[1..], e), level);
      WrapsKept(env, F, ws[1..], e, level + if ws[0] then 1 else -1);
    }
  }

  /**
    An unquoted part is evaluated exactly where the unquotes around it, with the level to start from, balance the
    quasi-quotations; elsewhere the unquote is kept and what is in it is at a lower level.
   */
  lemma UnquoteEvaluated(env: Env, F: Functions, ws: seq<bool>, x: Sexp, level: int)
    requires Within(ws, level) && LIST !in env
    ensures var n := level + Balance(ws);
      var v := if n <= 0 then Ev(env, F, x) else Around(UNQUOTE, Value(env, F, x, n - 1));
      Value(env, F, Wrap(ws, List2(Sym(UNQUOTE), x)), level) == if v.Some? then Some(Wrap(ws, v.value)) else None
  {
    hide Value, Within, Ev, Wrap, Balance;
    WrapsKept(env, F, ws, List2(Sym(UNQUOTE), x), level);
    OneWrap(env, F, false, x, level + Balance(ws));
  }

  // Templates without unquotes

  predicate NoUnquote(e: Sexp) {
    match e
    case Cons(h, t) => h != Sym(UNQUOTE) && h != Sym(UNQUOTESPLICING) && NoUnquote(h) && NoUnquote(t)
    case Array(items) => NoUnquote(items)
    case _ => true
  }

  /** Every quasi-quotation inside has exactly one argument, and every array holds a proper list. */
  predicate Exact(e: Sexp) {
    match e
    case Cons(h, t) =>
      if h == Sym(QUASIQUOTE) then t.Cons? && t.tail == Nil && Exact(t.head) else Exact(h) && Exact(t)
    case Array(items) => ProperList(items) && Exact(items)
    case _ => true
  }

  /** A template without unquotes is its own value, exactly when its quasi-quotations have one argument each. */
  lemma {:induction false} PlainTemplate(env: Env, F: Functions, e: Sexp, level: int)
    requires NoUnquote(e)
    ensures Template(env, F, e, level) == Some(e) <==> Exact(e)
    decreases e
  {
    hide Ev;
    match e
    case Cons(h, t) =>
      if h == Sym(QUASIQUOTE) {
        if t.Cons? {
          PlainTemplate(env, F, t.head, level + 1);
        }
      } else {
        PlainTemplate(env, F, h, level);
        PlainTemplate(env, F, t, level);
      }
    case Array(items) => PlainTemplate(env, F, items, level);
    case _ =>
  }

  /** The same of the expression made of it, where none of the names used is bound. */
  lemma PlainExpansion(env: Env, F: Functions, e: Sexp, level: int)
    requires NoUnquote(e) && Used(e, level) !! env.Keys
    ensures Dequasiquote(e, level).Some? && Ev(env, F, Dequasiquote(e, level).value) == Some(e) <==> Exact(e)
  {
    hide Ev, Template, Dequasiquote, Used, Exact, NoUnquote;
    PlainTemplate(env, F, e, level);
    DequasiquoteMeans(env, F, e, level);
  }

  /** And exactly then: under every binding of a name it is its own value if and only if it does not use the name. */
  lemma PlainBindingHarmless(env: Env, F: Functions, e: Sexp, level: int, s: Symbol)
    requires NoUnquote(e) && Exact(e) && Used(e, level) - {s} !! env.Keys
    ensures Dequasiquote(e, level).Some?
    ensures s !in Used(e, level) <==> forall w :: Ev(Binding(env, s, w), F, Dequasiquote(e, level).value) == Some(e)
  {
    hide Ev, Template, Dequasiquote, Used, Exact, NoUnquote;
    forall w
      ensures Template(Binding(env, s, w), F, e, level) == Some(e)
    {
      PlainTemplate(Binding(env, s, w), F, e, level);
    }
    PlainExpansion(map[], F, e, level);
    BindingHarmless(env, F, e, level, s);
  }

  /** The template (1), where pair is bound to a function of the user's: its value is whatever that function makes of 1 and (). */
  lemma PairRebound(F: Functions, id: nat)
    ensures var e := Cons(Atom(1), Nil);
      NoUnquote(e) && Exact(e) && Ev(map[PAIR := Closure(id)], F, Dequasiquote(e, 0).value) == F(id, List2(Atom(1), Nil))
  {
    EvTwo(map[PAIR := Closure(id)], F, PAIR, Atom(1), Nil);
  }

  /** A second argument is dropped: the template (quasiquote 1 2) comes out as (quasiquote 1). */
  lemma ArgumentDropped(env: Env, F: Functions, level: int)
    ensures Template(env, F, List3(Sym(QUASIQUOTE), Atom(1), Atom(2)), level) == Some(List2(Sym(QUASIQUOTE), Atom(1)))
    ensures !Exact(List3(Sym(QUASIQUOTE), Atom(1), Atom(2)))
  {
    assert Template(env, F, Atom(1), level + 1) == Some(Atom(1));
  }
}
