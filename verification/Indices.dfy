/** Names and functions take their indices from the same tables; this keeps them apart, over any number of forms. */
module Indices {

  import opened Machine
  import opened Icode
  import opened Meaning
  import opened Hoisting
  import opened Numbering
  import opened SymbolTables
  import opened Pipeline
  import E = Evaluate

  /** An index that a function took. */
  predicate Unnamed(symbols: seq<Info>, vi: nat) {
    exists k :: 0 <= k < |symbols| && symbols[k].si == vi && symbols[k].name.None?
  }

  /** All functions of the program have indices that functions took. */
  predicate Apart(symbols: seq<Info>, labels: map<nat, nat>) {
    forall vi :: vi in labels ==> Unnamed(symbols, vi)
  }

  lemma UnnamedMore(symbols: seq<Info>, info: Info, vi: nat)
    requires Unnamed(symbols, vi)
    ensures Unnamed([info] + symbols, vi)
  {
    var k :| 0 <= k < |symbols| && symbols[k].si == vi && symbols[k].name.None?;
    assert ([info] + symbols)[k + 1] == symbols[k];
  }

  /** New entries, of names or of functions, keep the functions there are apart. */
  lemma ApartMore(symbols: seq<Info>, info: Info, labels: map<nat, nat>)
    requires Apart(symbols, labels)
    ensures Apart([info] + symbols, labels)
  {
    forall vi | vi in labels
      ensures Unnamed([info] + symbols, vi)
    {
      UnnamedMore(symbols, info, vi);
    }
  }

  /** No name has the index of a function. */
  lemma NameNotLabel(T: Tables, labels: map<nat, nat>, k: nat)
    requires T.Valid() && Apart(T.symbols, labels) && k < |T.symbols| && T.symbols[k].name.Some?
    ensures T.symbols[k].si !in labels
  {
    forall j | 0 <= j < |T.symbols| && T.symbols[j].si == T.symbols[k].si
      ensures T.symbols[j].name.Some?
    {
      T.IndicesDistinct(j, k);
    }
  }

  /** So an assignment to a name in the tables goes through whenever its value has been found. */
  lemma AssignmentGoesThrough(T: Tables, P: Program, k: nat, src: bool, m1: Icode, f: Link, d: Scope, st: Store, fuel: nat)
    requires T.Valid() && Apart(T.symbols, P.labels) && k < |T.symbols| && T.symbols[k].name.Some?
    ensures Eval(P, SymbolSet(src, T.symbols[k].si, m1), f, d, st, fuel).Done? <==> Eval(P, m1, f, d, st, fuel).Done?
  {
    hide Eval;
    NameNotLabel(T, P.labels, k);
    EvalByRule(P, SymbolSet(src, T.symbols[k].si, m1), f, d, st, fuel);
  }

  /** Functions take the next indices, one after the other. */
  method TakeNumbers(T: Tables, count: nat)
    requires T.Valid()
    modifies T
    ensures T.Valid() && |T.st| == |old(T.st)| + count
    ensures forall vi :: |old(T.st)| <= vi < |T.st| ==> Unnamed(T.symbols, vi)
    ensures forall vi :: Unnamed(old(T.symbols), vi) ==> Unnamed(T.symbols, vi)
  {
    var i := 0;
    while i < count
      invariant 0 <= i <= count && T.Valid() && |T.st| == |old(T.st)| + i
      invariant forall vi :: |old(T.st)| <= vi < |T.st| ==> Unnamed(T.symbols, vi)
      invariant forall vi :: Unnamed(old(T.symbols), vi) ==> Unnamed(T.symbols, vi)
    {
      ghost var before := T.symbols;
      var vi := T.ExtendFunction();
      assert T.symbols[0].si == vi && T.symbols[0].name.None?;
      forall v | Unnamed(before, v)
        ensures Unnamed(T.symbols, v)
      {
        UnnamedMore(before, T.symbols[0], v);
      }
      i := i + 1;
    }
  }

  lemma {:induction false} AddedLabels(P: Program, fs: seq<Fn>, K: seq<Value>, base: nat, vi: nat)
    requires vi in Added(P, fs, K, base).labels
    ensures vi in P.labels || exists i :: 0 <= i < |fs| && Number(fs[i]) == vi
    decreases |fs|
  {
    if fs != [] {
      var entry := EntryAt(fs[0], K, base);
      var Q := Program(P.labels[Number(fs[0]) := entry], P.funs[entry := fs[0].node], P.prim);
      AddedLabels(Q, fs[1..], K, NextBase(fs[0], K, base), vi);
      if vi !in Q.labels {
        var i :| 0 <= i < |fs[1..]| && Number(fs[1..][i]) == vi;
        assert Number(fs[i + 1]) == vi;
      }
    }
  }

  /**
    A form whose functions are numbered from the tables' next index: taking those numbers keeps all functions,
    the form's own and those from before, apart from all names.
   */
  method NumberForm(T: Tables, ghost P: Program, G: E.Globals, e: E.Expr, f: E.Flags, ghost K: seq<Value>, ghost n: nat, ghost base: nat)
    requires T.Valid() && Apart(T.symbols, P.labels)
    modifies T
    ensures T.Valid() && |T.st| == E.Meaning(G, e, [], f, |old(T.st)|).v
    ensures Apart(T.symbols, WithForm(P, Form(G, e, f, |old(T.st)|), K, n, base).labels)
  {
    hide E.Meaning, Functions, Added, Number;
    var v := |T.st|;
    var made := E.Meaning(G, e, [], f, v);
    Numbered(G, e, [], f, v, n);
    TakeNumbers(T, made.v - v);
    forall vi | vi in WithForm(P, made.m, K, n, base).labels
      ensures Unnamed(T.symbols, vi)
    {
      AddedLabels(P, Functions(made.m, n), K, base, vi);
    }
  }
}
