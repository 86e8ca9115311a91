/**
  The evaluator's tables.  A symbol has an index; the symbol table leads from the index to a constant,
  and the constant is the symbol's name.  The value table runs along with the symbol table.
 */
module SymbolTables {

  import opened Options
  import opened Machine
  import opened Icode
  import opened Codegen

  datatype Sort = Toplevel | Dynamic | Environ | Computed | Predef

  /** What is known about a symbol; a function's own entry has no name. */
  datatype Info = Info(name: Option<Value>, sort: Sort, si: nat, ci: Option<nat>, vi: nat)

  /** What the module system says of a name: nothing, an entry visible in the module, or a direct module/name reference. */
  datatype Origin = Unknown | Visible(sort: Sort, vi: nat) | Direct(sort: Sort)

  /** The sort a new entry gets. */
  function SortOf(sort: Sort, origin: Origin): Sort {
    match origin
    case Unknown => sort
    case Visible(found, _) => found
    case Direct(found) => if found == Predef then Toplevel else found
  }

  /** The constant's index: the hash is asked first, then the whole table is searched, in vain, as the hash has them all. */
  method Intern(e: Eenv, name: Value) returns (ci: nat)
    requires e.Valid() && name != NIL
    modifies e
    ensures e.Valid() && e.sources == old(e.sources)
    ensures name in e.consts && ci == Index(e.consts, name)
    ensures e.consts == if name in old(e.consts) then old(e.consts) else old(e.consts) + [name]
  {
    if name in e.hash {
      ci := e.hash[name];
      IndexIs(e.consts, ci);
      return;
    }
    ci := 0;
    while ci < |e.consts| && e.consts[ci] != name
      invariant 0 <= ci <= |e.consts|
      invariant forall j :: 0 <= j < ci ==> e.consts[j] != name
    {
      ci := ci + 1;
    }
    if ci == |e.consts| {
      e.consts := e.consts + [name];
      e.hash := e.hash[name := ci];
      IndexIs(e.consts, ci);
    }
  }

  predicate Named(symbols: seq<Info>, name: Value) {
    exists k :: 0 <= k < |symbols| && symbols[k].name == Some(name)
  }

  /** The first entry with the name. */
  predicate Newest(symbols: seq<Info>, name: Value, info: Info) {
    exists k :: 0 <= k < |symbols| && symbols[k] == info && info.name == Some(name)
      && forall j :: 0 <= j < k ==> symbols[j].name != Some(name)
  }

  /** Later entries stand first, with larger indices. */
  predicate Ordered(infos: seq<Info>) {
    forall j, k :: 0 <= j < k < |infos| ==> infos[j].si > infos[k].si
  }

  class Tables {
    const eenv: Eenv
    var st: seq<Option<nat>>
    var vt: seq<nat>
    var symbols: seq<Info>
    var operators: seq<Info>

    /** The entry's index leads through the symbol table to the entry's own name, and through the value table to its value's place. */
    ghost predicate Leads(info: Info)
      reads this, eenv
    {
      && info.si < |st| && |st| == |vt|
      && st[info.si] == info.ci && vt[info.si] == info.vi
      && (info.name.Some? <==> info.ci.Some?)
      && (info.name.Some? ==> info.ci.value < |eenv.consts| && eenv.consts[info.ci.value] == info.name.value)
    }

    ghost predicate Valid()
      reads this, eenv, eenv.code
    {
      && eenv.Valid()
      && |st| == |vt|
      && (forall k :: 0 <= k < |symbols| ==> Leads(symbols[k]))
      && (forall k :: 0 <= k < |operators| ==> Leads(operators[k]))
      && Ordered(symbols) && Ordered(operators)
      && (forall j, k :: 0 <= j < |symbols| && 0 <= k < |operators| ==> symbols[j].si != operators[k].si)
      && |symbols| + |operators| == |st|
    }

    constructor (eenv: Eenv)
      requires eenv.Valid()
      ensures this.eenv == eenv && st == [] && vt == [] && symbols == [] && operators == [] && Valid()
    {
      this.eenv := eenv;
      st := [];
      vt := [];
      symbols := [];
      operators := [];
    }

    lemma IndicesBelow()
      requires Valid()
      ensures forall k :: 0 <= k < |symbols| ==> symbols[k].si < |st|
      ensures forall k :: 0 <= k < |operators| ==> operators[k].si < |st|
    {
      assert forall k :: 0 <= k < |symbols| ==> Leads(symbols[k]);
      assert forall k :: 0 <= k < |operators| ==> Leads(operators[k]);
    }

    /** A new last row in both tables, and a new first entry. */
    method Extend(name: Option<Value>, sort: Sort, ci: Option<nat>) returns (vi: nat)
      requires Valid() && (name.Some? <==> ci.Some?)
      requires name.Some? ==> ci.value < |eenv.consts| && eenv.consts[ci.value] == name.value
      modifies this
      ensures Valid() && vi == |old(st)| && st == old(st) + [ci] && vt == old(vt) + [0]
      ensures symbols == [Info(name, sort, vi, ci, 0)] + old(symbols) && operators == old(operators)
    {
      IndicesBelow();
      st := st + [ci];
      vi := |vt|;
      vt := vt + [0];
      symbols := [Info(name, sort, vi, ci, 0)] + symbols;
    }

    /** An operator takes a row too, but has its entry among the operators. */
    method ExtendOperators(name: Value) returns (vi: nat)
      requires Valid() && name != NIL
      modifies this, eenv
      ensures Valid() && vi == |old(st)| && old(eenv.consts) <= eenv.consts && symbols == old(symbols)
      ensures name in eenv.consts
      ensures var ci := Some(Index(eenv.consts, name));
        && st == old(st) + [ci] && vt == old(vt) + [0]
        && operators == [Info(Some(name), Toplevel, vi, ci, 0)] + old(operators)
    {
      ghost var before := eenv.consts;
      var ci := Intern(eenv, name);
      assert Valid() by {
        StillLeads(before);
      }
      vi := AddOperator(name, ci);
    }

    method AddOperator(name: Value, ci: nat) returns (vi: nat)
      requires Valid() && ci < |eenv.consts| && eenv.consts[ci] == name
      modifies this
      ensures Valid() && vi == |old(st)| && st == old(st) + [Some(ci)] && vt == old(vt) + [0]
      ensures symbols == old(symbols) && operators == [Info(Some(name), Toplevel, vi, Some(ci), 0)] + old(operators)
    {
      IndicesBelow();
      st := st + [Some(ci)];
      vi := |vt|;
      vt := vt + [0];
      operators := [Info(Some(name), Toplevel, vi, Some(ci), 0)] + operators;
    }

    /** A function takes an index of its own and no name. */
    method ExtendFunction() returns (vi: nat)
      requires Valid()
      modifies this
      ensures Valid() && vi == |old(st)| && st == old(st) + [None] && |vt| == |old(vt)| + 1
      ensures symbols == [Info(None, Toplevel, vi, None, 0)] + old(symbols) && operators == old(operators)
    {
      vi := Extend(None, Toplevel, None);
    }

    /** The newest entry of the name, made if there is none; no index and no name ever changes. */
    method Find(name: Value, sort: Sort, origin: Origin) returns (info: Info)
      requires Valid() && name != NIL
      modifies this, eenv
      ensures Valid() && Newest(symbols, name, info)
      ensures old(eenv.consts) <= eenv.consts && operators == old(operators)
      ensures Named(old(symbols), name) ==> unchanged(this) && unchanged(eenv)
      ensures !Named(old(symbols), name) ==>
        && info.name == Some(name) && info.si == |old(st)|
        && (origin.Unknown? ==> info.sort == sort && info.vi == 0)
        && (origin.Visible? ==> info.sort == origin.sort && info.vi == if origin.sort == Predef then origin.vi else 0)
        && (origin.Direct? ==> info.sort == (if origin.sort == Predef then Toplevel else origin.sort) && info.vi == 0)
        && symbols == [info] + old(symbols) && st == old(st) + [info.ci] && vt == old(vt) + [info.vi]
    {
      hide Valid;
      var k := 0;
      while k < |symbols| && symbols[k].name != Some(name)
        invariant 0 <= k <= |symbols|
        invariant forall j :: 0 <= j < k ==> symbols[j].name != Some(name)
      {
        k := k + 1;
      }
      if k < |symbols| {
        return symbols[k];
      }
      info := Enter(name, sort, origin);
      assert symbols[0] == info;
    }

    /** A new entry for a name. */
    method Enter(name: Value, sort: Sort, origin: Origin) returns (info: Info)
      requires Valid() && name != NIL
      modifies this, eenv
      ensures Valid() && old(eenv.consts) <= eenv.consts && operators == old(operators)
      ensures info.name == Some(name) && info.si == |old(st)| && info.sort == SortOf(sort, origin)
      ensures info.vi == if origin.Visible? && origin.sort == Predef then origin.vi else 0
      ensures symbols == [info] + old(symbols) && st == old(st) + [info.ci] && vt == old(vt) + [info.vi]
    {
      ghost var before := eenv.consts;
      var ci := Intern(eenv, name);
      assert Valid() by {
        StillLeads(before);
      }
      var vi := Extend(Some(name), SortOf(sort, origin), Some(ci));
      if origin.Visible? && origin.sort == Predef {
        SetValue(origin.vi);
      }
      info := symbols[0];
    }

    /** The newest symbol's value is there already: its entry and its row in the value table say where. */
    method SetValue(vi: nat)
      requires Valid() && symbols != [] && symbols[0].si == |vt| - 1
      modifies this
      ensures Valid() && st == old(st) && operators == old(operators)
      ensures symbols == [old(symbols)[0].(vi := vi)] + old(symbols)[1..]
      ensures vt == old(vt)[..|vt| - 1] + [vi] && |vt| == |old(vt)|
    {
      IndicesBelow();
      symbols := [symbols[0].(vi := vi)] + symbols[1..];
      vt := vt[..|vt| - 1] + [vi];
    }

    /** More constants do not lead an entry astray. */
    lemma StillLeads(before: seq<Value>)
      requires before <= eenv.consts && |st| == |vt|
      requires forall k :: 0 <= k < |symbols| ==> LedIn(before, symbols[k])
      requires forall k :: 0 <= k < |operators| ==> LedIn(before, operators[k])
      ensures forall k :: 0 <= k < |symbols| ==> Leads(symbols[k])
      ensures forall k :: 0 <= k < |operators| ==> Leads(operators[k])
    {
    }

    /** What Leads says, of the constants as they were. */
    ghost predicate LedIn(consts: seq<Value>, info: Info)
      reads this
    {
      && info.si < |st| && |st| == |vt|
      && st[info.si] == info.ci && vt[info.si] == info.vi
      && (info.name.Some? <==> info.ci.Some?)
      && (info.name.Some? ==> info.ci.value < |consts| && consts[info.ci.value] == info.name.value)
    }

    /** Two entries never share an index, so no two names do. */
    lemma IndicesDistinct(j: nat, k: nat)
      requires Valid() && j < |symbols| && k < |symbols| && symbols[j].si == symbols[k].si
      ensures j == k
    {
    }

    /** From a symbol's index back to its name. */
    method NameOf(si: nat) returns (name: Option<Value>)
      requires Valid()
      ensures forall k :: 0 <= k < |symbols| && symbols[k].si == si ==> name == symbols[k].name
      ensures forall k :: 0 <= k < |operators| && operators[k].si == si ==> name == operators[k].name
      ensures si >= |st| ==> name == None
    {
      if si < |st| && st[si].Some? && st[si].value < |eenv.consts| {
        name := Some(eenv.consts[st[si].value]);
      } else {
        name := None;
      }
      assert forall k :: 0 <= k < |symbols| ==> Leads(symbols[k]);
      assert forall k :: 0 <= k < |operators| ==> Leads(operators[k]);
    }
  }
}
