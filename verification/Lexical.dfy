/**
  Lexical addresses.  The evaluator keeps a tree of names, innermost level first: a level of
  parameters for each frame, a level for each local that shares that frame, a level for each dynamic
  or environment variable.  A parameter or local gets an address: so many frames up, such a slot.
 */
module Lexical {

  import opened Options

  /** A symbol, or the unnamed slot that collects further arguments. */
  datatype Name = Unnamed | Sym(id: nat)

  datatype Sort = Param | Local | Dynamic | Environ

  datatype Entry = Entry(name: Name, sort: Sort, index: nat)

  type Level = seq<Entry>

  datatype Address = Slot(sort: Sort, i: nat, j: nat) | Scoped(sort: Sort, index: nat) | Global

  // Growing the tree

  /** Parameters, the last one first; each knows its own slot. */
  function ParamLevel(names: seq<Name>): (level: Level)
    ensures |level| == |names|
  {
    seq(|names|, k requires 0 <= k < |names| => Entry(names[|names| - 1 - k], Param, |names| - 1 - k))
  }

  method ExtendVparams(nt: seq<Level>, names: seq<Name>) returns (r: seq<Level>)
    ensures r == [ParamLevel(names)] + nt
  {
    var alist: Level := [];
    var i := 0;
    while i < |names|
      invariant 0 <= i <= |names| && |alist| == i
      invariant forall k :: 0 <= k < i ==> alist[k] == Entry(names[i - 1 - k], Param, i - 1 - k)
    {
      alist := [Entry(names[i], Param, i)] + alist;
      i := i + 1;
    }
    assert alist == ParamLevel(names);
    r := [alist] + nt;
  }

  /** A fixed number of parameters still takes a slot for further arguments. */
  method ExtendParams(nt: seq<Level>, names: seq<Name>) returns (r: seq<Level>)
    ensures r == [ParamLevel(names + [Unnamed])] + nt
  {
    r := ExtendVparams(nt, names + [Unnamed]);
  }

  /** The first free slot of the current frame. */
  function Base(nt: seq<Level>): (i: nat)
    decreases |nt|
  {
    if nt == [] || nt[0] == [] then 0
    else if nt[0][0].sort == Local then 1 + Base(nt[1..])
    else if nt[0][0].sort == Param then |nt[0]|
    else Base(nt[1..])
  }

  /** A local takes the slot after everything its frame already holds. */
  method ExtendLocal(nt: seq<Level>, name: Name) returns (r: seq<Level>)
    requires forall k :: 0 <= k < |nt| ==> nt[k] != []
    ensures r == [[Entry(name, Local, Base(nt))]] + nt
  {
    var i := 0;
    var k := 0;
    while k < |nt|
      invariant 0 <= k <= |nt|
      invariant i + Base(nt[k..]) == Base(nt)
    {
      assert nt[k..][1..] == nt[k + 1..];
      var first := nt[k][0];
      if first.sort == Local {
        i := i + 1;
      } else if first.sort == Param {
        i := i + |nt[k]|;
        break;
      }
      k := k + 1;
    }
    r := [[Entry(name, Local, i)]] + nt;
  }

  function ExtendScoped(nt: seq<Level>, name: Name, sort: Sort, index: nat): (r: seq<Level>)
    requires sort == Dynamic || sort == Environ
  {
    [[Entry(name, sort, index)]] + nt
  }

  predicate IsParams(level: Level) {
    level != [] && forall k :: 0 <= k < |level| ==> level[k].sort == Param && level[k].index == |level| - 1 - k
  }

  predicate IsLocal(level: Level, base: nat) {
    |level| == 1 && level[0].sort == Local && level[0].index == base
  }

  predicate IsScoped(level: Level) {
    |level| == 1 && (level[0].sort == Dynamic || level[0].sort == Environ)
  }

  predicate HasParams(nt: seq<Level>)
    decreases |nt|
  {
    nt != [] && (IsParams(nt[0]) || HasParams(nt[1..]))
  }

  /** The trees that the extensions make: a local only where there is a frame for it. */
  predicate Grown(nt: seq<Level>)
    decreases |nt|
  {
    nt == [] || (Grown(nt[1..]) && (IsParams(nt[0]) || IsScoped(nt[0]) || (IsLocal(nt[0], Base(nt[1..])) && HasParams(nt[1..]))))
  }

  /** Each extension of a grown tree is one. */
  lemma GrownByExtension(nt: seq<Level>, names: seq<Name>, name: Name, sort: Sort, index: nat)
    requires Grown(nt)
    ensures names != [] ==> Grown([ParamLevel(names)] + nt)
    ensures HasParams(nt) ==> Grown([[Entry(name, Local, Base(nt))]] + nt)
    ensures sort == Dynamic || sort == Environ ==> Grown(ExtendScoped(nt, name, sort, index))
  {
    assert ([ParamLevel(names)] + nt)[1..] == nt;
    assert ([[Entry(name, Local, Base(nt))]] + nt)[1..] == nt;
    assert ([[Entry(name, sort, index)]] + nt)[1..] == nt;
  }

  // Looking names up

  function Find(level: Level, name: Name): (r: Option<Entry>)
    decreases |level|
  {
    if level == [] then None else if level[0].name == name then Some(level[0]) else Find(level[1..], name)
  }

  function Lookup(nt: seq<Level>, name: Name, i: nat): (r: Address)
    decreases |nt|
  {
    if nt == [] then Global
    else
      match Find(nt[0], name)
      case Some(e) => if e.sort == Param || e.sort == Local then Slot(e.sort, i, e.index) else Scoped(e.sort, e.index)
      case None => Lookup(nt[1..], name, if nt[0] == [] || nt[0][0].sort == Param then i + 1 else i)
  }

  method LexicalLookup(nt: seq<Level>, name: Name) returns (r: Address)
    ensures r == Lookup(nt, name, 0)
  {
    var i := 0;
    var k := 0;
    while k < |nt|
      invariant 0 <= k <= |nt| && i >= 0
      invariant Lookup(nt, name, 0) == Lookup(nt[k..], name, i)
    {
      assert nt[k..][1..] == nt[k + 1..];
      var names := nt[k];
      if names != [] {
        var assq := Find(names, name);
        if assq.Some? {
          var e := assq.value;
          if e.sort == Param || e.sort == Local {
            return Slot(e.sort, i, e.index);
          } else {
            return Scoped(e.sort, e.index);
          }
        }
        if names[0].sort == Param {
          i := i + 1;
        }
      } else {
        i := i + 1;
      }
      k := k + 1;
    }
    r := Global;
  }

  lemma {:induction false} FindIs(level: Level, name: Name)
    ensures match Find(level, name)
      case Some(e) => e in level && e.name == name
      case None => forall k :: 0 <= k < |level| ==> level[k].name != name
    decreases |level|
  {
    if level != [] {
      FindIs(level[1..], name);
      assert forall k :: 1 <= k < |level| ==> level[k] == level[1..][k - 1];
    }
  }

  /** The depth counts only from where the search starts. */
  lemma {:induction false} LookupFrom(nt: seq<Level>, name: Name, i: nat)
    ensures Lookup(nt, name, i) == match Lookup(nt, name, 0)
      case Slot(sort, k, j) => Slot(sort, i + k, j)
      case other => other
    decreases |nt|
  {
    if nt != [] && Find(nt[0], name).None? {
      var d := if nt[0] == [] || nt[0][0].sort == Param then 1 else 0;
      LookupFrom(nt[1..], name, i + d);
      LookupFrom(nt[1..], name, d);
    }
  }

  // Addresses

  /** The name an address belongs to. */
  function SlotName(nt: seq<Level>, i: nat, j: nat): (name: Name)
    decreases |nt|
  {
    if nt == [] then Unnamed
    else if IsParams(nt[0]) then
      if i > 0 then SlotName(nt[1..], i - 1, j)
      else if j < |nt[0]| then nt[0][|nt[0]| - 1 - j].name else Unnamed
    else if |nt[0]| == 1 && nt[0][0].sort == Local && i == 0 && j == nt[0][0].index then nt[0][0].name
    else SlotName(nt[1..], i, j)
  }

  /** What Lookup finds in the level it finds it in. */
  lemma FoundHere(nt: seq<Level>, name: Name)
    requires Grown(nt) && nt != [] && Find(nt[0], name).Some?
    ensures var e := Find(nt[0], name).value;
      && e.name == name
      && (IsParams(nt[0]) ==> e.sort == Param && e.index < |nt[0]| && nt[0][|nt[0]| - 1 - e.index] == e)
      && (!IsParams(nt[0]) ==> e == nt[0][0])
  {
    FindIs(nt[0], name);
    var k :| 0 <= k < |nt[0]| && nt[0][k] == Find(nt[0], name).value;
  }

  lemma ParamsOrSingle(nt: seq<Level>)
    requires Grown(nt) && nt != []
    ensures nt[0] != [] && Grown(nt[1..])
    ensures IsParams(nt[0]) <==> nt[0][0].sort == Param
    ensures Base(nt) == if IsParams(nt[0]) then |nt[0]| else if nt[0][0].sort == Local then 1 + Base(nt[1..]) else Base(nt[1..])
  {
  }

  /** A slot of the current frame is below the first free one. */
  lemma {:induction false} BelowBase(nt: seq<Level>, name: Name)
    requires Grown(nt) && Lookup(nt, name, 0).Slot? && Lookup(nt, name, 0).i == 0
    ensures Lookup(nt, name, 0).j < Base(nt)
    decreases |nt|
  {
    hide Grown;
    ParamsOrSingle(nt);
    if Find(nt[0], name).Some? {
      FoundHere(nt, name);
      if nt[0][0].sort == Local {
        LocalIndex(nt);
      }
    } else {
      LookupFrom(nt[1..], name, if nt[0][0].sort == Param then 1 else 0);
      BelowBase(nt[1..], name);
    }
  }

  lemma LocalIndex(nt: seq<Level>)
    requires Grown(nt) && nt != [] && nt[0] != [] && nt[0][0].sort == Local
    ensures nt[0][0].index == Base(nt[1..]) && Base(nt) == 1 + Base(nt[1..])
  {
  }

  /** The address found for a name belongs to that name. */
  lemma {:induction false} AddressOwner(nt: seq<Level>, name: Name)
    requires Grown(nt) && Lookup(nt, name, 0).Slot?
    ensures var a := Lookup(nt, name, 0); SlotName(nt, a.i, a.j) == name
    decreases |nt|
  {
    hide Grown;
    ParamsOrSingle(nt);
    if Find(nt[0], name).Some? {
      FoundHere(nt, name);
      if !IsParams(nt[0]) {
        SingleLevel(nt);
      }
    } else {
      LookupFrom(nt[1..], name, if nt[0][0].sort == Param then 1 else 0);
      AddressOwner(nt[1..], name);
      var a := Lookup(nt[1..], name, 0);
      if nt[0][0].sort == Local && a.i == 0 {
        BelowBase(nt[1..], name);
        LocalIndex(nt);
      }
    }
  }

  /** Two names never share an address. */
  lemma AddressesDistinct(nt: seq<Level>, a: Name, b: Name)
    requires Grown(nt) && Lookup(nt, a, 0).Slot? && Lookup(nt, b, 0).Slot? && a != b
    ensures Lookup(nt, a, 0).i != Lookup(nt, b, 0).i || Lookup(nt, a, 0).j != Lookup(nt, b, 0).j
  {
    AddressOwner(nt, a);
    AddressOwner(nt, b);
  }

  /** A dynamic or environment level shifts no address. */
  lemma ScopedShiftsNothing(nt: seq<Level>, name: Name, sort: Sort, index: nat, other: Name)
    requires (sort == Dynamic || sort == Environ) && other != name
    ensures Lookup(ExtendScoped(nt, name, sort, index), other, 0) == Lookup(nt, other, 0)
    ensures Base(ExtendScoped(nt, name, sort, index)) == Base(nt)
  {
    var t := ExtendScoped(nt, name, sort, index);
    assert t[1..] == nt && t[0][1..] == [];
    assert Find(t[0], other) == Find(t[0][1..], other) == None;
  }

  // The names of the current frame

  /** Every name up to and including the frame's parameters, the most recent last. */
  function NamesOf(nt: seq<Level>): (r: seq<Name>)
    decreases |nt|
  {
    if nt == [] then []
    else (if AnyParam(nt[0]) then [] else NamesOf(nt[1..])) + LevelNames(nt[0])
  }

  predicate AnyParam(level: Level) {
    exists k :: 0 <= k < |level| && level[k].sort == Param
  }

  /** The names of a level, in the order opposite to the level's. */
  function LevelNames(level: Level): (r: seq<Name>)
    ensures |r| == |level|
  {
    seq(|level|, k requires 0 <= k < |level| => level[|level| - 1 - k].name)
  }

  /** The names of one level go in front, each before the last. */
  method LevelToList(level: Level, names: seq<Name>) returns (r: seq<Name>, params: bool)
    ensures r == LevelNames(level) + names && params == AnyParam(level)
  {
    r, params := names, false;
    var v := 0;
    while v < |level|
      invariant 0 <= v <= |level| && |r| == v + |names|
      invariant forall k :: 0 <= k < v ==> r[k] == level[v - 1 - k].name
      invariant forall k :: 0 <= k < |names| ==> r[v + k] == names[k]
      invariant params == exists k :: 0 <= k < v && level[k].sort == Param
    {
      r := [level[v].name] + r;
      params := params || level[v].sort == Param;
      v := v + 1;
    }
  }

  lemma NoNames()
    ensures NamesOf([]) == []
  {
  }

  lemma NamesStep(nt: seq<Level>, k: nat)
    requires k < |nt|
    ensures NamesOf(nt[k..]) == (if AnyParam(nt[k]) then [] else NamesOf(nt[k + 1..])) + LevelNames(nt[k])
  {
    hide LevelNames, AnyParam;
    assert nt[k..][0] == nt[k] && nt[k..][1..] == nt[k + 1..];
  }

  method NametreeToList(nt: seq<Level>) returns (r: seq<Name>)
    ensures r == NamesOf(nt)
  {
    hide LevelNames, AnyParam, NamesOf;
    NoNames();
    assert nt[0..] == nt;
    r := [];
    var done := false;
    var k := 0;
    while !done && k < |nt|
      invariant 0 <= k <= |nt|
      invariant NamesOf(nt) == (if done then [] else NamesOf(nt[k..])) + r
    {
      ghost var before := r;
      NamesStep(nt, k);
      r, done := LevelToList(nt[k], r);
      assert NamesOf(nt[k + 1..]) + LevelNames(nt[k]) + before == NamesOf(nt[k + 1..]) + (LevelNames(nt[k]) + before);
      k := k + 1;
    }
    assert k == |nt| ==> nt[k..] == [];
  }

  /** The frame size asked for when a local is made has room for the local's slot. */
  lemma {:induction false} RoomForLocals(nt: seq<Level>)
    requires Grown(nt) && HasParams(nt)
    ensures Base(nt) <= |NamesOf(nt)|
    decreases |nt|
  {
    hide Grown, LevelNames;
    ParamsOrSingle(nt);
    if !IsParams(nt[0]) {
      RoomForLocals(nt[1..]);
      SingleLevel(nt);
    }
  }

  lemma SingleLevel(nt: seq<Level>)
    requires Grown(nt) && nt != [] && !IsParams(nt[0])
    ensures |nt[0]| == 1 && nt[0][0].sort != Param
  {
  }
}
