/**
  The run-time side of lexical addresses: a chain of frames that holds the bindings a tree of names
  stands for.  Entering a function, making a local and assigning keep the two in step, so that the
  address of a name always leads to its innermost binding.
 */
module Bindings {

  import opened Options
  import opened Machine
  import opened Lexical

  /** A frame holds the parameters of its function; it is younger than the frame it is linked to. */
  predicate HoldsParams(level: Level, vs: seq<Value>, frames: seq<Frame>, f: Link) {
    && f.Frm? && f.a < |frames|
    && frames[f.a].nparams < |frames[f.a].args|
    && |vs| == |level| <= |frames[f.a].args|
    && (forall j :: 0 <= j < |level| ==> frames[f.a].args[j] == vs[j])
    && (frames[f.a].next.Frm? ==> frames[f.a].next.a < f.a)
  }

  /** A local has its slot in the current frame; a dynamic variable has none. */
  predicate HoldsSingle(level: Level, vs: seq<Value>, frames: seq<Frame>, f: Link) {
    && (level != [] && level[0].sort == Local ==>
      |vs| == 1 && HasSlot(frames, f, level[0].index) && frames[f.a].args[level[0].index] == vs[0])
    && (level == [] || level[0].sort != Local ==> vs == [])
  }

  /** The frames from f hold the values re, level by level. */
  predicate Represents(nt: seq<Level>, re: seq<seq<Value>>, frames: seq<Frame>, f: Link)
    decreases |nt|
  {
    && |re| == |nt|
    && (nt != [] && IsParams(nt[0]) ==>
      HoldsParams(nt[0], re[0], frames, f) && Represents(nt[1..], re[1..], frames, frames[f.a].next))
    && (nt != [] && !IsParams(nt[0]) ==>
      HoldsSingle(nt[0], re[0], frames, f) && Represents(nt[1..], re[1..], frames, f))
  }

  lemma ParamsInFront(nt: seq<Level>, re: seq<seq<Value>>, frames: seq<Frame>, f: Link, level: Level, vs: seq<Value>)
    requires IsParams(level) && HoldsParams(level, vs, frames, f) && Represents(nt, re, frames, frames[f.a].next)
    ensures Represents([level] + nt, [vs] + re, frames, f)
  {
    hide IsParams;
    assert ([level] + nt)[1..] == nt && ([vs] + re)[1..] == re;
  }

  /** The value of the innermost binding of a name; none if it is dynamic, in the environment, or global. */
  function Innermost(nt: seq<Level>, re: seq<seq<Value>>, name: Name): (r: Option<Value>)
    requires |re| == |nt|
    decreases |nt|
  {
    if nt == [] then None
    else
      match Find(nt[0], name)
      case None => Innermost(nt[1..], re[1..], name)
      case Some(e) =>
        if e.sort == Param && e.index < |re[0]| then Some(re[0][e.index])
        else if e.sort == Local && |re[0]| == 1 then Some(re[0][0])
        else None
  }

  /** The frame chain read at a name's address gives its innermost binding. */
  lemma {:induction false} FetchFinds(nt: seq<Level>, re: seq<seq<Value>>, frames: seq<Frame>, f: Link, name: Name)
    requires Grown(nt) && Represents(nt, re, frames, f) && Lookup(nt, name, 0).Slot?
    ensures |re| == |nt| && Innermost(nt, re, name).Some?
    ensures var a := Lookup(nt, name, 0); Fetch(frames, f, a.i, a.j) == Innermost(nt, re, name)
    decreases |nt|
  {
    hide Grown;
    ParamsOrSingle(nt);
    if Find(nt[0], name).Some? {
      FoundHere(nt, name);
    } else {
      LookupFrom(nt[1..], name, if nt[0][0].sort == Param then 1 else 0);
      FetchFinds(nt[1..], re[1..], frames, if IsParams(nt[0]) then frames[f.a].next else f, name);
    }
  }

  /** Only the frames at or below f matter. */
  lemma {:induction false} OnlyChain(nt: seq<Level>, re: seq<seq<Value>>, frames: seq<Frame>, after: seq<Frame>, f: Link)
    requires Represents(nt, re, frames, f) && |frames| <= |after|
    requires f.Frm? ==> forall a :: 0 <= a <= f.a && a < |frames| ==> after[a] == frames[a]
    ensures Represents(nt, re, after, f)
    decreases |nt|
  {
    if nt != [] {
      OnlyChain(nt[1..], re[1..], frames, after, if IsParams(nt[0]) then frames[f.a].next else f);
    }
  }

  /** The current frame may gain slots, and the slots from the first free one on may change. */
  lemma {:induction false} FreeSlots(nt: seq<Level>, re: seq<seq<Value>>, frames: seq<Frame>, f: Link, fr: Frame)
    requires Grown(nt) && Represents(nt, re, frames, f) && f.Frm? && f.a < |frames|
    requires fr.nparams == frames[f.a].nparams && fr.next == frames[f.a].next && |frames[f.a].args| <= |fr.args|
    requires forall j :: 0 <= j < Base(nt) && j < |frames[f.a].args| ==> fr.args[j] == frames[f.a].args[j]
    ensures Represents(nt, re, frames[f.a := fr], f)
    decreases |nt|
  {
    hide Grown;
    if nt != [] {
      ParamsOrSingle(nt);
      if IsParams(nt[0]) {
        OnlyChain(nt[1..], re[1..], frames, frames[f.a := fr], fr.next);
      } else {
        if nt[0][0].sort == Local {
          LocalIndex(nt);
        }
        FreeSlots(nt[1..], re[1..], frames, f, fr);
      }
    }
  }

  /** Entering a function: its frame goes in front of the closure's, its parameters in front of the names. */
  lemma EnterKeeps(nt: seq<Level>, re: seq<seq<Value>>, frames: seq<Frame>, env: Link, names: seq<Name>, fr: Frame)
    requires Represents(nt, re, frames, env) && (env.Frm? ==> env.a < |frames|)
    requires names != [] && |names| <= |fr.args| && fr.nparams < |fr.args|
    ensures Represents([ParamLevel(names)] + nt, [fr.args[..|names|]] + re, frames + [fr.(next := env)], Frm(|frames|))
  {
    hide Represents;
    var frames1 := frames + [fr.(next := env)];
    OnlyChain(nt, re, frames, frames1, env);
    ParamsInFront(nt, re, frames1, Frm(|frames|), ParamLevel(names), fr.args[..|names|]);
  }

  /** Making a local: the frame is extended as far as the list of names says, and that is far enough. */
  lemma LocalKeeps(nt: seq<Level>, re: seq<seq<Value>>, st: Store, f: Link, name: Name, v: Value)
    requires Grown(nt) && HasParams(nt) && Represents(nt, re, st.frames, f)
    ensures var nt1 := [[Entry(name, Local, Base(nt))]] + nt;
      var s1 := Extend(st, f, |NamesOf(nt1)|);
      && s1.Some?
      && var s2 := Update(s1.value, f, 0, Base(nt), v);
         s2.Some? && Represents(nt1, [[v]] + re, s2.value.frames, f)
  {
    var nt1, re1 := [[Entry(name, Local, Base(nt))]] + nt, [[v]] + re;
    assert nt1[1..] == nt && re1[1..] == re;
    GrownByExtension(nt, [], name, Dynamic, 0);
    RoomForLocals(nt1);
    HasFrame(nt, re, st.frames, f);
    var old1 := st.frames[f.a];
    var fr := Extended(old1, |NamesOf(nt1)|);
    assert Base(nt1) == 1 + Base(nt);
    assert Base(nt) < |fr.args|;
    var s1 := Extend(st, f, |NamesOf(nt1)|).value;
    assert s1.frames[f.a] == fr;
    var s2 := Update(s1, f, 0, Base(nt), v).value;
    var fr2 := fr.(args := fr.args[Base(nt) := v]);
    assert s2.frames == st.frames[f.a := fr2];
    FreeSlots(nt, re, st.frames, f, fr2);
  }

  lemma {:induction false} HasFrame(nt: seq<Level>, re: seq<seq<Value>>, frames: seq<Frame>, f: Link)
    requires HasParams(nt) && Represents(nt, re, frames, f)
    ensures f.Frm? && f.a < |frames| && frames[f.a].nparams < |frames[f.a].args|
    decreases |nt|
  {
    if !IsParams(nt[0]) {
      HasFrame(nt[1..], re[1..], frames, f);
    }
  }

  /** The bindings after an assignment: the innermost binding of the name is changed, no other. */
  function Assigned(nt: seq<Level>, re: seq<seq<Value>>, name: Name, v: Value): (r: seq<seq<Value>>)
    requires |re| == |nt|
    ensures |r| == |re|
    decreases |nt|
  {
    if nt == [] then []
    else
      match Find(nt[0], name)
      case None => [re[0]] + Assigned(nt[1..], re[1..], name, v)
      case Some(e) =>
        if e.sort == Param && e.index < |re[0]| then [re[0][e.index := v]] + re[1..]
        else if e.sort == Local && |re[0]| == 1 then [[v]] + re[1..]
        else re
  }

  /** Assigning through a name's address changes exactly its innermost binding. */
  lemma {:induction false} AssignKeeps(nt: seq<Level>, re: seq<seq<Value>>, st: Store, f: Link, name: Name, v: Value)
    requires Grown(nt) && Represents(nt, re, st.frames, f) && Lookup(nt, name, 0).Slot?
    ensures AssignsWell(nt, re, st, f, name, v)
    decreases |nt|
  {
    hide Grown, AssignsWell, Represents;
    ParamsOrSingle(nt);
    if Find(nt[0], name).Some? {
      AssignHere(nt, re, st, f, name, v);
    } else {
      Inner(nt, re, st.frames, f);
      LookupFrom(nt[1..], name, if nt[0][0].sort == Param then 1 else 0);
      if IsParams(nt[0]) {
        AssignKeeps(nt[1..], re[1..], st, st.frames[f.a].next, name, v);
        AssignOuter(nt, re, st, f, name, v);
      } else {
        AssignKeeps(nt[1..], re[1..], st, f, name, v);
        AssignBehind(nt, re, st, f, name, v);
      }
    }
  }

  predicate AssignsWell(nt: seq<Level>, re: seq<seq<Value>>, st: Store, f: Link, name: Name, v: Value)
    requires Lookup(nt, name, 0).Slot?
  {
    var a := Lookup(nt, name, 0);
    var s1 := Update(st, f, a.i, a.j, v);
    |re| == |nt| && s1.Some? && Represents(nt, Assigned(nt, re, name, v), s1.value.frames, f) && Changed(st.frames, f, s1.value.frames, a)
  }

  lemma Inner(nt: seq<Level>, re: seq<seq<Value>>, frames: seq<Frame>, f: Link)
    requires nt != [] && Represents(nt, re, frames, f)
    ensures |re| == |nt|
    ensures IsParams(nt[0]) ==> HoldsParams(nt[0], re[0], frames, f) && f.Frm? && f.a < |frames|
    ensures IsParams(nt[0]) ==> Represents(nt[1..], re[1..], frames, frames[f.a].next)
    ensures !IsParams(nt[0]) ==> Represents(nt[1..], re[1..], frames, f)
  {
  }

  lemma AssignHere(nt: seq<Level>, re: seq<seq<Value>>, st: Store, f: Link, name: Name, v: Value)
    requires Grown(nt) && Represents(nt, re, st.frames, f) && nt != [] && Find(nt[0], name).Some? && Lookup(nt, name, 0).Slot?
    ensures AssignsWell(nt, re, st, f, name, v)
  {
    hide Grown;
    ParamsOrSingle(nt);
    FoundHere(nt, name);
    var a := Lookup(nt, name, 0);
    var re1 := Assigned(nt, re, name, v);
    var fr := st.frames[f.a].(args := st.frames[f.a].args[a.j := v]);
    var after := st.frames[f.a := fr];
    assert Update(st, f, a.i, a.j, v) == Some(st.(frames := after));
    assert re1[1..] == re[1..];
    if IsParams(nt[0]) {
      OnlyChain(nt[1..], re[1..], st.frames, after, fr.next);
    } else {
      SingleLevel(nt);
      LocalIndex(nt);
      FreeSlots(nt[1..], re[1..], st.frames, f, fr);
    }
  }

  /** The name is in an outer function's frame. */
  lemma AssignOuter(nt: seq<Level>, re: seq<seq<Value>>, st: Store, f: Link, name: Name, v: Value)
    requires Represents(nt, re, st.frames, f) && nt != [] && IsParams(nt[0]) && Find(nt[0], name).None?
    requires Lookup(nt, name, 0).Slot? && Lookup(nt[1..], name, 0).Slot?
    requires AssignsWell(nt[1..], re[1..], st, st.frames[f.a].next, name, v)
    ensures AssignsWell(nt, re, st, f, name, v)
  {
    hide Represents, Lookup, Assigned, Update, Up, HoldsParams, IsParams;
    Inner(nt, re, st.frames, f);
    OuterStep(nt, re, st, f, name, v);
    var b := Lookup(nt[1..], name, 0);
    var after := Update(st, st.frames[f.a].next, b.i, b.j, v).value.frames;
    KeepsParams(nt[0], re[0], st.frames, f, after, b);
    ParamsInFront(nt[1..], Assigned(nt[1..], re[1..], name, v), after, f, nt[0], re[0]);
    assert [nt[0]] + nt[1..] == nt;
  }

  /** Behind a level of parameters everything is one frame further up. */
  lemma OuterStep(nt: seq<Level>, re: seq<seq<Value>>, st: Store, f: Link, name: Name, v: Value)
    requires nt != [] && |re| == |nt| && IsParams(nt[0]) && Find(nt[0], name).None? && Lookup(nt[1..], name, 0).Slot?
    requires f.Frm? && f.a < |st.frames|
    ensures var b := Lookup(nt[1..], name, 0); Lookup(nt, name, 0) == Slot(b.sort, b.i + 1, b.j)
    ensures Assigned(nt, re, name, v) == [re[0]] + Assigned(nt[1..], re[1..], name, v)
    ensures var b, next := Lookup(nt[1..], name, 0), st.frames[f.a].next;
      && Update(st, f, b.i + 1, b.j, v) == Update(st, next, b.i, b.j, v)
      && Up(st.frames, f, b.i + 1) == Up(st.frames, next, b.i)
  {
    LookupFrom(nt[1..], name, 1);
  }

  /** A change further up leaves this frame alone. */
  lemma KeepsParams(level: Level, vs: seq<Value>, frames: seq<Frame>, f: Link, after: seq<Frame>, b: Address)
    requires HoldsParams(level, vs, frames, f) && b.Slot? && Changed(frames, frames[f.a].next, after, b)
    ensures HoldsParams(level, vs, after, f) && after[f.a] == frames[f.a]
    ensures Up(frames, frames[f.a].next, b.i).a < f.a
  {
    hide Up;
  }

  /** The name is behind a local or a dynamic variable. */
  lemma AssignBehind(nt: seq<Level>, re: seq<seq<Value>>, st: Store, f: Link, name: Name, v: Value)
    requires Grown(nt) && Represents(nt, re, st.frames, f) && nt != [] && !IsParams(nt[0]) && Find(nt[0], name).None?
    requires Lookup(nt, name, 0).Slot? && Lookup(nt[1..], name, 0).Slot?
    requires AssignsWell(nt[1..], re[1..], st, f, name, v)
    ensures AssignsWell(nt, re, st, f, name, v)
  {
    hide Grown;
    ParamsOrSingle(nt);
    var a := Lookup(nt, name, 0);
    assert a == Lookup(nt[1..], name, 0);
    var re1 := Assigned(nt, re, name, v);
    assert re1[1..] == Assigned(nt[1..], re[1..], name, v) && re1[0] == re[0];
    if nt[0][0].sort == Local && a.i == 0 {
      BelowBase(nt[1..], name);
      LocalIndex(nt);
    }
  }

  /** Of the frames, only the one a.i links up from f changed, and of that only slot a.j. */
  predicate Changed(frames: seq<Frame>, f: Link, after: seq<Frame>, a: Address)
    requires a.Slot?
  {
    var g := Up(frames, f, a.i);
    && f.Frm? && g.Frm? && g.a < |frames| && |after| == |frames| && g.a <= f.a && (a.i > 0 ==> g.a < f.a)
    && a.j < |frames[g.a].args|
    && after[g.a].nparams == frames[g.a].nparams && after[g.a].next == frames[g.a].next
    && |after[g.a].args| == |frames[g.a].args|
    && (forall j :: 0 <= j < |frames[g.a].args| && j != a.j ==> after[g.a].args[j] == frames[g.a].args[j])
    && (forall x :: 0 <= x < |frames| && x != g.a ==> after[x] == frames[x])
  }
}
