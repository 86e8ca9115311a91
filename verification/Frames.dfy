/** Activation frames as the run-time keeps them: objects updated in place and linked into chains. */
module Frames {

  import opened Options
  import opened Machine

  /** Elements in front of a list that is already there. */
  function ListOnto(vs: seq<Value>, tail: Value): (v: Value)
    decreases |vs|
  {
    if vs == [] then tail else Pair(vs[0], ListOnto(vs[1..], tail))
  }

  lemma {:induction false} ListOntoNil(vs: seq<Value>)
    ensures ListOnto(vs, NIL) == ListOf(vs)
    decreases |vs|
  {
    if vs != [] {
      ListOntoNil(vs[1..]);
    }
  }

  class Activation {
    var args: seq<Value>
    var nparams: nat
    var next: Activation?

    /** NALLOC is the length of args: there is always room for the parameters and the slot after them. */
    ghost predicate Valid()
      reads this
    {
      nparams < |args|
    }

    constructor (arityp1: nat)
      requires arityp1 >= 1
      ensures Valid() && next == null && nparams == arityp1 - 1 && |args| == arityp1
      ensures forall i :: 0 <= i < nparams ==> args[i] == UNDEF
      ensures args[nparams] == NIL
    {
      next := null;
      nparams := arityp1 - 1;
      args := seq(arityp1 - 1, _ => UNDEF) + [NIL];
    }

    /** Room for more slots, unless the frame has them or a packed call left it larger. */
    method Extend(nalloc: nat)
      requires Valid() && nalloc >= 1
      modifies this`args
      ensures Valid() && old(args) <= args
      ensures |args| == if nparams + 1 == nalloc then |old(args)| else if nalloc < |old(args)| then |old(args)| else nalloc
      ensures forall i :: |old(args)| <= i < |args| ==> args[i] == UNDEF
    {
      var oalloc := |args|;
      if nparams + 1 == nalloc {
        return;
      } else if nalloc < oalloc {
        return;
      }
      var i := oalloc;
      while i < nalloc
        invariant oalloc <= i <= nalloc && |args| == i
        invariant old(args) <= args
        invariant forall k :: oalloc <= k < i ==> args[k] == UNDEF
      {
        args := args + [UNDEF];
        i := i + 1;
      }
    }

    /** The arguments from slot arity on are gathered in that slot, in order. */
    method Listify(arity: nat)
      requires Valid() && arity <= nparams
      modifies this`args
      ensures Valid() && |args| == |old(args)| && Lists(args[arity], old(args)[arity..nparams])
      ensures forall i :: 0 <= i < |args| && i != arity ==> args[i] == old(args)[i]
    {
      var index, result := nparams, NIL;
      while index != arity
        invariant arity <= index <= nparams && Lists(result, args[index..nparams])
      {
        assert args[index - 1..nparams][1..] == args[index..nparams];
        result := Pair(args[index - 1], result);
        index := index - 1;
      }
      args := args[arity := result];
    }

    /** The arguments from a position on, as a list that ends in whatever the slot after the parameters holds. */
    method ArgsAsListFrom(from: nat) returns (r: Value)
      requires Valid()
      ensures r == ListOnto(if from <= nparams then args[from..nparams] else [], args[nparams])
    {
      r := args[nparams];
      if nparams > 0 {
        var i: int := nparams - 1;
        assert from <= nparams ==> args[nparams..nparams] == [];
        while i >= from
          invariant from - 1 <= i <= nparams - 1 || (from >= nparams && i == nparams - 1)
          invariant r == ListOnto(if from <= nparams then args[i + 1..nparams] else [], args[nparams])
        {
          assert args[i..nparams][1..] == args[i + 1..nparams];
          r := Pair(args[i], r);
          i := i - 1;
        }
      } else {
        assert args[0..0] == [];
      }
    }
  }

  /** A set of frames that holds every frame its frames link to. */
  ghost predicate Closed(fs: set<Activation>)
    reads fs`next
  {
    forall a :: a in fs && a.next != null ==> a.next in fs
  }

  /** d links up the chain; null when it ends first. */
  ghost function Above(fs: set<Activation>, fo: Activation?, d: nat): (g: Activation?)
    requires Closed(fs) && (fo != null ==> fo in fs)
    reads fs`next
    ensures g != null ==> g in fs
    decreases d
  {
    if d == 0 || fo == null then fo else Above(fs, fo.next, d - 1)
  }

  ghost function Slot(fs: set<Activation>, fo: Activation?, d: nat, i: nat): (r: Option<Value>)
    requires Closed(fs) && (fo != null ==> fo in fs)
    reads fs
  {
    var g := Above(fs, fo, d);
    if g != null && i < |g.args| then Some(g.args[i]) else None
  }

  method Climb(ghost fs: set<Activation>, fo: Activation?, d: nat) returns (g: Activation?)
    requires Closed(fs) && (fo != null ==> fo in fs)
    ensures g == Above(fs, fo, d)
  {
    g := fo;
    var td := d;
    while td > 0 && g != null
      invariant 0 <= td <= d && (g != null ==> g in fs)
      invariant Above(fs, fo, d) == Above(fs, g, td)
    {
      g := g.next;
      td := td - 1;
    }
  }

  method Fetch(ghost fs: set<Activation>, fo: Activation?, d: nat, i: nat) returns (r: Option<Value>)
    requires Closed(fs) && (fo != null ==> fo in fs)
    ensures r == Slot(fs, fo, d, i)
  {
    var g := Climb(fs, fo, d);
    r := if g != null && i < |g.args| then Some(g.args[i]) else None;
  }

  /** One slot of one frame changes; every other slot of the chain reads as before. */
  method Update(ghost fs: set<Activation>, fo: Activation?, d: nat, i: nat, v: Value) returns (ok: bool)
    requires Closed(fs) && (fo != null ==> fo in fs)
    modifies fs`args
    ensures Closed(fs) && ok == old(Slot(fs, fo, d, i)).Some?
    ensures !ok ==> unchanged(fs)
    ensures ok ==> var g := Above(fs, fo, d); g.args == old(g.args)[i := v] && unchanged(fs - {g})
    ensures forall e: nat, j: nat :: ok ==>
      Slot(fs, fo, e, j) == if Above(fs, fo, e) == Above(fs, fo, d) && j == i then Some(v) else old(Slot(fs, fo, e, j))
  {
    var g := Climb(fs, fo, d);
    ok := g != null && i < |g.args|;
    if ok {
      g.args := g.args[i := v];
    }
  }

  /** f2 goes in front of f1: when f2 is new, its own slots are at depth 0, and those of f1's chain one deeper than before. */
  method LinkFrame(ghost fs: set<Activation>, f1: Activation?, f2: Activation) returns (f: Activation)
    requires Closed(fs) && (f1 != null ==> f1 in fs)
    modifies f2`next
    ensures f == f2 && f2.next == f1 && Closed(fs) && Closed(fs + {f2})
    ensures forall j: nat :: Slot(fs + {f2}, f, 0, j) == if j < |f2.args| then Some(f2.args[j]) else None
    ensures forall e: nat, j: nat :: f2 !in fs ==> Slot(fs + {f2}, f, e + 1, j) == Slot(fs, f1, e, j)
  {
    f2.next := f1;
    f := f2;
    forall e: nat, j: nat | f2 !in fs
      ensures Slot(fs + {f2}, f, e + 1, j) == Slot(fs, f1, e, j)
    {
      WiderChain(fs, f2, f1, e);
      assert Above(fs + {f2}, f, e + 1) == Above(fs + {f2}, f1, e);
    }
  }

  lemma {:induction false} WiderChain(fs: set<Activation>, f2: Activation, fo: Activation?, d: nat)
    requires Closed(fs) && Closed(fs + {f2}) && (fo != null ==> fo in fs)
    ensures Above(fs + {f2}, fo, d) == Above(fs, fo, d)
    decreases d
  {
    if d > 0 && fo != null {
      WiderChain(fs, f2, fo.next, d - 1);
    }
  }
}
