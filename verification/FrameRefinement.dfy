/** The frames in the heap and the frames of the step machine: every operation on the one is the operation on the other. */
module FrameRefinement {

  import opened Options
  import M = Machine
  import opened Frames

  /** All frames there are, in the order they were made: no frame twice, and links only lead to frames. */
  ghost predicate Heap(order: seq<Activation>)
    reads order
  {
    && (forall j, k :: 0 <= j < k < |order| ==> order[j] != order[k])
    && (forall k :: 0 <= k < |order| ==> Known(order, order[k].next) && order[k].Valid())
  }

  ghost predicate Known(order: seq<Activation>, fo: Activation?) {
    fo == null || fo in order
  }

  /** A frame is known to the machine by its place. */
  ghost function Place(order: seq<Activation>, fo: Activation): (k: nat)
    requires fo in order
    ensures k < |order| && order[k] == fo
  {
    if order[0] == fo then 0 else 1 + Place(order[1..], fo)
  }

  ghost function LinkOf(order: seq<Activation>, fo: Activation?): M.Link
    requires Known(order, fo)
  {
    if fo == null then M.NoFrame else M.Frm(Place(order, fo))
  }

  ghost function FrameOf(order: seq<Activation>, fo: Activation): M.Frame
    requires Known(order, fo.next)
    reads fo
  {
    M.Frame(fo.args, fo.nparams, LinkOf(order, fo.next))
  }

  ghost function FramesOf(order: seq<Activation>): (frames: seq<M.Frame>)
    requires Heap(order)
    reads order
    ensures |frames| == |order|
    ensures forall k :: 0 <= k < |order| ==> frames[k] == FrameOf(order, order[k])
  {
    seq(|order|, k requires 0 <= k < |order| reads order requires Heap(order) => FrameOf(order, order[k]))
  }

  ghost function SetOf(order: seq<Activation>): set<Activation> {
    set a | a in order
  }

  lemma PlaceIs(order: seq<Activation>, k: nat)
    requires Heap(order) && k < |order|
    ensures Place(order, order[k]) == k
  {
  }

  lemma HeapClosed(order: seq<Activation>)
    requires Heap(order)
    ensures Closed(SetOf(order))
  {
    forall a | a in SetOf(order) && a.next != null
      ensures a.next in SetOf(order)
    {
      var k :| 0 <= k < |order| && order[k] == a;
    }
  }

  /** Climbing the heap is climbing the machine's chain. */
  lemma {:induction false} UpIs(order: seq<Activation>, fo: Activation?, d: nat)
    requires Heap(order) && Known(order, fo) && Closed(SetOf(order))
    ensures Known(order, Above(SetOf(order), fo, d))
    ensures LinkOf(order, Above(SetOf(order), fo, d)) == M.Up(FramesOf(order), LinkOf(order, fo), d)
    decreases d
  {
    if d > 0 && fo != null {
      UpIs(order, fo.next, d - 1);
    }
  }

  method Fetches(ghost order: seq<Activation>, fo: Activation?, d: nat, j: nat) returns (r: Option<M.Value>)
    requires Heap(order) && Known(order, fo)
    ensures r == M.Fetch(FramesOf(order), LinkOf(order, fo), d, j)
  {
    HeapClosed(order);
    UpIs(order, fo, d);
    r := Fetch(SetOf(order), fo, d, j);
  }

  /** A heap that differs in the contents of one frame differs in that place only. */
  lemma OneChanged(order: seq<Activation>, before: seq<M.Frame>, k: nat)
    requires Heap(order) && |before| == |order| && k < |order|
    requires forall i :: 0 <= i < |order| ==> before[i].nparams == order[i].nparams && before[i].next == LinkOf(order, order[i].next)
    requires forall i :: 0 <= i < |order| && i != k ==> before[i].args == order[i].args
    ensures FramesOf(order) == before[k := before[k].(args := order[k].args)]
  {
  }

  method Updates(ghost order: seq<Activation>, fo: Activation?, d: nat, j: nat, v: M.Value, ghost values: map<nat, M.Value>) returns (ok: bool)
    requires Heap(order) && Known(order, fo)
    modifies SetOf(order)`args
    ensures Heap(order)
    ensures var r := M.Update(M.Store(old(FramesOf(order)), values), LinkOf(order, fo), d, j, v);
      ok == r.Some? && FramesOf(order) == if ok then r.value.frames else old(FramesOf(order))
  {
    hide M.Up;
    HeapClosed(order);
    UpIs(order, fo, d);
    ghost var g, before := Above(SetOf(order), fo, d), FramesOf(order);
    ok := Update(SetOf(order), fo, d, j, v);
    if ok {
      PlaceIs(order, Place(order, g));
      OneChanged(order, before, Place(order, g));
    }
  }

  method Extends(ghost order: seq<Activation>, fo: Activation, size: nat, ghost values: map<nat, M.Value>)
    requires Heap(order) && fo in order && size >= 1
    modifies fo`args
    ensures Heap(order)
    ensures M.Extend(M.Store(old(FramesOf(order)), values), LinkOf(order, fo), size) == Some(M.Store(FramesOf(order), values))
  {
    ghost var before := FramesOf(order);
    fo.Extend(size);
    OneChanged(order, before, Place(order, fo));
    assert fo.args == M.Extended(old(FrameOf(order, fo)), size).args;
  }

  /** Gathering the further arguments of a frame of the heap is packing the machine's. */
  method Packs(ghost order: seq<Activation>, fo: Activation, arity: nat, ghost values: map<nat, M.Value>)
    requires Heap(order) && fo in order && arity <= fo.nparams
    modifies fo`args
    ensures Heap(order)
    ensures M.Pack(M.Store(old(FramesOf(order)), values), M.FrameRef(Place(order, fo)), arity) == Some(M.Store(FramesOf(order), values))
  {
    hide M.ListOf, M.Lists;
    ghost var before, k := FramesOf(order), Place(order, fo);
    ghost var rest := fo.args[arity..fo.nparams];
    fo.Listify(arity);
    OneChanged(order, before, k);
    M.OneList(fo.args[arity], M.ListOf(rest), rest);
    assert fo.args == before[k].args[arity := M.ListOf(rest)];
  }

  /** A new frame comes last; the others keep their places. */
  method Allocates(ghost order: seq<Activation>, size: nat, ghost values: map<nat, M.Value>) returns (fo: Activation)
    requires Heap(order) && size >= 1
    ensures fresh(fo) && Heap(order + [fo])
    ensures M.Allocate(M.Store(FramesOf(order), values), size)
      == Some((M.FrameRef(Place(order + [fo], fo)), M.Store(FramesOf(order + [fo]), values)))
  {
    fo := new Activation(size);
    assert fo.args == seq(size - 1, _ => M.UNDEF) + [M.NIL];
    PlacesKept(order, fo);
  }

  lemma PlacesKept(order: seq<Activation>, fo: Activation)
    requires Heap(order) && fo !in order && fo.Valid() && fo.next == null
    ensures Heap(order + [fo]) && Place(order + [fo], fo) == |order|
    ensures FramesOf(order + [fo]) == FramesOf(order) + [FrameOf(order, fo)]
  {
    var more := order + [fo];
    assert Heap(more) by {
      assert forall k :: 0 <= k < |order| ==> more[k] == order[k] && Known(order, order[k].next);
    }
    PlaceIs(more, |order|);
    forall k | 0 <= k < |order|
      ensures LinkOf(more, order[k].next) == LinkOf(order, order[k].next)
    {
      if order[k].next != null {
        PlaceIs(more, Place(order, order[k].next));
      }
    }
  }

  method Links(ghost order: seq<Activation>, f1: Activation?, f2: Activation, ghost values: map<nat, M.Value>)
    requires Heap(order) && Known(order, f1) && f2 in order
    modifies f2`next
    ensures Heap(order)
    ensures M.LinkTo(M.Store(old(FramesOf(order)), values), M.FrameRef(Place(order, f2)), LinkOf(order, f1))
      == Some(M.Store(FramesOf(order), values))
  {
    HeapClosed(order);
    ghost var before, k := FramesOf(order), Place(order, f2);
    var _ := LinkFrame(SetOf(order), f1, f2);
    PlaceIs(order, k);
    assert forall i :: 0 <= i < |order| && i != k ==> FramesOf(order)[i] == before[i];
    assert FramesOf(order) == before[k := before[k].(next := LinkOf(order, f1))];
  }
}
