/**
 The lists of open upvalues as they are stored (lfunc.c): one singly linked list per thread, sorted
 by stack level, and the doubly linked `uvhead' list. Places in the heap stand for addresses.
 */
module UpvalLists {
  import opened Basics
  import opened Upvalues

  const NULL: int := -1

  /** the `v' of an upvalue that holds its own value */
  const CLOSED: int := -1

  /** struct UpVal */
  datatype Cell = Cell(v: int, value: Value, next: int, uprev: nat, unext: nat)

  /** uvhead is in the first place of the heap. */
  const HEAD: nat := 0

  function AsUpVal(c: Cell): UpVal { if c.v >= 0 then Open(c.v) else Closed(c.value) }

  /** From `head', the `next' links visit exactly `list'. */
  ghost predicate Chain(heap: seq<Cell>, head: int, list: seq<nat>)
    decreases |list|
  {
    if list == [] then head == NULL
    else head == list[0] && 0 < list[0] < |heap| && Chain(heap, heap[list[0]].next, list[1..])
  }

  lemma {:induction false} ChainFrame(heap: seq<Cell>, heap': seq<Cell>, head: int, list: seq<nat>)
    requires Chain(heap, head, list) && |heap| <= |heap'|
    requires forall i :: i in list && i < |heap| ==> heap'[i].next == heap[i].next
    ensures Chain(heap', head, list)
    decreases |list|
  {
    if list != [] { ChainFrame(heap, heap', heap[list[0]].next, list[1..]); }
  }

  /** Splitting a chain: the first part ends where the rest begins. */
  ghost predicate Segment(heap: seq<Cell>, head: int, list: seq<nat>, end: int)
    decreases |list|
  {
    if list == [] then head == end
    else head == list[0] && 0 < list[0] < |heap| && Segment(heap, heap[list[0]].next, list[1..], end)
  }

  lemma {:induction false} SegmentMore(heap: seq<Cell>, head: int, list: seq<nat>, p: nat)
    requires Segment(heap, head, list, p) && 0 < p < |heap|
    ensures Segment(heap, head, list + [p], heap[p].next)
    decreases |list|
  {
    if list == [] {
      assert (list + [p])[1..] == [];
    } else {
      SegmentMore(heap, heap[list[0]].next, list[1..], p);
      assert (list + [p])[1..] == list[1..] + [p];
    }
  }

  /** A new cell between the two parts */
  lemma {:induction false} SegmentInsert(heap: seq<Cell>, heap': seq<Cell>, head: int, a: seq<nat>, b: seq<nat>,
                                         end: int, n: nat)
    requires Segment(heap, head, a, end) && Chain(heap, end, b) && 0 < n < |heap'| && |heap| <= |heap'| && a != []
    requires forall i :: 0 <= i < |a| ==> a[i] < |heap|
    requires heap'[n].next == end && heap'[a[|a| - 1]].next == n
    requires forall i :: 0 <= i < |a| - 1 ==> heap'[a[i]].next == heap[a[i]].next
    requires forall i :: i in b && i < |heap| ==> heap'[i].next == heap[i].next
    ensures Chain(heap', head, a + [n] + b)
    decreases |a|
  {
    ChainFrame(heap, heap', end, b);
    assert (a + [n] + b)[1..] == a[1..] + [n] + b;
    if |a| == 1 {
      assert a[1..] + [n] + b == [n] + b && ([n] + b)[1..] == b;
    } else {
      assert a[1..][|a| - 2] == a[|a| - 1];
      SegmentInsert(heap, heap', heap[a[0]].next, a[1..], b, end, n);
    }
  }

  ghost predicate Decreasing(heap: seq<Cell>, open: seq<nat>) {
    && (forall i :: 0 <= i < |open| ==> open[i] < |heap| && heap[open[i]].v >= 0)
    && forall i, j :: 0 <= i < j < |open| ==> heap[open[i]].v > heap[open[j]].v
  }

  /** The uvhead list, once around: `ring' begins and ends with uvhead. */
  ghost predicate Ring(heap: seq<Cell>, ring: seq<nat>) {
    && |ring| >= 2 && ring[0] == ring[|ring| - 1] == HEAD
    && (forall i :: 0 <= i < |ring| ==> ring[i] < |heap|)
    && (forall i, j :: 0 <= i < j < |ring| - 1 ==> ring[i] != ring[j])
    && (forall i :: 0 <= i < |ring| - 1 ==> heap[ring[i]].unext == ring[i + 1] && heap[ring[i + 1]].uprev == ring[i])
  }

  function LinkFront(heap: seq<Cell>, n: nat): (r: seq<Cell>)
    requires 0 < n < |heap| && heap[HEAD].unext < |heap|
    ensures |r| == |heap|
  {
    var first := heap[HEAD].unext;
    var h1 := heap[n := heap[n].(uprev := HEAD, unext := first)];
    var h2 := h1[first := h1[first].(uprev := n)];
    h2[HEAD := h2[HEAD].(unext := n)]
  }

  /** A new upvalue goes to the front of the uvhead list. */
  lemma RingInsert(heap: seq<Cell>, ring: seq<nat>, n: nat)
    requires Ring(heap, ring) && 0 < n < |heap| && n !in ring
    ensures heap[HEAD].unext < |heap| && Ring(LinkFront(heap, n), [HEAD, n] + ring[1..])
  {
    assert heap[ring[0]].unext == ring[1];
    assert ring[1] == HEAD ==> |ring| == 2;
    var heap', ring' := LinkFront(heap, n), [HEAD, n] + ring[1..];
    forall i | 0 <= i < |ring'| - 1
      ensures heap'[ring'[i]].unext == ring'[i + 1] && heap'[ring'[i + 1]].uprev == ring'[i] {
      if i >= 2 {
        assert heap[ring[i - 1]].unext == ring[i] && heap[ring[i]].uprev == ring[i - 1];
        assert ring[i] != ring[1] && ring[i - 1] != HEAD;
      }
    }
  }

  function Unlink(heap: seq<Cell>, n: nat): (r: seq<Cell>)
    requires n < |heap| && heap[n].unext < |heap| && heap[n].uprev < |heap|
    ensures |r| == |heap|
  {
    var h1 := heap[heap[n].unext := heap[heap[n].unext].(uprev := heap[n].uprev)];
    h1[heap[n].uprev := h1[heap[n].uprev].(unext := heap[n].unext)]
  }

  /** unlinkupval takes an upvalue out, wherever it is. */
  lemma RingRemove(heap: seq<Cell>, ring: seq<nat>, k: nat)
    requires Ring(heap, ring) && 0 < k < |ring| - 1
    ensures heap[ring[k]].unext < |heap| && heap[ring[k]].uprev < |heap| && ring[k] != HEAD
    ensures Ring(Unlink(heap, ring[k]), ring[..k] + ring[k + 1..])
  {
    var n := ring[k];
    assert heap[ring[k - 1]].unext == n && heap[ring[k]].uprev == ring[k - 1];
    assert heap[ring[k]].unext == ring[k + 1];
    assert n != ring[0];
    var heap', ring' := Unlink(heap, n), ring[..k] + ring[k + 1..];
    forall i | 0 <= i < |ring'| - 1
      ensures heap'[ring'[i]].unext == ring'[i + 1] && heap'[ring'[i + 1]].uprev == ring'[i] {
      var j := if i < k then i else i + 1;
      assert heap[ring[j]].unext == ring[j + 1] && heap[ring[j + 1]].uprev == ring[j];
    }
  }

  ghost predicate SameRing(heap: seq<Cell>, heap': seq<Cell>) {
    |heap| <= |heap'| && forall i :: 0 <= i < |heap| ==>
        heap'[i].unext == heap[i].unext && heap'[i].uprev == heap[i].uprev
  }

  lemma RingFrame(heap: seq<Cell>, heap': seq<Cell>, ring: seq<nat>)
    requires Ring(heap, ring) && SameRing(heap, heap')
    ensures Ring(heap', ring)
  {
  }

  /** The list has every open upvalue and no other. */
  ghost predicate Listed(heap: seq<Cell>, open: seq<nat>) {
    forall i :: 0 < i < |heap| ==> (heap[i].v >= 0 <==> i in open)
  }

  /** uvhead and the open upvalues are on the uvhead list. */
  ghost predicate OnRing(ring: seq<nat>, open: seq<nat>) {
    (forall i :: i in ring ==> i == HEAD || i in open) && (forall i :: i in open ==> i in ring)
  }

  /** What holds of the lists at all times. */
  ghost predicate IsValid(slots: nat, heap: seq<Cell>, head: int, open: seq<nat>, ring: seq<nat>) {
    && |heap| > 0 && heap[HEAD].v == CLOSED
    && Chain(heap, head, open) && Decreasing(heap, open)
    && Listed(heap, open)
    && (forall i :: 0 < i < |heap| ==> CLOSED <= heap[i].v < slots)
    && Ring(heap, ring) && OnRing(ring, open)
  }

  function UpVals(heap: seq<Cell>): (r: seq<UpVal>)
    ensures |r| == if heap == [] then 0 else |heap| - 1
  {
    if heap == [] then [] else seq(|heap| - 1, i requires 0 <= i < |heap| - 1 => AsUpVal(heap[i + 1]))
  }

  class Thread {
    var stack: seq<Value>
    var heap: seq<Cell>
    var openupval: int
    ghost var open: seq<nat>     // the open upvalues in the order of their list
    ghost var ring: seq<nat>

    ghost predicate Valid()
      reads this
    {
      IsValid(|stack|, heap, openupval, open, ring)
    }

    ghost function View(): State
      reads this
    {
      State(stack, UpVals(heap))
    }

    constructor (stack: seq<Value>)
      ensures Valid() && View() == State(stack, [])
    {
      this.stack := stack;
      heap, openupval := [Cell(CLOSED, 0, NULL, HEAD, HEAD)], NULL;
      open, ring := [], [HEAD, HEAD];
    }

    /** At most one upvalue per slot, the list strictly decreasing */
    lemma OnePerSlot()
      requires Valid()
      ensures Upvalues.Valid(View())
      ensures forall i, j :: 0 <= i < j < |open| ==> heap[open[i]].v > heap[open[j]].v
    {
      hide Chain, Ring, OnRing;
      SlotsDiffer();
    }

    lemma SlotsDiffer()
      requires Valid()
      ensures forall i, j :: 0 < i < j < |heap| && heap[i].v >= 0 && heap[j].v >= 0 ==> heap[i].v != heap[j].v
    {
      hide Chain, Ring, OnRing;
      forall i, j | 0 < i < j < |heap| && heap[i].v >= 0 && heap[j].v >= 0 ensures heap[i].v != heap[j].v {
        var x :| 0 <= x < |open| && open[x] == i;
        var y :| 0 <= y < |open| && open[y] == j;
        if x < y { assert heap[open[x]].v > heap[open[y]].v; } else { assert heap[open[y]].v > heap[open[x]].v; }
      }
    }

    /**
     The search of luaF_findupval: `p' is the first upvalue of the list that is not above `level',
     `prev' the one before.
     */
    method Locate(level: nat) returns (prev: int, p: int, ghost at: nat)
      requires Valid()
      ensures at <= |open| && Segment(heap, openupval, open[..at], p) && Chain(heap, p, open[at..])
      ensures NULL <= p < |heap|
      ensures prev == if at == 0 then NULL else open[at - 1]
      ensures forall k :: 0 <= k < at ==> heap[open[k]].v > level
      ensures p == NULL || (p > 0 && at < |open| && p == open[at] && heap[p].v <= level)
    {
      hide IsValid;
      ValidChain();
      prev, p := NULL, openupval;
      at := 0;
      assert open[0..] == open;
      while p != NULL && heap[p].v > level
        invariant at <= |open| && Segment(heap, openupval, open[..at], p) && Chain(heap, p, open[at..])
        invariant prev == if at == 0 then NULL else open[at - 1]
        invariant forall k :: 0 <= k < at ==> heap[open[k]].v > level
        invariant NULL <= p < |heap|
        decreases |open| - at
      {
        assert open[at..][0] == open[at] == p;
        SegmentMore(heap, openupval, open[..at], p);
        assert open[..at] + [p as nat] == open[..at + 1] && open[at..][1..] == open[at + 1..];
        prev, p := p, heap[p].next;
        at := at + 1;
      }
      if p != NULL { assert open[at..][0] == open[at] == p; }
    }

    /** luaF_findupval: the upvalue of the slot, a new one if there is none, linked at its place. */
    method FindUpval(level: nat) returns (uv: nat)
      requires Valid() && level < |stack|
      modifies this`heap, this`openupval, this`open, this`ring
      ensures Valid() && uv > 0 && (View(), uv - 1) == Find(old(View()), level)
    {
      hide IsValid, Chain, Segment, Find;
      var prev, p, at := Locate(level);
      if p != NULL && heap[p].v == level {
        Unique(p, level);
        return p;
      }
      uv := NewUpval(level, prev, p, at);
    }

    /** The second half of luaF_findupval */
    method NewUpval(level: nat, prev: int, p: int, ghost at: nat) returns (uv: nat)
      requires Valid() && level < |stack|
      requires at <= |open| && Segment(heap, openupval, open[..at], p) && Chain(heap, p, open[at..])
      requires prev == if at == 0 then NULL else open[at - 1]
      requires forall k :: 0 <= k < at ==> heap[open[k]].v > level
      requires p == NULL || (0 < p < |heap| && at < |open| && p == open[at] && heap[p].v < level)
      modifies this`heap, this`openupval, this`open, this`ring
      ensures Valid() && uv > 0 && (View(), uv - 1) == Find(old(View()), level)
    {
      hide IsValid, Chain, Segment, Find, UpVals, OpenAt;
      BehindLower(at, p, level);
      None(level);
      NotYet();
      uv := |heap|;
      ghost var heap0, open0, ring0, view0 := heap, open, ring, View();
      heap := heap + [Cell(level, 0, p, HEAD, HEAD)];
      if prev == NULL { openupval := uv; } else { heap := heap[prev := heap[prev].(next := uv)]; }
      ghost var heap1 := heap;
      Grown(|stack|, heap0, heap1, old(openupval), openupval, open0, ring0, at, p, level);
      var first := heap[HEAD].unext;
      heap := heap[uv := heap[uv].(uprev := HEAD, unext := first)];
      heap := heap[first := heap[first].(uprev := uv)];
      heap := heap[HEAD := heap[HEAD].(unext := uv)];
      assert heap == LinkFront(heap1, uv);
      open, ring := open0[..at] + [uv] + open0[at..], [HEAD, uv] + ring0[1..];
      FindNew(view0, level);
    }

    /** luaF_close: the upvalues of the slots from `level' on get their values and leave both lists. */
    method CloseFrom(level: nat)
      requires Valid()
      modifies this`heap, this`openupval, this`open, this`ring
      ensures Valid() && Upvalues.Valid(old(View())) && View() == Close(old(View()), level)
      ensures forall k :: 0 <= k < |open| ==> heap[open[k]].v < level
    {
      hide IsValid, Chain, Ring, UpVals;
      OnePerSlot();
      ghost var view0 := View();
      ValidChain();
      AllListed(level);
      while openupval != NULL && heap[openupval].v >= level
        invariant Valid() && NULL <= openupval < |heap| && openupval != HEAD && stack == old(stack)
        invariant forall k :: 0 <= k < |open| ==> 0 < open[k] < |heap|
        invariant Partly(view0, View(), open, level)
        decreases |open|
      {
        ghost var open0, view1, l := open, View(), heap[openupval].v;
        ValidChain();
        PopOne();
        ValidChain();
        PartlyNext(view0, view1, View(), open0, level);
      }
      ValidChain();
      ChainHead(heap, openupval, open);
      LowRest(level);
      PartlyAll(view0, View(), open, level);
    }

    /** One round of luaF_close */
    method PopOne()
      requires Valid() && NULL < openupval < |heap| && openupval > 0
      modifies this`heap, this`openupval, this`open, this`ring
      ensures old(|open|) > 0 && open == old(open)[1..] && Valid()
      ensures var uv := old(openupval); var l := old(heap[uv].v);
        && 0 <= l < |stack| && uv == old(open)[0] && |View().uv| == old(|View().uv|)
        && View().uv == old(View().uv)[uv - 1 := Closed(stack[l])] && old(View().uv)[uv - 1] == Open(l)
    {
      hide IsValid, Chain, Ring, LinkFront, UpVals;
      var uv: nat := openupval;
      ghost var heap0 := heap;
      ghost var k := Popped(stack, heap, openupval, open, ring);
      openupval := heap[uv].next;
      heap := heap[heap[uv].unext := heap[heap[uv].unext].(uprev := heap[uv].uprev)];
      heap := heap[heap[uv].uprev := heap[heap[uv].uprev].(unext := heap[uv].unext)];
      heap := heap[uv := heap[uv].(value := stack[heap[uv].v])];
      heap := heap[uv := heap[uv].(v := CLOSED)];
      assert heap == Unlink(heap0, uv)[uv := Unlink(heap0, uv)[uv].(value := stack[heap0[uv].v], v := CLOSED)];
      open, ring := open[1..], ring[..k] + ring[k + 1..];
    }

    lemma FindNew(v: State, level: nat)
      requires OpenAt(v.uv, level) == -1
      ensures Find(v, level) == (State(v.stack, v.uv + [Open(level)]), |v.uv|)
    {
    }

    lemma AllListed(level: nat)
      requires Valid()
      ensures Upvalues.Valid(View()) && Partly(View(), View(), open, level)
    {
      hide Chain, Ring;
      OnePerSlot();
    }

    lemma LowRest(level: nat)
      requires Valid() && (open != [] ==> heap[open[0]].v < level)
      ensures forall k :: 0 <= k < |open| ==> heap[open[k]].v < level
      ensures forall i :: 0 <= i < |View().uv| && View().uv[i].Open? ==> View().uv[i].level < level
      ensures forall i :: i in open ==> 0 < i <= |View().uv| && View().uv[i - 1].Open?
    {
      hide Chain, Ring;
      forall i | 0 < i < |heap| && heap[i].v >= 0 ensures heap[i].v < level {
        var k :| 0 <= k < |open| && open[k] == i;
      }
    }

    lemma ValidChain()
      requires Valid()
      ensures NULL <= openupval < |heap| && openupval != HEAD
      ensures Chain(heap, openupval, open) && forall k :: 0 <= k < |open| ==> 0 < open[k] < |heap|
      ensures forall j, k :: 0 <= j < k < |open| ==> open[j] != open[k]
      ensures openupval != NULL ==> open != [] && open[0] == openupval && 0 <= heap[openupval].v < |stack|
    {
      Members(heap, openupval, open);
    }

    lemma NotYet()
      requires Valid()
      ensures |heap| !in open && |heap| !in ring && |heap| > 0
      ensures |ring| >= 2 && ring[0] == HEAD && heap[HEAD].unext < |heap|
      ensures forall k :: 0 <= k < |open| ==> open[k] < |heap|
      ensures forall i :: i in open ==> i > 0
    {
      assert heap[ring[0]].unext == ring[1];
      Members(heap, openupval, open);
    }

    lemma Unique(p: nat, level: nat)
      requires Valid() && 0 < p < |heap| && heap[p].v == level
      ensures Find(View(), level) == (View(), p - 1)
    {
      OnePerSlot();
      assert View().uv[p - 1] == Open(level);
    }

    lemma BehindLower(at: nat, p: int, level: nat)
      requires Valid() && at <= |open| && Chain(heap, p, open[at..])
      requires forall k :: 0 <= k < at ==> heap[open[k]].v > level
      requires p == NULL || heap[p].v < level
      ensures forall k :: 0 <= k < |open| ==> heap[open[k]].v != level
      ensures forall k :: at <= k < |open| ==> heap[open[k]].v < level
    {
      if at < |open| { assert open[at..][0] == open[at]; }
    }

    lemma None(level: nat)
      requires Valid() && forall k :: 0 <= k < |open| ==> heap[open[k]].v != level
      ensures OpenAt(View().uv, level) == -1
    {
      forall i | 0 <= i < |View().uv| ensures View().uv[i] != Open(level) {
        assert heap[i + 1].v >= 0 ==> i + 1 in open;
      }
    }
  }

  /** The lists with a new upvalue in both */
  lemma Grown(slots: nat, heap: seq<Cell>, heap1: seq<Cell>, head: int, head1: int, open: seq<nat>, ring: seq<nat>,
              at: nat, p: int, level: nat)
    requires IsValid(slots, heap, head, open, ring) && level < slots
    requires at <= |open| && Segment(heap, head, open[..at], p) && Chain(heap, p, open[at..])
    requires forall k :: 0 <= k < |open| ==> open[k] < |heap|
    requires forall k :: 0 <= k < at ==> heap[open[k]].v > level
    requires forall k :: at <= k < |open| ==> heap[open[k]].v < level
    requires |heap1| == |heap| + 1 && heap1[|heap|] == Cell(level, 0, p, HEAD, HEAD)
    requires forall i :: 0 <= i < |heap| ==> heap1[i] == heap[i].(next := heap1[i].next)
    requires forall i :: 0 <= i < |heap| && (at == 0 || i != open[at - 1]) ==> heap1[i].next == heap[i].next
    requires if at == 0 then head1 == |heap| else head1 == head && heap1[open[at - 1]].next == |heap|
    ensures heap1[HEAD].unext < |heap1|
    ensures var heap2, open', ring' := LinkFront(heap1, |heap|), open[..at] + [|heap|] + open[at..], [HEAD,
        |heap|] + ring[1..];
      && IsValid(slots, heap2, head1, open', ring')
      && UpVals(heap2) == UpVals(heap) + [Open(level)]
  {
    hide Chain, Segment, Ring, Decreasing, LinkFront, UpVals, AsUpVal;
    var uv := |heap|;
    Front(heap, ring);
    Members(heap, head, open);
    RingMembers(heap, ring);
    Linked(heap, heap1, head, head1, open, at, p, uv);
    RingFrame(heap, heap1, ring);
    RingInsert(heap1, ring, uv);
    Added(heap, heap1, head1, open, ring, at, uv);
    GrownCells(heap, heap1, uv, level);
    GrownIff(slots, heap, LinkFront(heap1, uv), open, open[..at] + [uv] + open[at..], level);
  }

  lemma GrownIff(slots: nat, heap: seq<Cell>, heap2: seq<Cell>, open: seq<nat>, open': seq<nat>, level: nat)
    requires Listed(heap, open) && forall i :: 0 < i < |heap| ==> CLOSED <= heap[i].v < slots
    requires forall i :: i in open' <==> i in open || i == |heap|
    requires |heap2| == |heap| + 1 && heap2[|heap|].v == level < slots
    requires forall i :: 0 <= i < |heap| ==> heap2[i].v == heap[i].v
    ensures Listed(heap2, open') && forall i :: 0 < i < |heap2| ==> CLOSED <= heap2[i].v < slots
  {
  }

  lemma RingMembers(heap: seq<Cell>, ring: seq<nat>)
    requires Ring(heap, ring)
    ensures forall i :: i in ring ==> i < |heap|
  {
  }

  lemma Front(heap: seq<Cell>, ring: seq<nat>)
    requires Ring(heap, ring)
    ensures |ring| >= 2 && ring[0] == HEAD && heap[HEAD].unext == ring[1] < |heap|
  {
    assert heap[ring[0]].unext == ring[1];
  }

  lemma GrownCells(heap: seq<Cell>, heap1: seq<Cell>, uv: nat, level: nat)
    requires 0 < uv == |heap| == |heap1| - 1 && heap1[HEAD].unext < |heap1|
    requires forall i :: 0 <= i < |heap| ==> heap1[i].v == heap[i].v && heap1[i].value == heap[i].value
    requires heap1[uv].v == level
    ensures var heap2 := LinkFront(heap1, uv);
      && (forall i :: 0 <= i < |heap| ==> heap2[i].v == heap[i].v) && heap2[uv].v == level
      && UpVals(heap2) == UpVals(heap) + [Open(level)]
  {
    var heap2 := LinkFront(heap1, uv);
    forall i | 0 <= i < |heap2| ensures heap2[i].v == heap1[i].v && heap2[i].value == heap1[i].value {}
  }

  /** What linking into the uvhead list does not change */
  lemma Added(heap: seq<Cell>, heap1: seq<Cell>, head: int, open: seq<nat>, ring: seq<nat>, at: nat, uv: nat)
    requires at <= |open| && uv == |heap| == |heap1| - 1 && uv > 0 && heap1[HEAD].unext < |heap1|
    requires var open' := open[..at] + [uv] + open[at..]; Chain(heap1, head, open') && Decreasing(heap1, open')
    requires |ring| >= 2 && ring[0] == HEAD && OnRing(ring, open) && uv !in open
    ensures var open', heap' := open[..at] + [uv] + open[at..], LinkFront(heap1, uv);
      var ring' := [HEAD, uv] + ring[1..];
      && Chain(heap', head, open') && Decreasing(heap', open')
      && (forall i :: i in open' <==> i in open || i == uv) && OnRing(ring', open')
  {
    var open', heap' := open[..at] + [uv] + open[at..], LinkFront(heap1, uv);
    ChainFrame(heap1, heap', head, open');
    hide Chain, OnRing;
    DecreasingFrame(heap1, heap', open');
    AddedOnRing(open, ring, at, uv);
  }

  lemma DecreasingFrame(heap: seq<Cell>, heap': seq<Cell>, open: seq<nat>)
    requires Decreasing(heap, open) && |heap'| == |heap| && forall i :: 0 <= i < |heap| ==> heap'[i].v == heap[i].v
    ensures Decreasing(heap', open)
  {
  }

  lemma AddedOnRing(open: seq<nat>, ring: seq<nat>, at: nat, uv: nat)
    requires at <= |open| && |ring| >= 2 && ring[0] == HEAD && OnRing(ring, open)
    ensures var open', ring' := open[..at] + [uv] + open[at..], [HEAD, uv] + ring[1..];
      (forall i :: i in open' <==> i in open || i == uv) && OnRing(ring', open')
  {
    assert open == open[..at] + open[at..];
    assert ring == [HEAD] + ring[1..];
  }

  lemma {:induction false} Members(heap: seq<Cell>, head: int, list: seq<nat>)
    requires Chain(heap, head, list)
    ensures forall i :: i in list ==> 0 < i < |heap|
    decreases |list|
  {
    if list != [] {
      Members(heap, heap[list[0]].next, list[1..]);
      assert list == [list[0]] + list[1..];
    }
  }

  /** The list with the new upvalue in its place */
  lemma Linked(heap: seq<Cell>, heap': seq<Cell>, head: int, head': int, open: seq<nat>, at: nat, p: int, uv: nat)
    requires at <= |open| && Segment(heap, head, open[..at], p) && Chain(heap, p, open[at..]) && Decreasing(heap, open)
    requires uv == |heap| > 0 && |heap'| == |heap| + 1 && heap'[uv].next == p && heap'[uv].v >= 0
    requires forall k :: 0 <= k < at ==> heap[open[k]].v > heap'[uv].v
    requires forall k :: at <= k < |open| ==> heap[open[k]].v < heap'[uv].v
    requires forall i :: 0 <= i < |heap| ==> heap'[i].v == heap[i].v
    requires forall i :: 0 <= i < |heap| && (at == 0 || i != open[at - 1]) ==> heap'[i].next == heap[i].next
    requires if at == 0 then head' == uv else head' == head && heap'[open[at - 1]].next == uv
    ensures Chain(heap', head', open[..at] + [uv] + open[at..]) && Decreasing(heap', open[..at] + [uv] + open[at..])
  {
    LinkedChain(heap, heap', head, head', open, at, p, uv);
    LinkedOrder(heap, heap', open, at, uv);
  }

  lemma LinkedOrder(heap: seq<Cell>, heap': seq<Cell>, open: seq<nat>, at: nat, uv: nat)
    requires at <= |open| && Decreasing(heap, open) && uv == |heap| && |heap'| == |heap| + 1 && heap'[uv].v >= 0
    requires forall k :: 0 <= k < at ==> heap[open[k]].v > heap'[uv].v
    requires forall k :: at <= k < |open| ==> heap[open[k]].v < heap'[uv].v
    requires forall i :: 0 <= i < |heap| ==> heap'[i].v == heap[i].v
    ensures Decreasing(heap', open[..at] + [uv] + open[at..])
  {
    var open' := open[..at] + [uv] + open[at..];
    forall i | 0 <= i < |open'| ensures open'[i] == if i < at then open[i] else if i == at then uv else open[i - 1] {}
    forall i, j | 0 <= i < j < |open'| ensures heap'[open'[i]].v > heap'[open'[j]].v {
      var x, y := if i < at then i else i - 1, if j < at then j else j - 1;
      if i != at && j != at { assert heap[open[x]].v > heap[open[y]].v; }
    }
  }

  lemma LinkedChain(heap: seq<Cell>, heap': seq<Cell>, head: int, head': int, open: seq<nat>, at: nat, p: int, uv: nat)
    requires at <= |open| && Segment(heap, head, open[..at], p) && Chain(heap, p, open[at..]) && Decreasing(heap, open)
    requires uv == |heap| > 0 && |heap'| == |heap| + 1 && heap'[uv].next == p
    requires forall i :: 0 <= i < |heap| && (at == 0 || i != open[at - 1]) ==> heap'[i].next == heap[i].next
    requires if at == 0 then head' == uv else head' == head && heap'[open[at - 1]].next == uv
    ensures Chain(heap', head', open[..at] + [uv] + open[at..])
  {
    var a, b := open[..at], open[at..];
    forall i | i in b && i < |heap| ensures heap'[i].next == heap[i].next {
      var k :| 0 <= k < |b| && b[k] == i;
      assert open[at + k] == i;
    }
    if at == 0 {
      ChainFrame(heap, heap', p, b);
      assert a + [uv] + b == [uv] + b && ([uv] + b)[1..] == b;
    } else {
      SegmentInsert(heap, heap', head, a, b, p, uv);
    }
  }

  function PartlyAt(s: State, i: nat, open: seq<nat>, level: nat): UpVal
    requires Upvalues.Valid(s) && i < |s.uv|
  {
    if s.uv[i].Open? && s.uv[i].level >= level && i + 1 !in open then Closed(s.stack[s.uv[i].level]) else s.uv[i]
  }

  /** Of the upvalues from `level' on, those that left the list are closed. */
  ghost predicate Partly(s: State, t: State, open: seq<nat>, level: nat)
    requires Upvalues.Valid(s)
  {
    && t.stack == s.stack && |t.uv| == |s.uv|
    && forall i :: 0 <= i < |s.uv| ==> t.uv[i] == PartlyAt(s, i, open, level)
  }

  lemma ChainHead(heap: seq<Cell>, head: int, list: seq<nat>)
    requires Chain(heap, head, list)
    ensures if list == [] then head == NULL else head == list[0] && 0 < list[0] < |heap|
  {
  }

  /** The state of the lists once their first upvalue is closed */
  lemma Popped(stack: seq<Value>, heap: seq<Cell>, head: int, open: seq<nat>, ring: seq<nat>) returns (k: nat)
    requires IsValid(|stack|, heap, head, open, ring) && 0 < head < |heap|
    ensures k < |ring| && open != [] && head == open[0] && 0 <= heap[head].v < |stack|
    ensures heap[head].unext < |heap| && heap[head].uprev < |heap|
    ensures var unlinked := Unlink(heap, head);
      var l := heap[head].v;
      var heap' := unlinked[head := unlinked[head].(value := stack[l], v := CLOSED)];
      && IsValid(|stack|, heap', heap[head].next, open[1..], ring[..k] + ring[k + 1..])
      && UpVals(heap') == UpVals(heap)[head - 1 := Closed(stack[l])] && UpVals(heap)[head - 1] == Open(l)
  {
    hide Chain, UpVals, Listed;
    ChainHead(heap, head, open);
    HeadListed(heap, open);
    assert open[0] in ring;
    hide OnRing;
    k := Place(ring, open[0]);
    RingRemove(heap, ring, k);
    var v := stack[heap[head].v];
    var heap' := Unlink(heap, head)[head := Unlink(heap, head)[head].(value := v, v := CLOSED)];
    RingFrame(Unlink(heap, head), heap', ring[..k] + ring[k + 1..]);
    UnlinkKeeps(heap, head);
    PopRing(open, ring, k, heap);
    hide Unlink, Ring;
    PopChain(heap, heap', head, open);
    PopIff(heap, heap', head, open);
    PopUpVals(heap, heap', head, v);
  }

  lemma HeadListed(heap: seq<Cell>, open: seq<nat>)
    requires open != [] && 0 < open[0] < |heap| && Listed(heap, open)
    ensures heap[open[0]].v >= 0
  {
  }

  lemma UnlinkKeeps(heap: seq<Cell>, n: nat)
    requires n < |heap| && heap[n].unext < |heap| && heap[n].uprev < |heap|
    ensures forall i :: 0 <= i < |heap| ==>
      var c := Unlink(heap, n)[i]; c.v == heap[i].v && c.value == heap[i].value && c.next == heap[i].next
  {
  }

  lemma Place(ring: seq<nat>, x: nat) returns (k: nat)
    requires |ring| >= 2 && x in ring && x != HEAD && ring[0] == ring[|ring| - 1] == HEAD
    ensures 0 < k < |ring| - 1 && ring[k] == x
  {
    k :| 0 <= k < |ring| && ring[k] == x;
  }

  lemma PopChain(heap: seq<Cell>, heap': seq<Cell>, head: int, open: seq<nat>)
    requires Chain(heap, head, open) && Decreasing(heap, open) && open != [] && |heap'| == |heap|
    requires forall i :: 0 <= i < |heap| ==> heap'[i].next == heap[i].next && (i != head ==> heap'[i].v == heap[i].v)
    ensures Chain(heap', heap[open[0]].next, open[1..]) && Decreasing(heap', open[1..])
    ensures forall i :: i in open[1..] ==> i != open[0]
  {
    ChainFrame(heap, heap', heap[open[0]].next, open[1..]);
    forall k | 0 <= k < |open[1..]| ensures open[1..][k] == open[k + 1] && open[k + 1] != open[0] {
      assert heap[open[0]].v > heap[open[k + 1]].v;
    }
  }

  lemma PopIff(heap: seq<Cell>, heap': seq<Cell>, head: nat, open: seq<nat>)
    requires 0 < head < |heap| == |heap'| && open != [] && head == open[0] && heap'[head].v == CLOSED
    requires Listed(heap, open)
    requires forall i :: 0 <= i < |heap| && i != head ==> heap'[i].v == heap[i].v
    requires forall i :: i in open[1..] ==> i != open[0]
    ensures Listed(heap', open[1..])
  {
    assert open == [open[0]] + open[1..];
  }

  lemma PopUpVals(heap: seq<Cell>, heap': seq<Cell>, head: nat, v: Value)
    requires 0 < head < |heap| == |heap'| && heap[head].v >= 0
    requires forall i :: 0 <= i < |heap| && i != head ==> heap'[i].v == heap[i].v && heap'[i].value == heap[i].value
    requires heap'[head].v == CLOSED && heap'[head].value == v
    ensures UpVals(heap') == UpVals(heap)[head - 1 := Closed(v)] && UpVals(heap)[head - 1] == Open(heap[head].v)
  {
  }

  lemma PopRing(open: seq<nat>, ring: seq<nat>, k: nat, heap: seq<Cell>)
    requires Ring(heap, ring) && Decreasing(heap, open) && OnRing(ring, open)
    requires 0 < k < |ring| - 1 && open != [] && ring[k] == open[0] != HEAD
    ensures OnRing(ring[..k] + ring[k + 1..], open[1..])
  {
    var ring' := ring[..k] + ring[k + 1..];
    RingMinus(ring, k, open[0]);
    forall x | 0 < x < |open| ensures open[x] != open[0] { assert heap[open[0]].v > heap[open[x]].v; }
    hide Ring, Decreasing;
    assert open == [open[0]] + open[1..];
    forall i: nat | i in ring' ensures i == HEAD || i in open[1..] { assert i in ring && i != open[0]; }
    forall i: nat | i in open[1..] ensures i in ring' { assert i in open && i in ring && i != open[0]; }
  }

  lemma RingMinus(ring: seq<nat>, k: nat, x: nat)
    requires 0 < k < |ring| - 1 && ring[k] == x && x != HEAD && ring[|ring| - 1] == HEAD
    requires forall i, j :: 0 <= i < j < |ring| - 1 ==> ring[i] != ring[j]
    ensures forall i: nat :: i in ring[..k] + ring[k + 1..] <==> i in ring && i != x
  {
    var ring' := ring[..k] + ring[k + 1..];
    forall i | i in ring' ensures i in ring && i != x {
      var y :| 0 <= y < |ring'| && ring'[y] == i;
      assert i == ring[if y < k then y else y + 1];
    }
    forall i | i in ring && i != x ensures i in ring' {
      var y :| 0 <= y < |ring| && ring[y] == i;
      assert i == ring'[if y < k then y else y - 1];
    }
  }

  lemma PartlyNext(s: State, t: State, t': State, open: seq<nat>, level: nat)
    requires Upvalues.Valid(s) && Partly(s, t, open, level) && open != [] && 0 < open[0] <= |t.uv|
    requires forall k :: 0 < k < |open| ==> open[k] != open[0]
    requires t.uv[open[0] - 1].Open? && level <= t.uv[open[0] - 1].level < |t.stack|
    requires t'.stack == t.stack && t'.uv == t.uv[open[0] - 1 := Closed(t.stack[t.uv[open[0] - 1].level])]
    ensures Partly(s, t', open[1..], level)
  {
    assert open == [open[0]] + open[1..];
    forall i | 0 <= i < |s.uv| ensures t'.uv[i] == PartlyAt(s, i, open[1..], level) {
      assert t.uv[i] == PartlyAt(s, i, open, level);
    }
  }

  lemma PartlyAll(s: State, t: State, open: seq<nat>, level: nat)
    requires Upvalues.Valid(s) && Partly(s, t, open, level)
    requires forall i :: 0 <= i < |t.uv| && t.uv[i].Open? ==> t.uv[i].level < level
    requires forall i :: i in open ==> 0 < i <= |t.uv| && t.uv[i - 1].Open?
    ensures t == Close(s, level)
  {
    forall i | 0 <= i < |s.uv| ensures t.uv[i] == Close(s, level).uv[i] {
      assert t.uv[i] == PartlyAt(s, i, open, level);
      assert i + 1 in open ==> t.uv[i].Open?;
    }
  }
}
