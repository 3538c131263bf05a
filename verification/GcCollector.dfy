/**
 The collector as lgc.c writes it: one global state whose fields are updated in
 place. Every method is tied to the function on states that specifies it.
 */
module GcCollector {
  import opened Basics
  import opened GcHeap
  import opened GcMark
  import opened GcSweep
  import opened GcSafety
  import opened GcMutator
  import opened GcFull
  import opened GcCycle

  class GlobalState {
    var heap: map<Id, Obj>
    var gray: seq<Id>
    var grayagain: seq<Id>
    var gcstate: Phase
    var currentwhite: bool
    var rootgc: seq<Id>
    var sweepgc: nat
    var strt: seq<seq<Id>>
    var sweepstrgc: nat
    var uvhead: seq<Id>
    var mainthread: Id
    var running: Id
    var registry: Id
    var mt: seq<Ref>

    function View(): State
      reads this
    {
      State(heap, gray, grayagain, gcstate, currentwhite, rootgc, sweepgc, strt, sweepstrgc,
            uvhead, mainthread, running, registry, mt)
    }

    method SetColour(o: Id, c: Colour)
      requires o in heap
      modifies this`heap
      ensures View() == Paint(old(View()), o, c)
    {
      heap := heap[o := heap[o].(colour := c)];
    }

    method MarkObject(o: Id)
      modifies this`heap, this`gray
      ensures View() == MarkId(old(View()), o)
      decreases Whites(View()), 1
    {
      if o in heap && IsWhite(heap[o]) {
        ReallyMarkObject(o);
      }
    }

    method ReallyMarkObject(o: Id)
      requires o in heap && IsWhite(heap[o])
      modifies this`heap, this`gray
      ensures View() == ReallyMark(old(View()), o)
      decreases Whites(View()), 0
    {
      ghost var s := View();
      var b := heap[o].body;
      SetColour(o, Gray);
      assert o in Whites(s) && o !in Whites(View()) && Whites(View()) <= Whites(s);
      match b
      case Str =>
      case Node(kind, refs) =>
        if kind == Userdata {
          SetColour(o, Black);
          assert o !in Whites(View()) && Whites(View()) <= Whites(s);
          MarkAll(refs);
        } else {
          gray := [o] + gray;
        }
      case OpenUp(th, level) =>
        var v := Values([Slot(heap, th, level)]);
        assert Slot(heap, th, level) == Slot(s.heap, th, level);
        MarkAll(v);
      case ClosedUp(v) =>
        MarkAll(Values([v]));
        SetColour(o, Black);
      case Thread(_, _, _) =>
        gray := [o] + gray;
    }

    method MarkAll(ids: seq<Id>)
      modifies this`heap, this`gray
      ensures View() == MarkSeq(old(View()), ids)
      decreases Whites(View()), 2
    {
      ghost var s := View();
      var i := 0;
      while i < |ids|
        invariant i <= |ids|
        invariant View() == s.(heap := heap, gray := gray)
        invariant Whites(View()) <= Whites(s)
        invariant MarkSeq(View(), ids[i..]) == MarkSeq(s, ids)
      {
        assert ids[i..] == [ids[i]] + ids[i + 1..];
        ghost var m := View();
        MarkObject(ids[i]);
        assert MarkOnly(m, View());
        i := i + 1;
      }
    }

    /** propagatemark */
    method PropagateMark()
      requires gray != []
      modifies this`heap, this`gray, this`grayagain
      ensures View() == GcMark.PropagateMark(old(View()))
    {
      ghost var s := View();
      var o := gray[0];
      gray := gray[1..];
      if o in heap {
        var refs := BodyRefs(heap, heap[o].body);
        assert refs == Refs(s, o);
        if heap[o].body.Thread? {
          grayagain := [o] + grayagain;
        } else {
          SetColour(o, Black);
        }
        MarkAll(refs);
      }
    }

    /** propagateall */
    method PropagateAll()
      modifies this`heap, this`gray, this`grayagain
      ensures View() == GcMark.PropagateAll(old(View()))
    {
      ghost var s := View();
      while gray != []
        invariant View() == s.(heap := heap, gray := gray, grayagain := grayagain)
        invariant GcMark.PropagateAll(View()) == GcMark.PropagateAll(s)
        decreases Whites(View()), |gray|
      {
        PropagateMark();
      }
    }

    /** remarkupvals */
    method RemarkUpvals()
      modifies this`heap, this`gray
      ensures View() == GcMark.RemarkUpvals(old(View()), old(uvhead))
    {
      hide MarkSeq, MarkOnly;
      ghost var s := View();
      var i := 0;
      assert uvhead[0..] == uvhead;
      while i < |uvhead|
        invariant i <= |uvhead|
        invariant View() == s.(heap := heap, gray := gray)
        invariant GcMark.RemarkUpvals(View(), uvhead[i..]) == GcMark.RemarkUpvals(s, uvhead)
      {
        assert uvhead[i..] == [uvhead[i]] + uvhead[i + 1..];
        assert uvhead[i..][1..] == uvhead[i + 1..];
        var u := uvhead[i];
        if u in heap && heap[u].colour == Gray {
          assert BodyRefs(heap, heap[u].body) == Refs(View(), u);
          MarkAll(BodyRefs(heap, heap[u].body));
        }
        i := i + 1;
      }
    }

    /** atomic */
    method Atomic()
      modifies this
      ensures View() == GcMark.Atomic(old(View()))
    {
      hide GcMark.RemarkUpvals, GcMark.PropagateAll, MarkSeq, MarkOnly, Values;
      ghost var s := View();
      RemarkUpvals();
      PropagateAll();
      MarkAll([running] + Values(mt));
      PropagateAll();
      assert View() == FirstRounds(s);
      hide FirstRounds;
      gray, grayagain := grayagain, [];
      PropagateAll();
      assert View() == AtomicMark(s);
      currentwhite := !currentwhite;
      sweepstrgc, sweepgc := 0, 0;
      gcstate := SweepString;
    }

    /** markroot */
    method MarkRoot()
      modifies this
      ensures View() == GcMark.MarkRoot(old(View()))
    {
      hide MarkSeq;
      gray, grayagain := [], [];
      var globals := if mainthread in heap && heap[mainthread].body.Thread? then [heap[mainthread].body.globals]
          else [];
      MarkAll([mainthread] + globals + [registry] + Values(mt));
      gcstate := Propagate;
    }

    method FreeObject(o: Id)
      modifies this`heap, this`uvhead
      ensures View() == Free(old(View()), o)
    {
      heap := heap - {o};
      uvhead := Without(uvhead, o);
    }

    /** sweepwholelist over a list without threads; returns what remains linked. */
    method SweepWholeList(list: seq<Id>) returns (kept: seq<Id>)
      modifies this`heap, this`uvhead
      ensures (View(), kept) == SweepList(old(View()), list)
    {
      ghost var s := View();
      kept := [];
      var i := 0;
      assert list[i..] == list;
      assert kept + SweepList(s, list).1 == SweepList(s, list).1;
      while i < |list|
        invariant i <= |list|
        invariant View() == s.(heap := heap, uvhead := uvhead)
        invariant var (r, rest) := SweepList(View(), list[i..]); SweepList(s, list) == (r, kept + rest)
      {
        var o := list[i];
        assert list[i..] == [o] + list[i + 1..];
        ghost var (r, rest) := SweepList(View(), list[i..]);
        if o in heap {
          if IsDead(View(), heap[o]) && !heap[o].fixed {
            FreeObject(o);
          } else {
            SetColour(o, White(currentwhite));
            ghost var (r', rest') := SweepList(View(), list[i + 1..]);
            assert rest == [o] + rest';
            assert kept + rest == (kept + [o]) + rest';
            kept := kept + [o];
          }
        }
        i := i + 1;
      }
      assert list[i..] == [] && kept + [] == kept;
    }

    /** luaC_barrierf */
    method BarrierF(o: Id, v: Id)
      requires o in heap
      modifies this`heap, this`gray
      ensures View() == GcSweep.BarrierF(old(View()), o, v)
    {
      if gcstate == Propagate {
        MarkObject(v);
      } else {
        SetColour(o, White(currentwhite));
      }
    }

    /** luaC_barrierback under the test of luaC_barriert */
    method BarrierT(t: Id, v: Ref)
      modifies this`heap, this`grayagain
      ensures View() == GcSweep.BarrierT(old(View()), t, v)
    {
      if v.Some? && v.value in heap && t in heap && IsWhite(heap[v.value]) && heap[t].colour == Black {
        SetColour(t, Gray);
        grayagain := [t] + grayagain;
      }
    }

    /** luaC_linkupval */
    method LinkUpval(u: Id)
      modifies this`heap, this`gray, this`rootgc, this`sweepgc
      ensures View() == GcSweep.LinkUpval(old(View()), u)
    {
      assert rootgc[..0] + [u] + rootgc[0..] == [u] + rootgc;
      rootgc := [u] + rootgc;
      if sweepgc > 0 { sweepgc := sweepgc + 1; }
      if u in heap && heap[u].colour == Gray {
        if gcstate == Propagate {
          SetColour(u, Black);
          var v := if heap[u].body.ClosedUp? then heap[u].body.value else None;
          if v.Some? && v.value in heap && IsWhite(heap[v.value]) {
            BarrierF(u, v.value);
          }
        } else {
          SetColour(u, White(currentwhite));
        }
      }
    }

    /** luaF_close */
    method Close(th: Id, level: nat)
      modifies this`heap, this`gray, this`rootgc, this`sweepgc, this`uvhead
      ensures View() == GcSweep.Close(old(View()), th, level)
    {
      hide CloseTop;
      ghost var s := View();
      while OpenList(View(), th) != [] && Level(heap, OpenList(View(), th)[0]) >= level
        invariant View() == s.(heap := heap, gray := gray, rootgc := rootgc, sweepgc := sweepgc, uvhead := uvhead)
        invariant GcSweep.Close(View(), th, level) == GcSweep.Close(s, th, level)
        decreases |OpenList(View(), th)|
      {
        CloseOne(th);
      }
    }

    /** One round of luaF_close: the first upvalue of the list */
    method CloseOne(th: Id)
      requires OpenList(View(), th) != []
      modifies this`heap, this`gray, this`rootgc, this`sweepgc, this`uvhead
      ensures View() == CloseTop(old(View()), th)
    {
      hide Free, GcSweep.LinkUpval, Without;
      var u := heap[th].body.open[0];
      var value := Slot(heap, th, Level(heap, u));
      heap := heap[th := heap[th].(body := heap[th].body.(open := heap[th].body.open[1..]))];
      if u in heap && u != th {
        if IsDead(View(), heap[u]) {
          FreeObject(u);
        } else {
          uvhead := Without(uvhead, u);
          heap := heap[u := heap[u].(body := ClosedUp(value))];
          LinkUpval(u);
        }
      }
    }

    /** sweeplist at the sweep position of the list of all objects. */
    method SweepRoots(count: nat)
      modifies this
      ensures View() == GcSweep.SweepRoots(old(View()), count)
    {
      hide SweepNext;
      ghost var s := View();
      var n: nat := count;
      while n > 0 && sweepgc < |rootgc|
        invariant n <= count
        invariant GcSweep.SweepRoots(View(), n) == GcSweep.SweepRoots(s, count)
      {
        SweepAt();
        n := n - 1;
      }
    }

    method SweepAt()
      requires sweepgc < |rootgc|
      modifies this
      ensures View() == SweepNext(old(View()))
    {
      hide SweepList, GcSweep.Close, Without;
      ghost var s := View();
      var curr := rootgc[sweepgc];
      var at := sweepgc;
      var kept := SweepWholeList(OpenList(View(), curr));
      if curr in heap && heap[curr].body.Thread? {
        heap := heap[curr := heap[curr].(body := heap[curr].body.(open := kept))];
      }
      assert View() == SweepOpen(s, curr);
      if curr in heap && !(IsDead(View(), heap[curr]) && !heap[curr].fixed) {
        SetColour(curr, White(currentwhite));
        sweepgc := sweepgc + 1;
      } else {
        rootgc := rootgc[..at] + rootgc[at + 1..];
        Close(curr, 0);
        FreeObject(curr);
      }
    }

    /** singlestep */
    method SingleStep()
      modifies this
      ensures View() == GcSweep.SingleStep(old(View()))
    {
      ghost var s := View();
      match gcstate
      case Pause => MarkRoot();
      case Propagate =>
        if gray != [] { PropagateMark(); } else { Atomic(); }
      case SweepString =>
        if sweepstrgc < |strt| {
          var kept := SweepWholeList(strt[sweepstrgc]);
          strt := strt[sweepstrgc := kept];
          sweepstrgc := sweepstrgc + 1;
        }
        if sweepstrgc >= |strt| { gcstate := Sweep; }
      case Sweep =>
        SweepRoots(SWEEP_MAX);
        if sweepgc >= |rootgc| { gcstate := Finalize; }
      case Finalize => gcstate := Pause;
    }

    /** luaC_step, whatever its steps cost: it makes a step, and it ends. */
    method Step(limit: int, cost: State -> int)
      requires Inv(View())
      modifies this
      ensures Inv(View())
      ensures exists n: nat :: View() == Steps(old(View()), n) && StopsAfter(old(View()), n, limit, cost)
    {
      hide Inv, GcSweep.SingleStep, PhaseOk;
      ghost var s := View();
      ghost var n := 0;
      var lim := limit;
      while true
        invariant Inv(View()) && View() == Steps(s, n) && lim == limit - Cost(s, n, cost)
        invariant forall k: nat :: 0 < k <= n ==> Steps(s, k).phase != Pause && Cost(s, k, cost) < limit
        decreases n == 0, ToPause(View())
      {
        ghost var v := View();
        StepsNext(s, n, cost);
        SingleStepInv(v);
        if n > 0 { OneStep(v); }
        lim := lim - cost(View());
        SingleStep();
        n := n + 1;
        if gcstate == Pause || lim <= 0 { break; }
      }
    }

    /** luaC_fullgc leaves exactly the reachable and the fixed objects, all white. */
    method FullGC()
      requires Inv(View())
      modifies this
      ensures Inv(View()) && gcstate == Pause
      ensures forall i :: i in heap ==> heap[i].colour == White(currentwhite)
      ensures forall i :: i in heap <==> Reachable(old(View()), i) || (i in old(heap) && old(heap)[i].fixed)
    {
      hide Inv, GcMark.MarkRoot, Reachable;
      ghost var s := View();
      AbandonInv(s);
      if gcstate == Pause || gcstate == Propagate {
        sweepstrgc, sweepgc := 0, 0;
        gray, grayagain := [], [];
        gcstate := SweepString;
      }
      assert View() == Abandon(s);
      FinishSweep();
      ghost var f := View();
      MarkRootKeeps(f);
      MarkRoot();
      MarkAndSweep();
      FullCollectionExact(s);
    }

    method FinishSweep()
      requires Inv(View()) && gcstate != Pause && gcstate != Propagate
      modifies this
      ensures Inv(old(View())) && View() == UntilFinalize(old(View()))
    {
      hide Struct, LiveClosed, NeverBlack, PhaseOk, GcSweep.SingleStep;
      ghost var a := View();
      while gcstate != Finalize
        invariant Inv(View()) && (gcstate == SweepString || gcstate == Sweep || gcstate == Finalize)
        invariant UntilFinalize(View()) == UntilFinalize(a)
        decreases PhaseRank(gcstate), SweepLeft(View())
      {
        SingleStepInv(View());
        SweepAdvances(View());
        SingleStep();
      }
    }

    method MarkAndSweep()
      requires Inv(View()) && gcstate == Propagate
      modifies this
      ensures Inv(old(View())) && View() == GcSweep.SingleStep(UntilFinalize(UntilSwept(old(View()))))
    {
      hide Inv, GcMark.Atomic, GcMark.PropagateMark;
      ghost var m := View();
      while gcstate == Propagate
        invariant Inv(View())
        invariant gcstate == Propagate ==> UntilSwept(View()) == UntilSwept(m)
        invariant gcstate != Propagate ==> View() == UntilSwept(m)
        decreases gcstate == Propagate, Whites(View()), |gray|
      {
        ghost var v := View();
        if gray != [] { PropagateStep(v); } else { AtomicStep(v); }
        SingleStep();
      }
      FinishSweep();
      SingleStep();
    }
  }
}
