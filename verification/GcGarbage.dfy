/** What is garbage when a collection starts is freed before it ends, whatever the program does in between. */
module GcGarbage {
  import opened Basics
  import opened GcHeap
  import opened GcMark
  import opened GcSweep
  import opened GcMutator
  import opened GcSafety
  import opened GcFull
  import opened GcProgram

  /** The roots are in `n`, and so is whatever live objects of `n` refer to. */
  ghost predicate Closed(s: State, n: set<Id>) {
    && (forall i :: i in Roots(s) ==> i in n)
    && forall i, x :: i in n && Live(s, i) && x in Refs(s, i) ==> x in n
  }

  /** Objects outside of `n` are unmarked during the mark phase and dead after it. */
  ghost predicate Outside(s: State, n: set<Id>) {
    forall i :: i in s.heap && i !in n ==>
      && !s.heap[i].fixed
      && (s.phase == Propagate ==> IsWhite(s.heap[i]))
      && (s.phase == SweepString || s.phase == Sweep || s.phase == Finalize ==> IsDead(s, s.heap[i]))
  }

  ghost predicate Apart(s: State, n: set<Id>) { Closed(s, n) && Outside(s, n) }

  /** From `s` to `r` no object outside of `n` has appeared or changed its mark. */
  ghost predicate LeftAlone(s: State, r: State, n: set<Id>) {
    && r.white == s.white && r.phase == s.phase
    && forall i :: i in r.heap && i !in n ==>
         i in s.heap && r.heap[i].colour == s.heap[i].colour && r.heap[i].fixed == s.heap[i].fixed
  }

  lemma StaysOutside(s: State, r: State, n: set<Id>, n': set<Id>)
    requires Outside(s, n) && n <= n' && LeftAlone(s, r, n')
    ensures Outside(r, n')
  {
  }

  /** Whatever can be reached is in `n`. */
  lemma ReachableInside(s: State, n: set<Id>, i: Id)
    requires LiveClosed(s) && Closed(s, n) && Reachable(s, i)
    ensures i in n && Live(s, i) && forall x :: x in Refs(s, i) ==> x in n
  {
    var a := set o | o in n && o in s.heap && Live(s, o);
    forall o | o in Roots(s) ensures o in a { assert Live(s, o); }
    forall o, x | o in a && x in Refs(s, o) ensures x in a { assert Live(s, o) && Live(s, x); }
    ReachableWithin(s, a, i);
  }

  ghost predicate NoDead(s: State) { forall i :: i in s.heap ==> !IsDead(s, s.heap[i]) }

  // ---- marking stays inside -------------------------------------------------

  ghost predicate RefsWithin(s: State, n: set<Id>) { forall i, x :: i in n && x in Refs(s, i) ==> x in n }

  /** Marking leaves everything outside of `n` as it is. */
  ghost predicate MarksWithin(s: State, r: State, n: set<Id>) {
    && MarkOnly(s, r)
    && (forall i :: i in s.heap && i !in n ==> r.heap[i] == s.heap[i])
    && forall g :: g in r.gray ==> g in s.gray || g in n
  }

  lemma WithinKept(s: State, r: State, n: set<Id>)
    requires RefsWithin(s, n) && MarkOnly(s, r)
    ensures RefsWithin(r, n)
  {
    forall i ensures Refs(r, i) == Refs(s, i) { SameRefs(s, r, i); }
  }

  lemma PaintWithin(s: State, i: Id, c: Colour, n: set<Id>)
    requires RefsWithin(s, n) && i in s.heap
    ensures RefsWithin(Paint(s, i, c), n) && Refs(Paint(s, i, c), i) == Refs(s, i)
  {
    assert forall j :: Refs(Paint(s, i, c), j) == Refs(s, j);
  }

  lemma {:induction false} MarkIdWithin(s: State, i: Id, n: set<Id>)
    requires RefsWithin(s, n) && i in n
    ensures MarksWithin(s, MarkId(s, i), n)
    decreases Whites(s), 1
  {
    if i in s.heap && IsWhite(s.heap[i]) { ReallyMarkWithin(s, i, n); }
  }

  lemma {:induction false} ReallyMarkWithin(s: State, i: Id, n: set<Id>)
    requires RefsWithin(s, n) && i in n && i in s.heap && IsWhite(s.heap[i])
    ensures MarksWithin(s, ReallyMark(s, i), n)
    decreases Whites(s), 0
  {
    hide RefsWithin;
    var g := Paint(s, i, Gray);
    PaintWhites(s, i);
    PaintWithin(s, i, Gray, n);
    assert forall x :: x in Refs(s, i) ==> x in n by { RefsInside(s, i, n); }
    match s.heap[i].body
    case Str =>
    case Node(kind, refs) =>
      if kind == Userdata {
        PaintWithin(g, i, Black, n);
        MarkSeqWithin(Paint(g, i, Black), refs, n);
      }
    case OpenUp(th, level) => MarkSeqWithin(g, Values([Slot(s.heap, th, level)]), n);
    case ClosedUp(v) => MarkSeqWithin(g, Values([v]), n);
    case Thread(_, _, _) =>
  }

  lemma RefsInside(s: State, i: Id, n: set<Id>)
    requires RefsWithin(s, n) && i in n
    ensures forall x :: x in Refs(s, i) ==> x in n
  {
  }

  lemma {:induction false} MarkSeqWithin(s: State, ids: seq<Id>, n: set<Id>)
    requires RefsWithin(s, n) && forall x :: x in ids ==> x in n
    ensures MarksWithin(s, MarkSeq(s, ids), n)
    decreases Whites(s), 2, |ids|
  {
    hide RefsWithin, MarkId;
    if ids != [] {
      MarkIdWithin(s, ids[0], n);
      WithinKept(s, MarkId(s, ids[0]), n);
      MarkSeqWithin(MarkId(s, ids[0]), ids[1..], n);
    }
  }

  /** Only objects of `n` are marked or wait to be traversed. */
  ghost predicate GrayWithin(s: State, n: set<Id>) {
    && RefsWithin(s, n)
    && (forall i :: i in s.heap && i !in n ==> IsWhite(s.heap[i]))
    && (forall g :: g in s.gray ==> g in n) && forall g :: g in s.grayagain ==> g in n
  }

  /** A state of the mark phase, and a later one: outside of `n` nothing has changed. */
  ghost predicate Spared(s: State, r: State, n: set<Id>) {
    && Roots(r) == Roots(s) && r.white == s.white && r.heap.Keys == s.heap.Keys
    && (forall i :: Refs(r, i) == Refs(s, i))
    && forall i :: i in s.heap && i !in n ==> r.heap[i] == s.heap[i]
  }

  lemma SparedTrans(s: State, m: State, r: State, n: set<Id>)
    requires Spared(s, m, n) && Spared(m, r, n)
    ensures Spared(s, r, n)
  {
  }

  lemma MarkedSpares(s: State, r: State, n: set<Id>)
    requires GrayWithin(s, n) && MarksWithin(s, r, n)
    ensures GrayWithin(r, n) && Spared(s, r, n)
  {
    WithinKept(s, r, n);
    forall i ensures Refs(r, i) == Refs(s, i) { SameRefs(s, r, i); }
  }

  lemma PropagateSpares(s: State, n: set<Id>)
    requires GrayWithin(s, n) && s.gray != []
    ensures GrayWithin(PropagateMark(s), n) && Spared(s, PropagateMark(s), n)
  {
    hide MarkSeq, RefsWithin;
    var i := s.gray[0];
    assert i in n;
    if i in s.heap {
      var p := Popped(s);
      PoppedSpares(s, n);
      assert forall x :: x in Refs(s, i) ==> x in n by { RefsInside(s, i, n); }
      MarkSeqWithin(p, Refs(s, i), n);
      MarkedSpares(p, MarkSeq(p, Refs(s, i)), n);
      assert PropagateMark(s) == MarkSeq(p, Refs(s, i));
      SparedTrans(s, p, PropagateMark(s), n);
    } else {
      assert PropagateMark(s) == s.(gray := s.gray[1..]);
      assert RefsWithin(PropagateMark(s), n) by { SameBodies(s, PropagateMark(s), n); }
    }
  }

  lemma SameBodies(s: State, r: State, n: set<Id>)
    requires RefsWithin(s, n) && r.heap.Keys == s.heap.Keys
    requires forall i :: i in s.heap ==> r.heap[i].body == s.heap[i].body
    ensures RefsWithin(r, n) && forall i :: Refs(r, i) == Refs(s, i)
  {
  }

  lemma PoppedSpares(s: State, n: set<Id>)
    requires GrayWithin(s, n) && s.gray != [] && s.gray[0] in s.heap
    ensures GrayWithin(Popped(s), n) && Spared(s, Popped(s), n) && RefsWithin(Popped(s), n)
  {
    hide RefsWithin;
    SameBodies(s, Popped(s), n);
  }

  lemma {:induction false} PropagateAllSpares(s: State, n: set<Id>)
    requires GrayWithin(s, n)
    ensures GrayWithin(PropagateAll(s), n) && Spared(s, PropagateAll(s), n)
    decreases Whites(s), |s.gray|
  {
    hide GrayWithin, Spared, PropagateMark;
    if s.gray == [] {
      SparedSelf(s, n);
    } else {
      PropagateSpares(s, n);
      PropagateAllSpares(PropagateMark(s), n);
      SparedTrans(s, PropagateMark(s), PropagateAll(s), n);
    }
  }

  lemma SparedSelf(s: State, n: set<Id>)
    ensures Spared(s, s, n)
  {
  }

  lemma {:induction false} RemarkSpares(s: State, list: seq<Id>, n: set<Id>)
    requires GrayWithin(s, n)
    ensures GrayWithin(RemarkUpvals(s, list), n) && Spared(s, RemarkUpvals(s, list), n)
    decreases |list|
  {
    hide Spared, MarkSeq;
    if list == [] {
      SparedSelf(s, n);
    } else {
      var u := list[0];
      if u in s.heap && s.heap[u].colour == Gray {
        var m := MarkSeq(s, Refs(s, u));
        MarkSeqWithin(s, Refs(s, u), n);
        MarkedSpares(s, m, n);
        RemarkSpares(m, list[1..], n);
        SparedTrans(s, m, RemarkUpvals(s, list), n);
      } else {
        RemarkSpares(s, list[1..], n);
      }
    }
  }

  lemma AgainSpares(s: State, n: set<Id>)
    requires GrayWithin(s, n)
    ensures var c := s.(gray := s.grayagain, grayagain := []); GrayWithin(c, n) && Spared(s, c, n)
  {
    hide RefsWithin;
    SameBodies(s, s.(gray := s.grayagain, grayagain := []), n);
  }

  /** The marking of the atomic phase stays inside as well. */
  lemma AtomicMarkSpares(s: State, n: set<Id>)
    requires GrayWithin(s, n) && forall i :: i in Roots(s) ==> i in n
    ensures Spared(s, AtomicMark(s), n)
  {
    hide GrayWithin, Spared, RemarkUpvals, PropagateAll, MarkSeq, RefsWithin, MarksWithin;
    var a := RemarkUpvals(s, s.uvhead);
    RemarkSpares(s, s.uvhead, n);
    var s1 := PropagateAll(a);
    PropagateAllSpares(a, n);
    SparedTrans(s, a, s1, n);
    var ids := [s.running] + Values(s.mt);
    var b := MarkSeq(s1, ids);
    assert RefsWithin(s1, n) by { GrayRefs(s1, n); }
    MarkSeqWithin(s1, ids, n);
    MarkedSpares(s1, b, n);
    SparedTrans(s, s1, b, n);
    var s2 := PropagateAll(b);
    PropagateAllSpares(b, n);
    SparedTrans(s, b, s2, n);
    AgainSpares(s2, n);
    var c := s2.(gray := s2.grayagain, grayagain := []);
    SparedTrans(s, s2, c, n);
    PropagateAllSpares(c, n);
    SparedTrans(s, c, PropagateAll(c), n);
  }

  lemma GrayRefs(s: State, n: set<Id>)
    requires GrayWithin(s, n)
    ensures RefsWithin(s, n)
  {
  }

  // ---- collector steps ------------------------------------------------------

  lemma AllLiveWithin(s: State, n: set<Id>)
    requires Closed(s, n) && NoDead(s)
    ensures RefsWithin(s, n)
  {
    forall i, x | i in n && x in Refs(s, i) ensures x in n { assert Live(s, i); }
  }

  lemma WithinCloses(s: State, n: set<Id>)
    requires RefsWithin(s, n) && forall i :: i in Roots(s) ==> i in n
    ensures Closed(s, n)
  {
  }

  lemma PauseApart(s: State, n: set<Id>)
    requires Inv(s) && Apart(s, n) && s.phase == Pause
    ensures Apart(MarkRoot(s), n)
  {
    hide StructBut, NeverBlack, RefsWithin, Closed;
    AllClean(s);
    AllLiveWithin(s, n);
    var c := s.(gray := [], grayagain := []);
    SameBodies(s, c, n);
    StartsInside(s, n);
    var g := if s.main in s.heap && s.heap[s.main].body.Thread? then [s.heap[s.main].body.globals] else [];
    var ids := [s.main] + g + [s.registry] + Values(s.mt);
    hide Inv, NoDead, Values;
    MarkSeqWithin(c, ids, n);
    var r := MarkRoot(s);
    assert r == MarkSeq(c, ids).(phase := Propagate);
    SameBodies(c, r, n);
    assert forall i :: i in Roots(r) ==> i in n by { RootsInside(s, n); }
    WithinCloses(r, n);
  }

  lemma AllClean(s: State)
    requires Inv(s) && (s.phase == Pause || s.phase == Finalize)
    ensures NoDead(s) && forall i :: i in s.heap ==> IsWhite(s.heap[i])
  {
    hide StructBut, LiveClosed, NeverBlack;
    forall i | i in s.heap ensures s.heap[i].colour == White(s.white) { assert Clean(s, i); }
  }

  lemma RootsInside(s: State, n: set<Id>)
    requires Closed(s, n)
    ensures forall i :: i in Roots(s) ==> i in n
  {
  }

  lemma StartsInside(s: State, n: set<Id>)
    requires Closed(s, n) && NoDead(s)
    ensures s.main in n && s.registry in n && forall x :: x in Values(s.mt) ==> x in n
    ensures s.main in s.heap && s.heap[s.main].body.Thread? ==> s.heap[s.main].body.globals in n
  {
    assert s.main in Roots(s) && s.registry in Roots(s);
    if s.main in s.heap && s.heap[s.main].body.Thread? {
      assert Live(s, s.main) && s.heap[s.main].body.globals in Refs(s, s.main);
    }
  }

  lemma MarkingApart(s: State, n: set<Id>)
    requires Inv(s) && Apart(s, n) && s.phase == Propagate
    ensures GrayWithin(s, n) && NoDead(s) && forall i :: i in Roots(s) ==> i in n
  {
    hide StructBut, LiveClosed, NeverBlack, Covered;
    AllLiveWithin(s, n);
    forall g | g in s.gray || g in s.grayagain ensures g in n { assert s.heap[g].colour == Gray; }
  }

  lemma PropagateApart(s: State, n: set<Id>)
    requires Inv(s) && Apart(s, n) && s.phase == Propagate
    ensures Apart(SingleStep(s), n)
  {
    hide Inv, Closed, Outside;
    MarkingApart(s, n);
    if s.gray != [] {
      PropagateSpares(s, n);
      PropagatePhase(s);
      SparedApart(s, PropagateMark(s), n, PropagateMark(s));
    } else {
      AtomicMarkSpares(s, n);
      SparedApart(s, AtomicMark(s), n, Atomic(s));
    }
  }

  lemma SparedApart(s: State, m: State, n: set<Id>, r: State)
    requires Outside(s, n) && GrayWithin(s, n) && NoDead(s) && Spared(s, m, n) && s.phase == Propagate
    requires forall i :: i in Roots(s) ==> i in n
    requires (r == m && r.phase == Propagate) ||
      r == m.(white := !m.white, sweepstrgc := 0, sweepgc := 0, phase := SweepString)
    ensures Apart(r, n)
  {
    forall i, x | i in n && x in Refs(r, i) ensures x in n { assert x in Refs(m, i) && x in Refs(s, i); }
    forall i | i in r.heap && i !in n ensures r.heap[i] == s.heap[i] && s.heap[i].colour == White(s.white) {}
  }

  /** Steps that erase only what is dead, as sweeping and closing upvalues do outside the mark phase. */
  lemma ErasingApart(s: State, r: State, n: set<Id>)
    requires LiveClosed(s) && Inv(r) && Apart(s, n) && KeepsLive(s, r) && r.white == s.white
    requires s.phase != Propagate && r.phase != Propagate && (s.phase == Pause ==> r.phase == Pause)
    ensures Apart(r, n)
  {
    hide Inv, Refs;
    assert r.main == Roots(r)[0] == Roots(s)[0] && Live(s, r.main);
    forall i, x | i in n && Live(r, i) && x in Refs(r, i) ensures x in n {
      if Live(s, i) {
        assert Refs(r, i) == Refs(s, i);
      } else {
        FixedRefs(r, i);
      }
    }
  }

  /** A fixed object is a string or the main thread. */
  lemma FixedRefs(s: State, i: Id)
    requires Inv(s) && i in s.heap && s.heap[i].fixed
    ensures i == s.main || Refs(s, i) == []
  {
    hide LiveClosed, NeverBlack, PhaseOk;
    StructParts(s);
    assert ObjOk(s, i);
  }

  lemma SweepApart(s: State, n: set<Id>)
    requires Inv(s) && Apart(s, n) && (s.phase == SweepString || s.phase == Sweep)
    ensures Apart(SingleStep(s), n)
  {
    hide StructBut, NeverBlack, PhaseOk, LiveClosed, Apart, SingleStep, KeepsLive;
    SingleStepInv(s);
    SweepKeepsLive(s);
    SweepAdvances(s);
    ErasingApart(s, SingleStep(s), n);
  }

  /** A collector step, in any phase */
  lemma CollectApart(s: State, n: set<Id>)
    requires Inv(s) && Apart(s, n)
    ensures Apart(SingleStep(s), n)
  {
    hide Inv, Closed, Outside, PropagateMark, Atomic, SweepBucket, SweepRoots, MarkRoot;
    match s.phase
    case Pause => PauseApart(s, n);
    case Propagate => PropagateApart(s, n);
    case SweepString => SweepApart(s, n);
    case Sweep => SweepApart(s, n);
    case Finalize => PausedApart(s, n);
  }

  lemma PausedApart(s: State, n: set<Id>)
    requires Apart(s, n)
    ensures Apart(s.(phase := Pause), n)
  {
    var r := s.(phase := Pause);
    assert forall i :: Refs(r, i) == Refs(s, i) && (Live(r, i) <==> Live(s, i));
  }

  /** At the end of a sweep nothing is left outside. */
  lemma NothingLeft(s: State, n: set<Id>)
    requires Inv(s) && Apart(s, n) && s.phase == Finalize
    ensures forall i :: i in s.heap ==> i in n
  {
    AllClean(s);
  }

  // ---- actions of the program -----------------------------------------------

  /** What the actions below need to know about colours: in the mark phase nothing is dead. */
  ghost predicate MarkAlive(s: State) { s.phase == Propagate ==> NoDead(s) }

  /** An object of the same kind in place of another, with references inside `n` */
  lemma SetBodyApart(s: State, i: Id, b: Body, n: set<Id>)
    requires Apart(s, n) && i in s.heap && (b.Node? || b.ClosedUp? || b.Thread?)
    requires b.Thread? <==> s.heap[i].body.Thread?
    requires forall x :: x in BodyRefs(s.heap, b) ==> x in n
    ensures Apart(SetBody(s, i, b), n)
  {
    var r := SetBody(s, i, b);
    forall j, x | j in n && Live(r, j) && x in Refs(r, j) ensures x in n {
      assert Live(s, j);
      if j != i && s.heap[j].body.OpenUp? && s.heap[j].body.thread == i {
        if b.Thread? { assert Some(x) in b.stack; }
      } else if j != i {
        assert Refs(r, j) == Refs(s, j);
      }
    }
  }

  /** A stack slot is written. The thread itself may be garbage while an upvalue to its slot is not. */
  lemma SetStackApart(s: State, th: Id, level: nat, v: Ref, n: set<Id>)
    requires Apart(s, n) && (v.Some? ==> v.value in n)
    ensures Apart(SetStack(s, th, level, v), n)
  {
    var r := SetStack(s, th, level, v);
    if r != s {
      forall j, x | j in n && Live(r, j) && x in Refs(r, j) ensures x in n {
        assert Live(s, j);
        if Some(x) != v {
          if j == th {
            assert Some(x) in s.heap[th].body.stack || x == s.heap[th].body.globals;
            assert x in Refs(s, j);
          } else {
            assert x in Refs(s, j);
          }
        }
      }
    }
  }

  lemma PushApart(s: State, th: Id, v: Ref, n: set<Id>)
    requires Apart(s, n) && th in n && Live(s, th) && (v.Some? ==> v.value in n)
    ensures Apart(Push(s, th, v), n)
  {
    hide Apart;
    if th in s.heap && s.heap[th].body.Thread? {
      var b := s.heap[th].body.(stack := s.heap[th].body.stack + [v]);
      forall x | x in BodyRefs(s.heap, b) ensures x in n {
        if x == b.globals || Some(x) in s.heap[th].body.stack {
          assert x in Refs(s, th);
          LiveInside(s, n, th);
        } else {
          assert Some(x) == v;
        }
      }
      SetBodyApart(s, th, b, n);
    }
  }

  lemma LiveInside(s: State, n: set<Id>, i: Id)
    requires Apart(s, n) && i in n && Live(s, i)
    ensures forall x :: x in Refs(s, i) ==> x in n
  {
  }

  /** A new white object */
  lemma AppearedApart(s: State, id: Id, b: Body, r: State, n: set<Id>)
    requires ObjsOk(s) && Apart(s, n) && Appeared(s, id, b, r)
    requires b.Node? || b.ClosedUp? || b.Str? || b.Thread?
    requires forall x :: x in BodyRefs(s.heap, b) ==> x in n
    ensures Apart(r, n + {id})
  {
    hide ObjsOk;
    forall j, x | j in n + {id} && Live(r, j) && x in Refs(r, j) ensures x in n + {id} {
      if j != id {
        AppearedRefs(s, id, b, r, j);
        assert Live(s, j);
      }
    }
  }

  /** A dead object that is found again joins `n`, and what it refers to is inside already. */
  lemma ReviveApart(s: State, i: Id, n: set<Id>)
    requires Apart(s, n) && i in s.heap && forall x :: x in Refs(s, i) ==> x in n
    ensures Apart(Revive(s, i), n + {i})
  {
    var r := Revive(s, i);
    forall j ensures Refs(r, j) == Refs(s, j) {}
    forall j, x | j in n + {i} && Live(r, j) && x in Refs(r, j) ensures x in n + {i} {
      if j != i { assert Live(s, j); }
    }
  }

  lemma BarrierApart(s: State, o: Id, v: Ref, n: set<Id>)
    requires Apart(s, n) && o in n && (v.Some? ==> v.value in n) && MarkAlive(s)
    ensures Apart(Barrier(s, o, v), n)
  {
    var r := Barrier(s, o, v);
    if r != s && s.phase == Propagate {
      assert r == MarkId(s, v.value);
      hide MarkId;
      AllLiveWithin(s, n);
      MarkIdWithin(s, v.value, n);
      WithinKept(s, r, n);
      hide RefsWithin;
      WithinCloses(r, n);
    } else if r != s {
      forall j ensures Refs(r, j) == Refs(s, j) {}
      assert forall j :: Live(r, j) ==> Live(s, j);
    }
  }

  lemma BarrierTApart(s: State, t: Id, v: Ref, n: set<Id>)
    requires Apart(s, n) && t in n && MarkAlive(s)
    ensures Apart(BarrierT(s, t, v), n) && MarkAlive(BarrierT(s, t, v))
  {
    var r := BarrierT(s, t, v);
    forall j ensures Refs(r, j) == Refs(s, j) {}
    assert forall j :: Live(r, j) ==> Live(s, j);
  }

  lemma InvParts(s: State)
    requires Inv(s)
    ensures ObjsOk(s) && LiveClosed(s) && MarkAlive(s) && Live(s, s.running)
    ensures s.running in s.heap && s.heap[s.running].body.Thread?
  {
    hide StructBut, NeverBlack, LiveClosed, Tricolour;
    StructParts(s);
    RootsLive(s);
  }

  lemma UsableInside(s: State, n: set<Id>, v: Ref)
    requires Inv(s) && Apart(s, n) && Usable(s, v)
    ensures v.Some? ==> v.value in n
  {
    hide Closed, Outside, Reachable, StructBut, NeverBlack, PhaseOk;
    if v.Some? { ReachableInside(s, n, v.value); }
  }

  lemma RunningInside(s: State, n: set<Id>)
    requires Apart(s, n)
    ensures s.running in n
  {
  }

  lemma NewApart(s: State, id: Id, b: Body, n: set<Id>)
    requires Inv(s) && Enabled(s, New(id, b)) && Apart(s, n)
    ensures Apart(Apply(s, New(id, b)), n + {id})
  {
    hide Apart, Inv, Reachable;
    InvParts(s);
    forall x | x in BodyRefs(s.heap, b) ensures x in n { UsableInside(s, n, Some(x)); }
    var r := Link(s, id, b);
    assert Appeared(s, id, b, r);
    AppearedApart(s, id, b, r, n);
    RunningInside(s, n);
    PushApart(r, s.running, Some(id), n + {id});
  }

  lemma NewStringApart(s: State, id: Id, b: nat, n: set<Id>)
    requires Inv(s) && Enabled(s, NewString(id, b)) && Apart(s, n)
    ensures Apart(Apply(s, NewString(id, b)), n + {id})
  {
    hide Apart, Inv;
    InvParts(s);
    var r := s.(heap := s.heap[id := Obj(White(s.white), false, Str)], strt := s.strt[b := [id] + s.strt[b]]);
    assert Appeared(s, id, Str, r);
    AppearedApart(s, id, Str, r, n);
    RunningInside(s, n);
    PushApart(r, s.running, Some(id), n + {id});
  }

  lemma FindStringApart(s: State, i: Id, n: set<Id>)
    requires Inv(s) && Enabled(s, FindString(i)) && Apart(s, n)
    ensures Apart(Apply(s, FindString(i)), n + {i})
  {
    hide Apart, Inv;
    InvParts(s);
    ReviveApart(s, i, n);
    RunningInside(s, n);
    PushApart(Revive(s, i), s.running, Some(i), n + {i});
  }

  lemma ThreadApart(s: State, a: Action, n: set<Id>)
    requires Inv(s) && Enabled(s, a) && Apart(s, n)
    requires a.PushValue? || a.PopValues? || a.SetSlot? || a.SetGlobals?
    ensures Apart(Apply(s, a), n)
  {
    hide Inv, Closed, Outside, Reachable;
    InvParts(s);
    match a
    case PushValue(th, v) =>
      UsableInside(s, n, v);
      ReachableInside(s, n, th);
      PushApart(s, th, v, n);
    case PopValues(th, size) =>
      ReachableInside(s, n, th);
      PopApart(s, th, size, n);
    case SetSlot(th, level, v) =>
      UsableInside(s, n, v);
      SetStackApart(s, th, level, v, n);
    case SetGlobals(th, t) =>
      ReachableInside(s, n, th);
      ReachableInside(s, n, t);
      GlobalsApart(s, th, t, n);
  }

  lemma PopApart(s: State, th: Id, size: nat, n: set<Id>)
    requires Apart(s, n) && th in s.heap && s.heap[th].body.Thread? && size <= |s.heap[th].body.stack|
    requires forall x :: x in Refs(s, th) ==> x in n
    ensures Apart(Apply(s, PopValues(th, size)), n)
  {
    hide Apart;
    var b := s.heap[th].body.(stack := s.heap[th].body.stack[..size]);
    forall x | x in BodyRefs(s.heap, b) ensures x in n { assert x in Refs(s, th); }
    SetBodyApart(s, th, b, n);
  }

  lemma GlobalsApart(s: State, th: Id, t: Id, n: set<Id>)
    requires Apart(s, n) && th in s.heap && s.heap[th].body.Thread? && t in n
    requires forall x :: x in Refs(s, th) ==> x in n
    ensures Apart(Apply(s, SetGlobals(th, t)), n)
  {
    hide Apart;
    var b := s.heap[th].body.(globals := t);
    forall x | x in BodyRefs(s.heap, b) ensures x in n { assert x == t || x in Refs(s, th); }
    SetBodyApart(s, th, b, n);
  }

  lemma BodyAlive(s: State, i: Id, b: Body)
    requires MarkAlive(s) && i in s.heap
    ensures MarkAlive(SetBody(s, i, b))
  {
  }

  lemma TableApart(s: State, t: Id, refs: seq<Id>, k: Ref, v: Ref, n: set<Id>)
    requires Inv(s) && Enabled(s, SetTable(t, refs, k, v)) && Apart(s, n)
    ensures Apart(Apply(s, SetTable(t, refs, k, v)), n)
  {
    hide Inv, Apart, Reachable, BarrierT;
    InvParts(s);
    UsableInside(s, n, k);
    UsableInside(s, n, v);
    assert t in n && forall x :: x in Refs(s, t) ==> x in n by { IdInside(s, n, t); }
    var b := s.heap[t].body.(refs := refs);
    forall x | x in refs ensures x in n { assert x in Refs(s, t) || Some(x) == k || Some(x) == v; }
    SetBodyApart(s, t, b, n);
    BodyAlive(s, t, b);
    BarrierTApart(SetBody(s, t, b), t, k, n);
    BarrierTApart(BarrierT(SetBody(s, t, b), t, k), t, v, n);
  }

  lemma IdInside(s: State, n: set<Id>, i: Id)
    requires Inv(s) && Apart(s, n) && Reachable(s, i)
    ensures i in n && Live(s, i) && forall x :: x in Refs(s, i) ==> x in n
  {
    hide Closed, Outside, Reachable, StructBut, NeverBlack, PhaseOk;
    ReachableInside(s, n, i);
  }

  lemma FieldApart(s: State, o: Id, refs: seq<Id>, v: Ref, n: set<Id>)
    requires Inv(s) && Enabled(s, SetField(o, refs, v)) && Apart(s, n)
    ensures Apart(Apply(s, SetField(o, refs, v)), n)
  {
    hide Inv, Apart, Reachable, Barrier;
    InvParts(s);
    UsableInside(s, n, v);
    IdInside(s, n, o);
    var b := s.heap[o].body.(refs := refs);
    forall x | x in refs ensures x in n { assert x in Refs(s, o) || Some(x) == v; }
    SetBodyApart(s, o, b, n);
    BodyAlive(s, o, b);
    BarrierApart(SetBody(s, o, b), o, v, n);
  }

  lemma UpvalApart(s: State, u: Id, v: Ref, n: set<Id>)
    requires Inv(s) && Enabled(s, SetUpval(u, v)) && Apart(s, n)
    ensures Apart(Apply(s, SetUpval(u, v)), n)
  {
    hide Inv, Apart, Reachable, Barrier;
    InvParts(s);
    UsableInside(s, n, v);
    IdInside(s, n, u);
    if s.heap[u].body.OpenUp? {
      var th, level := s.heap[u].body.thread, s.heap[u].body.level;
      SetStackApart(s, th, level, v, n);
      assert MarkAlive(SetStack(s, th, level, v));
      BarrierApart(SetStack(s, th, level, v), u, v, n);
    } else {
      forall x | x in BodyRefs(s.heap, ClosedUp(v)) ensures x in n { assert Some(x) == v; }
      SetBodyApart(s, u, ClosedUp(v), n);
      BodyAlive(s, u, ClosedUp(v));
      BarrierApart(SetBody(s, u, ClosedUp(v)), u, v, n);
    }
  }

  lemma RootsApart(s: State, a: Action, n: set<Id>)
    requires Inv(s) && Enabled(s, a) && Apart(s, n) && (a.Resume? || a.SetMetatable? || a.ResizeStrings?)
    ensures Apart(Apply(s, a), n)
  {
    hide Inv, Reachable;
    var r := Apply(s, a);
    if a.Resume? { IdInside(s, n, a.thread); }
    if a.SetMetatable? { UsableInside(s, n, a.v); }
    assert forall i :: Refs(r, i) == Refs(s, i) && (Live(r, i) <==> Live(s, i));
    forall i | i in Roots(r) ensures i in n {
      assert i in Roots(s) || (a.Resume? && i == a.thread) || (a.SetMetatable? && Some(i) == a.v);
    }
  }

  /** A local variable is captured: its upvalue joins `n`, whether it is new or was found. */
  lemma CaptureApart(s: State, c: Id, level: nat, id: Id, n: set<Id>)
    requires Inv(s) && Enabled(s, Capture(c, level, id)) && Apart(s, n)
    ensures Apart(Apply(s, Capture(c, level, id)), n + {FindUpval(s, s.running, level, id).1})
  {
    hide Inv, Apart, Reachable, FindUpval;
    InvParts(s);
    IdInside(s, n, c);
    var (r, u) := FindUpval(s, s.running, level, id);
    FindUpvalApart(s, level, id, n);
    FindUpvalInv(s, level, id);
    var n' := n + {u};
    assert r.heap[c] == s.heap[c] && Refs(r, c) == Refs(s, c);
    var b := r.heap[c].body.(refs := r.heap[c].body.refs + [u]);
    forall x | x in b.refs ensures x in n' { assert x in Refs(s, c) || x == u; }
    SetBodyApart(r, c, b, n');
  }

  lemma FindUpvalApart(s: State, level: nat, id: Id, n: set<Id>)
    requires Inv(s) && id !in s.heap && Apart(s, n)
    requires s.running in s.heap && s.heap[s.running].body.Thread? && level < |s.heap[s.running].body.stack|
    ensures var (r, u) := FindUpval(s, s.running, level, id); Apart(r, n + {u})
  {
    hide Inv, Apart, FindUpval, Revive;
    InvParts(s);
    RunningInside(s, n);
    assert forall x :: x in Refs(s, s.running) ==> x in n by { LiveInside(s, n, s.running); }
    var q := OpenList(s, s.running);
    var k := Above(s.heap, q, level);
    if k < |q| && Level(s.heap, q[k]) == level {
      FindUpvalFound(s, s.running, level, id);
      assert q[k] in s.heap && s.heap[q[k]].body == OpenUp(s.running, level) by { FoundIs(s, q[k], level); }
      forall x | x in Refs(s, q[k]) ensures x in n { SlotInside(s, q[k], level, x); }
      ReviveApart(s, q[k], n);
    } else {
      FindUpvalAdds(s, s.running, level, id);
      AddedApart(s, s.running, level, id, FindUpval(s, s.running, level, id).0, n);
    }
  }

  lemma FoundIs(s: State, u: Id, level: nat)
    requires Inv(s) && u in OpenList(s, s.running) && Level(s.heap, u) == level
    ensures u in s.heap && s.heap[u].body == OpenUp(s.running, level)
  {
    hide Inv;
    FoundUpval(s, u, level);
  }

  lemma SlotInside(s: State, u: Id, level: nat, x: Id)
    requires s.running in s.heap && s.heap[s.running].body.Thread?
    requires u in s.heap && s.heap[u].body == OpenUp(s.running, level) && x in Refs(s, u)
    ensures x in Refs(s, s.running)
  {
    assert Some(x) in s.heap[s.running].body.stack;
  }

  lemma AddedApart(s: State, th: Id, level: nat, id: Id, r: State, n: set<Id>)
    requires ObjsOk(s) && Apart(s, n) && UpvalAdded(s, th, level, id, r)
    requires forall x :: x in Refs(s, th) ==> x in n
    ensures Apart(r, n + {id})
  {
    hide ObjsOk;
    forall j, x | j in n + {id} && Live(r, j) && x in Refs(r, j) ensures x in n + {id} {
      if j == id {
        assert Some(x) in s.heap[th].body.stack;
        assert x in Refs(s, th);
      } else {
        assert Live(s, j);
        assert Refs(r, j) == Refs(s, j) by { AddedRefs(s, th, level, id, r, j); }
      }
    }
  }

  lemma AddedRefs(s: State, th: Id, level: nat, id: Id, r: State, j: Id)
    requires ObjsOk(s) && UpvalAdded(s, th, level, id, r) && j in s.heap
    ensures Refs(r, j) == Refs(s, j)
  {
    assert ObjOk(s, j);
  }

  // ---- closing upvalues -----------------------------------------------------

  lemma CloseTopApart(s: State, th: Id, n: set<Id>)
    requires Inv(s) && s.phase == Propagate && OpenList(s, th) != [] && Apart(s, n)
    ensures Apart(CloseTop(s, th), n)
  {
    hide Inv, Apart, CloseTop, Barrier;
    InvParts(s);
    CloseTopKnown(s, th);
    var u, w := OpenList(s, th)[0], ClosedTop(s, th);
    ClosedTopRefs(s, th);
    SameMarksApart(s, w, n);
    if s.heap[u].colour == Gray {
      assert u in n && Live(s, u) by { GrayInside(s, n, u); }
      var b, v := Paint(w, u, Black), w.heap[u].body.value;
      forall x | Some(x) == v ensures x in n { ClosedInside(s, w, n, u, x); }
      PaintApart(w, u, n);
      BarrierApart(b, u, v, n);
    }
  }

  lemma CloseTopKnown(s: State, th: Id)
    requires Inv(s) && s.phase == Propagate && OpenList(s, th) != []
    ensures var u := OpenList(s, th)[0];
      && u in s.heap && u != th
      && var w := ClosedTop(s, th);
      CloseTop(s, th) ==
        if s.heap[u].colour == Gray then Barrier(Paint(w, u, Black), u, w.heap[u].body.value) else w
  {
    hide StructBut, LiveClosed, Tricolour, NeverBlack, ClosedTop, CloseTop, Barrier;
    InvParts(s);
    CloseTopIs(s, th);
  }

  lemma SameMarksApart(s: State, w: State, n: set<Id>)
    requires Apart(s, n) && MarkAlive(s) && w.phase == s.phase && w.white == s.white && Roots(w) == Roots(s)
    requires w.heap.Keys == s.heap.Keys && forall j :: Refs(w, j) == Refs(s, j)
    requires forall j :: j in s.heap ==> w.heap[j].colour == s.heap[j].colour && w.heap[j].fixed == s.heap[j].fixed
    ensures Apart(w, n) && MarkAlive(w)
  {
    assert forall j :: Live(w, j) <==> Live(s, j);
  }

  lemma GrayInside(s: State, n: set<Id>, u: Id)
    requires Apart(s, n) && s.phase == Propagate && u in s.heap && s.heap[u].colour == Gray
    ensures u in n && Live(s, u)
  {
  }

  lemma ClosedInside(s: State, w: State, n: set<Id>, u: Id, x: Id)
    requires Apart(s, n) && u in n && Live(s, u) && Refs(w, u) == Refs(s, u)
    requires u in w.heap && w.heap[u].body == ClosedUp(Some(x))
    ensures x in n
  {
    assert x in Refs(w, u);
  }

  lemma PaintApart(s: State, i: Id, n: set<Id>)
    requires Apart(s, n) && MarkAlive(s) && i in n && i in s.heap && s.phase == Propagate
    ensures Apart(Paint(s, i, Black), n) && MarkAlive(Paint(s, i, Black))
  {
    var r := Paint(s, i, Black);
    assert forall j :: Refs(r, j) == Refs(s, j);
    assert forall j :: Live(r, j) ==> Live(s, j);
  }

  lemma {:induction false} CloseMarkingApart(s: State, th: Id, level: nat, n: set<Id>)
    requires Inv(s) && s.phase == Propagate && Apart(s, n)
    ensures Apart(Close(s, th, level), n)
    decreases |OpenList(s, th)|
  {
    hide Inv, Apart, CloseTop;
    if OpenList(s, th) != [] && Level(s.heap, OpenList(s, th)[0]) >= level {
      CloseTopMarking(s, th);
      CloseTopApart(s, th, n);
      CloseMarkingApart(CloseTop(s, th), th, level, n);
    }
  }

  lemma CloseApart(s: State, level: nat, n: set<Id>)
    requires Inv(s) && Apart(s, n)
    ensures Apart(Close(s, s.running, level), n)
  {
    hide Apart, Close, StructBut, LiveClosed, NeverBlack, PhaseOk;
    InvParts(s);
    if s.phase == Propagate {
      CloseMarkingApart(s, s.running, level, n);
    } else {
      CloseInv(s, s.running, level);
      CloseErases(s, s.running, level, {});
      ErasingApart(s, Close(s, s.running, level), n);
    }
  }

  // ---- runs -----------------------------------------------------------------

  /** The program finds object `i` again without a reference to it: a string, or the upvalue of a local variable. */
  ghost predicate Finds(s: State, a: Action, i: Id) {
    a == FindString(i) || (a.Capture? && FindUpval(s, s.running, a.level, a.id).1 == i)
  }

  /** No action lets what is outside come in, but for what it finds. */
  lemma StepApart(s: State, a: Action, n: set<Id>, i: Id) returns (n': set<Id>)
    requires Inv(s) && Enabled(s, a) && Apart(s, n) && i in s.heap && i !in n && !Finds(s, a, i)
    ensures Apart(Apply(s, a), n') && i !in n'
  {
    hide Inv, Apart, Reachable, FindUpval, Apply, SingleStep;
    n' := n;
    match a
    case Collect =>
      CollectApart(s, n);
      CollectIs(s);
    case New(id, b) => NewApart(s, id, b, n); n' := n + {id};
    case NewString(id, b) => NewStringApart(s, id, b, n); n' := n + {id};
    case FindString(x) => FindStringApart(s, x, n); n' := n + {x};
    case PushValue(_, _) => ThreadApart(s, a, n);
    case PopValues(_, _) => ThreadApart(s, a, n);
    case SetSlot(_, _, _) => ThreadApart(s, a, n);
    case SetGlobals(_, _) => ThreadApart(s, a, n);
    case SetTable(t, refs, k, v) => TableApart(s, t, refs, k, v, n);
    case SetField(o, refs, v) => FieldApart(s, o, refs, v, n);
    case SetUpval(u, v) => UpvalApart(s, u, v, n);
    case Capture(c, level, id) => CaptureApart(s, c, level, id, n); n' := n + {FindUpval(s, s.running, level, id).1};
    case CloseUpvals(level) =>
      CloseApart(s, level, n);
      CloseIs(s, level);
    case Resume(_) => RootsApart(s, a, n);
    case SetMetatable(_, _) => RootsApart(s, a, n);
    case ResizeStrings(_) => RootsApart(s, a, n);
  }

  lemma CollectIs(s: State)
    ensures Apply(s, Collect) == SingleStep(s)
  {
  }

  lemma CloseIs(s: State, level: nat)
    ensures Apply(s, CloseUpvals(level)) == Close(s, s.running, level)
  {
  }

  /** What is reachable or fixed when a collection is about to start */
  ghost function Inside(s: State): set<Id> { set i | i in s.heap && (Reachable(s, i) || s.heap[i].fixed) }

  lemma InsideApart(s: State)
    requires Inv(s) && s.phase == Pause
    ensures Apart(s, Inside(s))
  {
    hide StructBut, NeverBlack, PhaseOk, Reachable;
    var n := Inside(s);
    forall i | i in Roots(s) ensures i in n { RootReachable(s, i); assert Live(s, i); }
    forall i, x | i in n && Live(s, i) && x in Refs(s, i) ensures x in n {
      assert Live(s, x);
      if !Reachable(s, i) {
        FixedRefs(s, i);
        RootReachable(s, s.main);
      } else {
        EdgeReachable(s, i, x);
      }
    }
  }

  /** As long as `i` has not been erased, it stays outside. */
  lemma {:induction false} RunApart(s: State, run: seq<Action>, k: nat, i: Id) returns (n: set<Id>)
    requires Inv(s) && IsRun(s, run) && k <= |run| && s.phase == Pause && i !in Inside(s)
    requires forall j :: 0 <= j < k ==> !Finds(StateAt(s, run, j), run[j], i)
    requires forall j :: 0 <= j <= k ==> i in StateAt(s, run, j).heap
    ensures Apart(StateAt(s, run, k), n) && i !in n
  {
    hide Inv, Apart, Apply, Enabled, Finds, Inside;
    if k == 0 {
      InsideApart(s);
      n := Inside(s);
    } else {
      n := RunApart(s, run, k - 1, i);
      RunInv(s, run, k - 1);
      n := StepApart(StateAt(s, run, k - 1), run[k - 1], n, i);
    }
  }

  /**
   What is neither reachable nor fixed when a collection starts is erased by the end of its sweep,
   whatever the program does in between, unless the program finds it again.
   */
  lemma GarbageGoes(s: State, run: seq<Action>, m: nat, i: Id)
    requires Inv(s) && s.phase == Pause && IsRun(s, run)
    requires !Reachable(s, i) && (i in s.heap ==> !s.heap[i].fixed)
    requires m <= |run| && StateAt(s, run, m).phase == Finalize
    requires forall j :: 0 <= j < m ==> !Finds(StateAt(s, run, j), run[j], i)
    ensures exists k: nat :: k <= m && i !in StateAt(s, run, k).heap
  {
    hide Inv, Apart, Apply, Enabled, Finds, Reachable;
    if forall k: nat :: k <= m ==> i in StateAt(s, run, k).heap {
      var n := RunApart(s, run, m, i);
      RunInv(s, run, m);
      NothingLeft(StateAt(s, run, m), n);
      assert false;
    }
  }
}
