/** luaC_fullgc: a full collection leaves exactly what is reachable or fixed. */
module GcFull {
  import opened Basics
  import opened GcHeap
  import opened GcMark
  import opened GcSweep
  import opened GcSafety

  // ---- termination ----------------------------------------------------------

  function PhaseRank(p: Phase): nat {
    match p
    case Propagate => 4
    case SweepString => 3
    case Sweep => 2
    case Finalize => 1
    case Pause => 0
  }

  /** What is left to do in a sweep phase. */
  ghost function SweepLeft(s: State): nat
    requires Struct(s)
  {
    if s.phase == SweepString then (if s.sweepstrgc < |s.strt| then |s.strt| - s.sweepstrgc else 0)
    else |s.rootgc| - s.sweepgc + |s.uvhead|
  }

  lemma BucketDecreases(s: State)
    requires Inv(s) && s.phase == SweepString
    ensures Struct(SweepBucket(s))
    ensures SweepBucket(s).phase == Sweep || (SweepBucket(s).phase ==
        SweepString && SweepLeft(SweepBucket(s)) < SweepLeft(s))
    ensures SweepBucket(s).white == s.white
  {
    SweepBucketKeeps(s);
    hide StructBut, LiveClosed, NeverBlack, CleanStrings, SweepList;
    BucketCounts(s);
  }

  lemma BucketCounts(s: State)
    requires s.sweepstrgc < |s.strt|
    ensures var r := SweepBucket(s);
      && |r.strt| == |s.strt| && r.sweepstrgc == s.sweepstrgc + 1 && (r.phase == s.phase || r.phase == Sweep)
      && r.white == s.white
  {
    SweepListRest(s, s.strt[s.sweepstrgc]);
  }

  lemma {:induction false} SweepListRest(s: State, list: seq<Id>)
    ensures var r := SweepList(s, list).0; r == s.(heap := r.heap, uvhead := r.uvhead)
    decreases |list|
  {
    if list != [] {
      var i := list[0];
      SweepListRest(if i !in s.heap then s else if Erasable(s, s.heap[i]) then Free(s, i)
          else Paint(s, i, White(s.white)), list[1..]);
    }
  }

  lemma SweepAdvances(s: State)
    requires Inv(s) && (s.phase == SweepString || s.phase == Sweep)
    ensures var r := SingleStep(s);
      && Struct(s) && Struct(r) && (r.phase == SweepString || r.phase == Sweep || r.phase == Finalize)
      && (PhaseRank(r.phase) < PhaseRank(s.phase) || (r.phase == s.phase && SweepLeft(r) < SweepLeft(s)))
      && r.white == s.white
  {
    hide Struct, LiveClosed, NeverBlack, SweepBucket, SweepRoots, SweepLeft, PhaseOk, Atomic, PropagateMark, MarkRoot;
    if s.phase == SweepString {
      BucketDecreases(s);
      assert SingleStep(s) == SweepBucket(s);
    } else {
      SweepDecreases(s);
    }
  }

  lemma SweepDecreases(s: State)
    requires Inv(s) && s.phase == Sweep
    ensures var r := SingleStep(s);
      && Struct(r) && (r.phase == Finalize || (r.phase == Sweep && SweepLeft(r) < SweepLeft(s)))
      && r.white == s.white
  {
    hide NoDup, StringsOk, ObjsOk, ThreadsOk, UpvalsListed;
    SweepStepInv(s);
    assert SweepInv(s);
    hide Struct, LiveClosed, NeverBlack, CleanStrings, CleanRoots, SweepRoots, KeepsLive;
    SweepRootsKeeps(s, SWEEP_MAX);
  }

  /** Singlestep until the sweep phases are over. */
  ghost function UntilFinalize(s: State): (r: State)
    requires Inv(s) && (s.phase == SweepString || s.phase == Sweep || s.phase == Finalize)
    ensures Inv(r) && r.phase == Finalize
    decreases PhaseRank(s.phase), SweepLeft(s)
  {
    if s.phase == Finalize then s
    else
      SingleStepInv(s);
      SweepAdvances(s);
      UntilFinalize(SingleStep(s))
  }

  /** Singlestep until the mark phase is over. */
  ghost function UntilSwept(s: State): (r: State)
    requires Inv(s) && s.phase == Propagate
    ensures Inv(r) && r.phase == SweepString
    decreases Whites(s), |s.gray|
  {
    if s.gray == [] then
      AtomicStep(s);
      Atomic(s)
    else
      PropagateStep(s);
      UntilSwept(PropagateMark(s))
  }

  lemma AtomicStep(s: State)
    requires Inv(s) && s.phase == Propagate && s.gray == []
    ensures Inv(Atomic(s)) && Atomic(s).phase == SweepString && Atomic(s).white != s.white
  {
    AtomicFlips(s);
    hide Inv;
    AtomicKeeps(s);
  }

  lemma AtomicFlips(s: State)
    requires Inv(s) && s.phase == Propagate && s.gray == []
    ensures Atomic(s).phase == SweepString && Atomic(s).white != s.white
  {
    hide StructBut, LiveClosed, NeverBlack, Tricolour, AtomicMark, Shape, Covered;
    assert UpvalsListed(s) by { StructParts(s); }
    AtomicMarkComplete(s);
  }

  lemma PropagateStep(s: State)
    requires Inv(s) && s.phase == Propagate && s.gray != []
    ensures Inv(PropagateMark(s)) && PropagateMark(s).phase == Propagate
  {
    PropagatePhase(s);
    hide Inv, PropagateMark;
    PropagateMarkInv(s);
  }

  lemma PropagatePhase(s: State)
    requires Inv(s) && s.phase == Propagate && s.gray != []
    ensures PropagateMark(s).phase == Propagate && PropagateMark(s).white == s.white
    ensures Marked(s, PropagateMark(s))
  {
    hide StructBut, LiveClosed, NeverBlack, PropagateMark;
    PropagateMarkKeeps(s, Exempt(s));
  }

  /** The state luaC_fullgc starts sweeping from: an unfinished mark phase is abandoned. */
  function Abandon(s: State): State {
    if s.phase == Pause || s.phase == Propagate
    then s.(sweepstrgc := 0, sweepgc := 0, gray := [], grayagain := [], phase := SweepString)
    else s
  }

  lemma AbandonInv(s: State)
    requires Inv(s)
    ensures Inv(Abandon(s))
  {
    var r := Abandon(s);
    if r != s {
      SameListsStruct(s, r, {});
      assert forall i :: Refs(r, i) == Refs(s, i);
      LiveKept(s, r);
    }
  }

  /** luaC_fullgc */
  ghost function FullGC(s: State): State
    requires Inv(s)
  {
    AbandonInv(s);
    var f := UntilFinalize(Abandon(s));
    MarkRootKeeps(f);
    SingleStep(UntilFinalize(UntilSwept(MarkRoot(f))))
  }

  // ---- exactness ------------------------------------------------------------

  /** Every marked object is reachable: true while only the collector runs. */
  ghost predicate MarksReachable(s: State) {
    forall i :: i in s.heap && !IsWhite(s.heap[i]) ==> Reachable(s, i)
  }

  lemma ReachableSame(s: State, r: State)
    requires Roots(r) == Roots(s) && forall i :: Refs(r, i) == Refs(s, i)
    ensures forall i :: Reachable(s, i) ==> Reachable(r, i)
  {
    forall i | Reachable(s, i) ensures Reachable(r, i) {
      var p :| Path(s, p) && p[|p| - 1] == i;
      assert Path(r, p);
    }
  }

  lemma PaintReachable(s: State, i: Id, c: Colour)
    requires MarksReachable(s) && i in s.heap && Reachable(s, i)
    ensures MarksReachable(Paint(s, i, c)) && forall j :: Reachable(s, j) ==> Reachable(Paint(s, i, c), j)
    ensures forall gray :: MarksReachable(Paint(s, i, c).(gray := gray))
  {
    var r := Paint(s, i, c);
    assert forall j :: Refs(r, j) == Refs(s, j);
    ReachableSame(s, r);
    forall gray ensures MarksReachable(r.(gray := gray)) {
      assert forall j :: Refs(r.(gray := gray), j) == Refs(r, j);
      ReachableSame(r, r.(gray := gray));
    }
  }

  lemma MarkReachableSame(s: State, r: State)
    requires MarkOnly(s, r)
    ensures forall j :: Reachable(s, j) ==> Reachable(r, j)
    ensures forall j :: Reachable(r, j) ==> Reachable(s, j)
  {
    assert forall j :: Refs(r, j) == Refs(s, j);
    ReachableSame(s, r);
    ReachableSame(r, s);
  }

  lemma {:induction false} MarkIdReachable(s: State, i: Id)
    requires MarksReachable(s) && Reachable(s, i)
    ensures MarksReachable(MarkId(s, i))
    decreases Whites(s), 1
  {
    if i in s.heap && IsWhite(s.heap[i]) { ReallyMarkReachable(s, i); }
  }

  lemma {:induction false} ReallyMarkReachable(s: State, i: Id)
    requires i in s.heap && IsWhite(s.heap[i]) && MarksReachable(s) && Reachable(s, i)
    ensures MarksReachable(ReallyMark(s, i))
    decreases Whites(s), 0
  {
    hide Reachable, MarksReachable;
    var g := Paint(s, i, Gray);
    assert i in Whites(s) && i !in Whites(g) && Whites(g) <= Whites(s);
    PaintReachable(s, i, Gray);
    forall x | x in Refs(s, i) ensures Reachable(s, x) { EdgeReachable(s, i, x); }
    match s.heap[i].body
    case Str =>
    case Node(kind, refs) =>
      if kind == Userdata {
        PaintReachable(s, i, Black);
        assert Paint(g, i, Black) == Paint(s, i, Black);
        MarkSeqReachable(Paint(s, i, Black), refs);
      }
    case OpenUp(th, level) =>
      MarkSeqReachable(g, Values([Slot(s.heap, th, level)]));
    case ClosedUp(v) =>
      MarkSeqReachable(g, Values([v]));
      MarkReachableSame(g, MarkSeq(g, Values([v])));
      PaintReachable(MarkSeq(g, Values([v])), i, Black);
    case Thread(_, _, _) =>
  }

  lemma {:induction false} MarkSeqReachable(s: State, ids: seq<Id>)
    requires MarksReachable(s) && forall x :: x in ids ==> Reachable(s, x)
    ensures MarksReachable(MarkSeq(s, ids))
    decreases Whites(s), 2, |ids|
  {
    hide Reachable, MarksReachable, MarkId;
    if ids != [] {
      MarkIdReachable(s, ids[0]);
      MarkReachableSame(s, MarkId(s, ids[0]));
      MarkSeqReachable(MarkId(s, ids[0]), ids[1..]);
    }
  }

  lemma PropagateMarkReachable(s: State)
    requires s.gray != [] && Shape(s, {}) && MarksReachable(s)
    ensures MarksReachable(PropagateMark(s))
  {
    var i := s.gray[0];
    var p := Popped(s);
    assert Reachable(s, i);
    forall x | x in Refs(s, i) ensures Reachable(s, x) { EdgeReachable(s, i, x); }
    assert Roots(p) == Roots(s) && forall j :: Refs(p, j) == Refs(s, j);
    ReachableSame(s, p);
    assert MarksReachable(p);
    hide Reachable, MarksReachable;
    MarkSeqReachable(p, Refs(s, i));
  }

  lemma {:induction false} PropagateAllReachable(s: State)
    requires Shape(s, {}) && Covered(s, s.heap.Keys) && MarksReachable(s)
    ensures MarksReachable(PropagateAll(s))
    decreases Whites(s), |s.gray|
  {
    hide Shape, Covered, MarksReachable, PropagateMark;
    if s.gray != [] {
      PropagateMarkKeeps(s, s.heap.Keys);
      PropagateMarkReachable(s);
      PropagateAllReachable(PropagateMark(s));
    }
  }

  lemma {:induction false} RemarkReachable(s: State, list: seq<Id>)
    requires MarksReachable(s) && Shape(s, {})
    ensures MarksReachable(RemarkUpvals(s, list)) && Shape(RemarkUpvals(s, list), {})
    decreases |list|
  {
    if list != [] {
      var u := list[0];
      if u in s.heap && s.heap[u].colour == Gray {
        forall x | x in Refs(s, u) ensures Reachable(s, x) { EdgeReachable(s, u, x); }
        MarkSeqReachable(s, Refs(s, u));
        MarkSeqShape(s, Refs(s, u), {});
        RemarkReachable(MarkSeq(s, Refs(s, u)), list[1..]);
      } else {
        RemarkReachable(s, list[1..]);
      }
    }
  }

  lemma AllCovered(s: State)
    ensures Covered(s, s.heap.Keys)
  {
  }

  lemma AtomicMarkReachable(s: State)
    requires MarksReachable(s) && Shape(s, {})
    ensures MarksReachable(AtomicMark(s))
  {
    hide Shape, Covered, MarksReachable, Reachable, RemarkUpvals, PropagateAll, MarkSeq;
    var a := RemarkUpvals(s, s.uvhead);
    RemarkReachable(s, s.uvhead);
    AllCovered(a);
    PropagateAllReachable(a);
    PropagateAllKeeps(a, a.heap.Keys);
    var s1 := PropagateAll(a);
    var ids := [s.running] + Values(s.mt);
    forall x | x in ids ensures Reachable(s1, x) { RootReachable(s1, x); }
    MarkSeqReachable(s1, ids);
    MarkSeqShape(s1, ids, {});
    var b := MarkSeq(s1, ids);
    AllCovered(b);
    PropagateAllReachable(b);
    PropagateAllKeeps(b, b.heap.Keys);
    var s2 := PropagateAll(b);
    var c := s2.(gray := s2.grayagain, grayagain := []);
    assert MarksReachable(c) && Shape(c, {}) by { GrayAgainReachable(s2); }
    AllCovered(c);
    PropagateAllReachable(c);
  }

  lemma GrayAgainReachable(s: State)
    requires MarksReachable(s) && Shape(s, {}) && s.gray == []
    ensures var c := s.(gray := s.grayagain, grayagain := []); MarksReachable(c) && Shape(c, {})
  {
    var c := s.(gray := s.grayagain, grayagain := []);
    assert forall j :: Refs(c, j) == Refs(s, j);
    ReachableSame(s, c);
    forall j | j in c.heap ensures ColourOk(c, j, {}) { assert ColourOk(s, j, {}); }
  }

  lemma MarkRootReachable(s: State)
    requires forall i :: i in s.heap ==> IsWhite(s.heap[i])
    requires s.main in s.heap
    ensures MarksReachable(MarkRoot(s))
  {
    var c := s.(gray := [], grayagain := []);
    var g := if s.main in s.heap && s.heap[s.main].body.Thread? then [s.heap[s.main].body.globals] else [];
    var ids := [s.main] + g + [s.registry] + Values(s.mt);
    assert MarksReachable(c);
    forall x | x in ids ensures Reachable(c, x) {
      if x in Roots(c) {
        RootReachable(c, x);
      } else {
        RootReachable(c, c.main);
        assert x in Refs(c, c.main);
        EdgeReachable(c, c.main, x);
      }
    }
    MarkSeqReachable(c, ids);
    var m := MarkSeq(c, ids);
    assert forall j :: Refs(MarkRoot(s), j) == Refs(m, j);
    ReachableSame(m, MarkRoot(s));
  }

  /** Only reachable and fixed objects are live: true once the atomic step has been taken. */
  ghost predicate LiveExact(s: State) {
    forall i :: Live(s, i) ==> Reachable(s, i) || s.heap[i].fixed
  }

  lemma AtomicExact(s: State)
    requires Inv(s) && s.phase == Propagate && s.gray == [] && MarksReachable(s)
    ensures LiveExact(Atomic(s))
  {
    hide AtomicMark, Shape, Covered, StructBut, NeverBlack, LiveClosed;
    assert UpvalsListed(s) by { StructParts(s); }
    AtomicMarkReachable(s);
    AtomicMarkComplete(s);
    var m, r := AtomicMark(s), Atomic(s);
    assert forall j :: Refs(r, j) == Refs(m, j);
    ReachableSame(m, r);
  }

  /** Sweeping leaves the same objects reachable. */
  lemma SweepReachable(s: State, r: State)
    requires LiveClosed(s) && KeepsLive(s, r)
    ensures forall i :: Reachable(s, i) ==> Reachable(r, i)
  {
    forall i | Reachable(s, i) ensures Reachable(r, i) {
      var p :| Path(s, p) && p[|p| - 1] == i;
      PathForth(s, r, p);
    }
  }

  lemma {:induction false} PathForth(s: State, r: State, p: seq<Id>)
    requires LiveClosed(s) && KeepsLive(s, r) && Path(s, p)
    ensures Reachable(s, p[|p| - 1]) && Reachable(r, p[|p| - 1])
  {
    if |p| == 1 {
      RootReachable(s, p[0]);
      RootReachable(r, p[0]);
    } else {
      var q := p[..|p| - 1];
      PathForth(s, r, q);
      ReachableLive(s, q[|q| - 1]);
      EdgeReachable(s, q[|q| - 1], p[|p| - 1]);
      EdgeReachable(r, q[|q| - 1], p[|p| - 1]);
    }
  }

  lemma SweepUnreachable(s: State, r: State)
    requires LiveClosed(s) && KeepsLive(s, r)
    ensures forall i :: Reachable(r, i) ==> Reachable(s, i)
  {
    forall i | Reachable(r, i) ensures Reachable(s, i) {
      var p :| Path(r, p) && p[|p| - 1] == i;
      PathBack(s, r, p);
    }
  }

  lemma {:induction false} PathBack(s: State, r: State, p: seq<Id>)
    requires LiveClosed(s) && KeepsLive(s, r) && Path(r, p)
    ensures Reachable(s, p[|p| - 1])
  {
    if |p| == 1 {
      RootReachable(s, p[0]);
    } else {
      var q := p[..|p| - 1];
      PathBack(s, r, q);
      ReachableLive(s, q[|q| - 1]);
      EdgeReachable(s, q[|q| - 1], p[|p| - 1]);
    }
  }

  lemma SweepExact(s: State, r: State)
    requires LiveClosed(s) && KeepsLive(s, r) && LiveExact(s)
    ensures LiveExact(r)
  {
    SweepReachable(s, r);
  }

  // ---- whole collections ----------------------------------------------------

  /** What a run of sweep steps preserves. */
  lemma {:induction false} UntilFinalizeKeeps(s: State)
    requires Inv(s) && (s.phase == SweepString || s.phase == Sweep || s.phase == Finalize)
    ensures KeepsLive(s, UntilFinalize(s)) && UntilFinalize(s).white == s.white
    decreases PhaseRank(s.phase), SweepLeft(s)
  {
    hide Inv, SingleStep, KeepsLive;
    KeepsItself(s);
    if s.phase != Finalize {
      SingleStepInv(s);
      SweepKeepsLive(s);
      SweepAdvances(s);
      UntilFinalizeKeeps(SingleStep(s));
      KeepsLiveTrans(s, SingleStep(s), UntilFinalize(s));
    }
  }

  lemma {:induction false} UntilSweptExact(s: State)
    requires Inv(s) && s.phase == Propagate && MarksReachable(s)
    ensures LiveExact(UntilSwept(s)) && UntilSwept(s).white != s.white
    ensures UntilSwept(s).heap.Keys == s.heap.Keys
    ensures forall i :: Reachable(UntilSwept(s), i) <==> Reachable(s, i)
    ensures forall i :: i in s.heap ==> UntilSwept(s).heap[i].fixed == s.heap[i].fixed
    decreases Whites(s), |s.gray|
  {
    hide Reachable, Atomic, PropagateMark, StructBut, LiveClosed, NeverBlack, Covered, Shape, MarksReachable, LiveExact;
    if s.gray == [] {
      AtomicStep(s);
      AtomicExact(s);
      AtomicSame(s);
    } else {
      var m := PropagateMark(s);
      PropagateStep(s);
      PropagatePhase(s);
      PropagateMarkReachable(s);
      PropagateSame(s, m);
      UntilSweptExact(m);
    }
  }

  lemma PropagateSame(s: State, m: State)
    requires Marked(s, m)
    ensures forall i :: Reachable(m, i) <==> Reachable(s, i)
    ensures forall i :: i in s.heap ==> m.heap[i].fixed == s.heap[i].fixed
  {
    MarkedRefs(s, m);
    ReachableSame(s, m);
    ReachableSame(m, s);
  }

  lemma AtomicSame(s: State)
    requires Inv(s) && s.phase == Propagate && s.gray == []
    ensures Atomic(s).heap.Keys == s.heap.Keys
    ensures forall i :: Reachable(Atomic(s), i) <==> Reachable(s, i)
    ensures forall i :: i in s.heap ==> Atomic(s).heap[i].fixed == s.heap[i].fixed
  {
    hide AtomicMark, Shape, Covered, NeverBlack, LiveClosed, Reachable, NoDup;
    AtomicMarkComplete(s);
    assert forall j :: Refs(Atomic(s), j) == Refs(s, j);
    ReachableSame(s, Atomic(s));
    ReachableSame(Atomic(s), s);
  }

  /** Sweeping after an abandoned mark phase frees nothing. */
  lemma AbandonedFreesNothing(s: State)
    requires Inv(s) && (s.phase == Pause || s.phase == Propagate)
    ensures Inv(Abandon(s)) && UntilFinalize(Abandon(s)).heap.Keys == s.heap.Keys
  {
    hide StructBut, LiveClosed, NeverBlack, Tricolour, UntilFinalize;
    AbandonInv(s);
    UntilFinalizeKeeps(Abandon(s));
    forall i | i in s.heap ensures Live(Abandon(s), i) {
      assert s.phase == Pause ==> Clean(s, i);
    }
  }

  lemma AbandonSame(s: State)
    requires Inv(s)
    ensures forall i :: Reachable(Abandon(s), i) <==> Reachable(s, i)
    ensures Abandon(s).heap == s.heap
  {
    assert forall j :: Refs(Abandon(s), j) == Refs(s, j);
    ReachableSame(s, Abandon(s));
    ReachableSame(Abandon(s), s);
  }

  /** Full collection is exact, from any state of the collector. */
  lemma FullCollectionExact(s: State)
    requires Inv(s)
    ensures var r := FullGC(s);
      && Inv(r) && r.phase == Pause
      && (forall i :: i in r.heap ==> r.heap[i].colour == White(r.white))
      && forall i :: i in r.heap <==> Reachable(s, i) || (i in s.heap && s.heap[i].fixed)
  {
    AbandonInv(s);
    AbandonSame(s);
    var a := Abandon(s);
    UntilFinalizeKeeps(a);
    var f := UntilFinalize(a);
    SweepReachable(a, f);
    SweepUnreachable(a, f);
    MarkRootKeeps(f);
    var m := MarkRoot(f);
    StructParts(f);
    MarkRootFinal(f);
    UntilSweptExact(m);
    var w := UntilSwept(m);
    UntilFinalizeKeeps(w);
    var e := UntilFinalize(w);
    SweepReachable(w, e);
    SweepUnreachable(w, e);
    SweepExact(w, e);
    SingleStepInv(e);
    FinalExact(e);
  }

  lemma MarkRootFinal(s: State)
    requires Inv(s) && (s.phase == Finalize || s.phase == Pause) && s.main in s.heap
    ensures MarksReachable(MarkRoot(s)) && MarkRoot(s).heap.Keys == s.heap.Keys
    ensures forall i :: Reachable(MarkRoot(s), i) <==> Reachable(s, i)
    ensures forall i :: i in s.heap ==> MarkRoot(s).heap[i].fixed == s.heap[i].fixed
  {
    hide MarkRoot, Reachable, Struct, LiveClosed, NeverBlack, Shape, Covered, MarksReachable, CleanStrings;
    forall i | i in s.heap ensures IsWhite(s.heap[i]) { assert Clean(s, i); }
    hide Inv, PhaseOk;
    MarkRootReachable(s);
    MarkRootStarts(s);
    var c := s.(phase := Propagate, grayagain := []);
    MarkedRefs(c, MarkRoot(s));
    assert forall j :: Refs(c, j) == Refs(s, j);
    ReachableSame(s, MarkRoot(s));
    ReachableSame(MarkRoot(s), s);
  }

  lemma FinalExact(s: State)
    requires Inv(s) && s.phase == Finalize && LiveExact(s)
    ensures forall i :: i in s.heap <==> Reachable(s, i) || (i in s.heap && s.heap[i].fixed)
    ensures forall i :: i in s.heap ==> s.heap[i].colour == White(s.white)
  {
    forall i | i in s.heap ensures Live(s, i) && s.heap[i].colour == White(s.white) { assert Clean(s, i); }
    forall i | Reachable(s, i) ensures i in s.heap { ReachableLive(s, i); }
  }
}
