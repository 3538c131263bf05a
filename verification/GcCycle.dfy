/** singlestep makes progress: every collection starts, ends, and frees all garbage there was when it started. */
module GcCycle {
  import opened Basics
  import opened GcHeap
  import opened GcMark
  import opened GcSweep
  import opened GcSafety
  import opened GcFull

  /** `n` collector steps */
  function Steps(s: State, n: nat): State
    decreases n
  {
    if n == 0 then s else Steps(SingleStep(s), n - 1)
  }

  // ---- the first step -------------------------------------------------------

  /** What markroot marks: every root but the running thread, and the table of globals. */
  ghost predicate Starts(s: State, i: Id) {
    || i == s.main || i == s.registry || i in Values(s.mt)
    || (s.main in s.heap && s.heap[s.main].body.Thread? && i == s.heap[s.main].body.globals)
  }

  /** In the pause phase the next step starts a collection. */
  lemma PauseStarts(s: State)
    requires Inv(s) && s.phase == Pause
    ensures var r := SingleStep(s);
      && Inv(r) && r.phase == Propagate && r.white == s.white && r.heap.Keys == s.heap.Keys
      && (forall i :: Starts(s, i) ==> i in r.heap && !IsWhite(r.heap[i]))
      && (forall i :: i in Roots(s) && i != s.running ==> Starts(s, i))
  {
    hide StructBut, NeverBlack, Tricolour, MarkRoot, Starts, Refs;
    PauseMarks(s);
    MarkRootKeeps(s);
    StartsInHeap(s);
    MarksStarts(s);
    assert forall i :: i in Roots(s) && i != s.running ==> Starts(s, i) by { RootsStart(s); }
  }

  lemma RootsStart(s: State)
    ensures forall i :: i in Roots(s) && i != s.running ==> Starts(s, i)
  {
  }

  lemma MarksStarts(s: State)
    ensures forall i :: Starts(s, i) && i in s.heap ==> i in MarkRoot(s).heap && !IsWhite(MarkRoot(s).heap[i])
  {
    var c := s.(gray := [], grayagain := []);
    var g := if s.main in s.heap && s.heap[s.main].body.Thread? then [s.heap[s.main].body.globals] else [];
    var ids := [s.main] + g + [s.registry] + Values(s.mt);
    var m := MarkSeq(c, ids);
    forall i | Starts(s, i) && i in s.heap ensures !IsWhite(m.heap[i]) { assert i in ids; }
  }

  lemma StartsInHeap(s: State)
    requires LiveClosed(s) && s.main in s.heap
    ensures forall i :: Starts(s, i) ==> i in s.heap
  {
    forall i | Starts(s, i) ensures i in s.heap {
      if i in Roots(s) {
        assert Live(s, i);
      } else {
        assert Live(s, s.main) && i in Refs(s, s.main);
        assert Live(s, i);
      }
    }
  }

  // ---- progress -------------------------------------------------------------

  /** What is left to do in the present phase; for the mark phase the gray list comes after it. */
  ghost function PhaseLeft(s: State): nat
    requires Struct(s)
  {
    if s.phase == Propagate then |Whites(s)|
    else if s.phase == SweepString || s.phase == Sweep then SweepLeft(s)
    else 0
  }

  /** `r` is closer to the end of the collection than `s`. */
  ghost predicate Closer(r: State, s: State)
    requires Struct(r) && Struct(s)
  {
    || PhaseRank(r.phase) < PhaseRank(s.phase)
    || (r.phase == s.phase && PhaseLeft(r) < PhaseLeft(s))
    || (r.phase == s.phase && PhaseLeft(r) == PhaseLeft(s) && |r.gray| < |s.gray|)
  }

  lemma StrictSubset(a: set<Id>, b: set<Id>)
    requires a < b
    ensures |a| < |b|
  {
    assert b == a + (b - a);
  }

  /** Every step of a collection that has started brings its end closer. */
  lemma StepProgress(s: State)
    requires Inv(s) && s.phase != Pause
    ensures Inv(SingleStep(s)) && Struct(s) && Struct(SingleStep(s))
    ensures Closer(SingleStep(s), s)
  {
    hide StructBut, LiveClosed, NeverBlack, PhaseOk, SingleStep, PhaseLeft, Whites;
    SingleStepInv(s);
    match s.phase
    case Propagate => MarkProgress(s);
    case SweepString => SweepProgress(s);
    case Sweep => SweepProgress(s);
    case Finalize => FinalizePauses(s);
  }

  lemma MarkProgress(s: State)
    requires Inv(s) && s.phase == Propagate && Struct(SingleStep(s))
    ensures Closer(SingleStep(s), s)
  {
    hide StructBut, LiveClosed, NeverBlack, PhaseOk, SingleStep, PropagateMark, Atomic, Whites;
    MarkStep(s);
    if s.gray == [] {
      AtomicStep(s);
    } else {
      PropagateStep(s);
      FewerWhites(s, PropagateMark(s));
    }
  }

  lemma FewerWhites(s: State, r: State)
    requires Struct(s) && Struct(r) && s.phase == Propagate && r.phase == Propagate && s.gray != []
    requires Whites(r) <= Whites(s) && (Whites(r) == Whites(s) ==> r.gray == s.gray[1..])
    ensures Closer(r, s)
  {
    hide StructBut;
    if Whites(r) == Whites(s) {
      assert |r.gray| < |s.gray|;
    } else {
      StrictSubset(Whites(r), Whites(s));
    }
  }

  lemma MarkStep(s: State)
    requires s.phase == Propagate
    ensures SingleStep(s) == if s.gray != [] then PropagateMark(s) else Atomic(s)
  {
  }

  lemma SweepProgress(s: State)
    requires Inv(s) && (s.phase == SweepString || s.phase == Sweep) && Struct(SingleStep(s))
    ensures Closer(SingleStep(s), s)
  {
    hide Inv, StructBut, SingleStep, SweepLeft;
    SweepAdvances(s);
  }

  lemma FinalizePauses(s: State)
    requires s.phase == Finalize
    ensures SingleStep(s) == s.(phase := Pause)
  {
  }

  /** The number of steps to the next pause. */
  ghost function ToPause(s: State): nat
    requires Inv(s)
    decreases PhaseRank(s.phase), PhaseLeft(s), |s.gray|
  {
    if s.phase == Pause then 0
    else
      StepProgress(s);
      1 + ToPause(SingleStep(s))
  }

  /** From any state of the collector the steps reach the pause phase. */
  lemma {:induction false} ReachesPause(s: State)
    requires Inv(s)
    ensures Inv(Steps(s, ToPause(s))) && Steps(s, ToPause(s)).phase == Pause
    ensures forall k: nat :: k < ToPause(s) ==> Steps(s, k).phase != Pause
    decreases ToPause(s)
  {
    hide Inv, SingleStep;
    if s.phase != Pause {
      var r := SingleStep(s);
      StepProgress(s);
      ReachesPause(r);
      forall k: nat | k < ToPause(s) ensures Steps(s, k).phase != Pause {
        if k > 0 { assert Steps(s, k) == Steps(r, k - 1); }
      }
    }
  }

  /** Every collection ends. */
  lemma CollectionEnds(s: State)
    requires Inv(s)
    ensures exists n: nat :: Inv(Steps(s, n)) && Steps(s, n).phase == Pause
  {
    ReachesPause(s);
  }

  // ---- one whole cycle ------------------------------------------------------

  lemma OneStep(s: State)
    requires Inv(s) && s.phase != Pause
    ensures Inv(SingleStep(s)) && ToPause(s) == 1 + ToPause(SingleStep(s))
    ensures Steps(s, ToPause(s)) == Steps(SingleStep(s), ToPause(SingleStep(s)))
  {
    hide Inv, SingleStep, Closer;
    StepProgress(s);
  }

  lemma {:induction false} SweepSteps(s: State)
    requires Inv(s) && (s.phase == SweepString || s.phase == Sweep || s.phase == Finalize)
    ensures Steps(s, ToPause(s)) == SingleStep(UntilFinalize(s))
    decreases PhaseRank(s.phase), SweepLeft(s)
  {
    hide Inv, SingleStep, ToPause, StructBut;
    OneStep(s);
    if s.phase == Finalize {
      FinalizePauses(s);
      AtPause(SingleStep(s));
    } else {
      SweepAdvances(s);
      SweepSteps(SingleStep(s));
    }
  }

  lemma AtPause(s: State)
    requires Inv(s) && s.phase == Pause
    ensures Steps(s, ToPause(s)) == s
  {
  }

  lemma {:induction false} MarkSteps(s: State)
    requires Inv(s) && s.phase == Propagate
    ensures Steps(s, ToPause(s)) == SingleStep(UntilFinalize(UntilSwept(s)))
    decreases Whites(s), |s.gray|
  {
    hide Inv, SingleStep, PropagateMark, Atomic, Whites, ToPause, Steps, UntilFinalize;
    MarkStep(s);
    OneStep(s);
    if s.gray == [] {
      AtomicStep(s);
      SweepSteps(Atomic(s));
    } else {
      PropagateStep(s);
      MarkSteps(PropagateMark(s));
    }
  }

  /**
   From one pause to the next, with only the collector running: what is left is
   exactly what was reachable or fixed, ready for the next collection.
   */
  lemma CycleExact(s: State)
    requires Inv(s) && s.phase == Pause
    ensures exists n: nat :: n > 0 && Cycle(s, n)
  {
    hide Inv, SingleStep, MarkRoot, Reachable;
    PauseStarts(s);
    var m := SingleStep(s);
    CycleEnd(s);
    MarkSteps(m);
    ReachesPause(m);
    var n := 1 + ToPause(m);
    forall k: nat | 0 < k < n ensures Steps(s, k).phase != Pause { assert Steps(s, k) == Steps(m, k - 1); }
    assert Steps(s, n) == Steps(m, n - 1);
    assert Cycle(s, n);
  }

  lemma CycleEnd(s: State)
    requires Inv(s) && s.phase == Pause
    ensures Inv(SingleStep(s)) && SingleStep(s).phase == Propagate
    ensures var r := SingleStep(UntilFinalize(UntilSwept(SingleStep(s))));
      && (forall i :: i in r.heap <==> Reachable(s, i) || (i in s.heap && s.heap[i].fixed))
      && (forall i :: i in r.heap ==> r.heap[i].colour == White(r.white))
      && r.white != s.white
  {
    hide Inv, SingleStep, MarkRoot, StructBut, LiveClosed, NeverBlack, Reachable, MarksReachable, LiveExact;
    PauseStarts(s);
    var m := SingleStep(s);
    PauseMarks(s);
    MarkRootFinal(s);
    UntilSweptExact(m);
    var w := UntilSwept(m);
    UntilFinalizeKeeps(w);
    var e := UntilFinalize(w);
    SweptExact(w, e);
    FinalizePauses(e);
    FinalExact(e);
  }

  lemma SweptExact(w: State, e: State)
    requires Inv(w) && KeepsLive(w, e) && LiveExact(w)
    ensures LiveExact(e)
    ensures forall i :: Reachable(e, i) <==> Reachable(w, i)
    ensures forall i :: (i in e.heap && e.heap[i].fixed) <==> (i in w.heap && w.heap[i].fixed)
  {
    SweepReachable(w, e);
    SweepUnreachable(w, e);
    SweepExact(w, e);
  }

  lemma PauseMarks(s: State)
    requires Inv(s) && s.phase == Pause
    ensures SingleStep(s) == MarkRoot(s) && s.main in s.heap
  {
    StructParts(s);
  }

  /** `n` steps from a pause make up one collection that leaves exactly the reachable and the fixed objects. */
  ghost predicate Cycle(s: State, n: nat) {
    var r := Steps(s, n);
    && Inv(r) && r.phase == Pause && (forall k: nat :: 0 < k < n ==> Steps(s, k).phase != Pause)
    && (forall i :: i in r.heap <==> Reachable(s, i) || (i in s.heap && s.heap[i].fixed))
    && (forall i :: i in r.heap ==> r.heap[i].colour == White(r.white))
    && r.white != s.white
  }

  // ---- a bounded run of steps -----------------------------------------------

  /** What `n` steps cost, where `cost` is what singlestep returns in a state. */
  function Cost(s: State, n: nat, cost: State -> int): int
    decreases n
  {
    if n == 0 then 0 else cost(s) + Cost(SingleStep(s), n - 1, cost)
  }

  /** A run of `n` steps, one at least, stops with the end of the collection or once it has cost `limit`. */
  ghost predicate StopsAfter(s: State, n: nat, limit: int, cost: State -> int) {
    && n > 0
    && (Steps(s, n).phase == Pause || Cost(s, n, cost) >= limit)
    && forall k: nat :: 0 < k < n ==> Steps(s, k).phase != Pause && Cost(s, k, cost) < limit
  }

  lemma {:induction false} StepsNext(s: State, n: nat, cost: State -> int)
    ensures Steps(s, n + 1) == SingleStep(Steps(s, n))
    ensures Cost(s, n + 1, cost) == Cost(s, n, cost) + cost(Steps(s, n))
    decreases n
  {
    hide SingleStep;
    if n > 0 { StepsNext(SingleStep(s), n - 1, cost); }
  }
}
