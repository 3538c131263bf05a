/** Every step of the collector and of the program keeps the collector's invariant. */
module GcSafety {
  import opened Basics
  import opened GcHeap
  import opened GcMark
  import opened GcSweep
  import opened GcMutator

  // ---- the collector's own steps --------------------------------------------

  /** What marking keeps, besides the tri-colour invariant. */
  lemma MarkedKeeps(s: State, r: State)
    requires Struct(s) && LiveClosed(s) && (forall i :: i in s.heap ==> !IsDead(s, s.heap[i]))
    requires Marked(s, r)
    ensures Struct(r) && LiveClosed(r) && forall i :: i in r.heap ==> !IsDead(r, r.heap[i])
  {
    hide ObjsOk, StringsOk;
    SameListsStruct(s, r, {});
    MarkedRefs(s, r);
    forall i | Live(s, i) ensures Live(r, i) {}
    LiveKept(s, r);
  }

  lemma ShapeNeverBlack(s: State)
    requires Shape(s, {})
    ensures NeverBlack(s)
  {
    forall i | i in s.heap ensures ColourOk(s, i, {}) {}
  }

  lemma MarkRootKeeps(s: State)
    requires Inv(s) && (s.phase == Pause || s.phase == Finalize)
    ensures Inv(MarkRoot(s)) && MarkRoot(s).phase == Propagate
    ensures Marked(s.(phase := Propagate, grayagain := []), MarkRoot(s))
  {
    hide Struct, LiveClosed, MarkRoot, Tricolour;
    var c := s.(phase := Propagate, grayagain := []);
    MarkRootStarts(s);
    assert Struct(c) && LiveClosed(c) by { RephaseKeeps(s, c); }
    MarkedKeeps(c, MarkRoot(s));
    assert Shape(MarkRoot(s), {}) by { TricolourShape(MarkRoot(s)); }
    ShapeNeverBlack(MarkRoot(s));
  }

  lemma TricolourShape(s: State)
    requires Tricolour(s)
    ensures Shape(s, {})
  {
  }

  lemma RephaseKeeps(s: State, r: State)
    requires Struct(s) && LiveClosed(s)
    requires r == s.(phase := r.phase, gray := r.gray, grayagain := r.grayagain)
    ensures Struct(r) && LiveClosed(r)
  {
    SameListsStruct(s, r, {});
    assert forall i :: Refs(r, i) == Refs(s, i);
    LiveKept(s, r);
  }

  lemma PropagateMarkInv(s: State)
    requires Inv(s) && s.phase == Propagate && s.gray != []
    ensures Inv(PropagateMark(s)) && PropagateMark(s).heap.Keys == s.heap.Keys
  {
    hide Struct, LiveClosed, PropagateMark, Covered, Shape;
    var x := (set i | i in s.grayagain) + (set u | u in s.uvhead);
    var r := PropagateMark(s);
    PropagateMarkKeeps(s, x);
    MarkedKeeps(s, r);
    ShapeNeverBlack(r);
    CoveredMore(r, x, (set i | i in r.grayagain) + (set u | u in r.uvhead));
  }

  lemma CoveredMore(s: State, x: set<Id>, y: set<Id>)
    requires Covered(s, x) && x <= y
    ensures Covered(s, y)
  {
  }

  lemma SweepStepInv(s: State)
    requires Inv(s) && s.phase == Sweep
    ensures Inv(SingleStep(s)) && forall i :: Live(s, i) ==> Live(SingleStep(s), i)
    ensures forall i :: i in SingleStep(s).heap ==> i in s.heap
  {
    hide SweepRoots, ObjsOk, StringsOk, NeverBlack;
    assert SweepInv(s);
    SweepRootsKeeps(s, SWEEP_MAX);
    var m := SweepRoots(s, SWEEP_MAX);
    if m.sweepgc >= |m.rootgc| {
      SweptAll(m);
      RephaseKeeps(m, m.(phase := Finalize));
      RephaseBlack(m, m.(phase := Finalize));
    }
  }

  lemma RephaseBlack(s: State, r: State)
    requires NeverBlack(s) && r.heap == s.heap
    ensures NeverBlack(r)
  {
  }

  /** When both lists have been swept to their ends, every object is white again. */
  lemma SweptAll(s: State)
    requires SweepInv(s) && s.sweepgc >= |s.rootgc|
    ensures forall i :: i in s.heap ==> Clean(s, i)
  {
    forall i | i in s.heap ensures Clean(s, i) {
      assert ObjOk(s, i);
      if s.heap[i].body.OpenUp? {
        var th := s.heap[i].body.thread;
        assert th in s.rootgc && i in OpenList(s, th);
      } else if !s.heap[i].body.Str? {
        assert i in s.rootgc;
      }
    }
  }

  lemma SingleStepInv(s: State)
    requires Inv(s)
    ensures Inv(SingleStep(s))
    ensures forall i :: i in s.heap && i !in SingleStep(s).heap ==> IsDead(s, s.heap[i])
  {
    match s.phase
    case Pause => MarkRootKeeps(s);
    case Propagate => if s.gray != [] { PropagateMarkInv(s); } else { AtomicKeeps(s); }
    case SweepString => SweepBucketKeeps(s); LiveStays(s, SweepBucket(s));
    case Sweep => SweepStepInv(s); LiveStays(s, SingleStep(s));
    case Finalize => RephaseKeeps(s, s.(phase := Pause));
  }

  lemma LiveStays(s: State, r: State)
    requires forall i :: Live(s, i) ==> Live(r, i)
    ensures forall i :: i in s.heap && i !in r.heap ==> IsDead(s, s.heap[i])
  {
    forall i | i in s.heap && i !in r.heap ensures IsDead(s, s.heap[i]) {
      assert Live(s, i) ==> Live(r, i);
    }
  }

  lemma SweepKeepsLive(s: State)
    requires Inv(s) && (s.phase == SweepString || s.phase == Sweep)
    ensures KeepsLive(s, SingleStep(s))
  {
    if s.phase == Sweep {
      assert SweepInv(s);
      hide SweepRoots, StructBut, LiveClosed, NeverBlack, CleanStrings, CleanRoots, KeepsLive;
      SweepRootsKeeps(s, SWEEP_MAX);
      var m := SweepRoots(s, SWEEP_MAX);
      RephaseKeepsLive(m, m.(phase := Finalize));
      KeepsLiveTrans(s, m, m.(phase := Finalize));
    } else {
      BucketKeepsLive(s);
    }
  }

  lemma RephaseKeepsLive(s: State, r: State)
    requires r == s.(phase := r.phase, strt := r.strt, sweepstrgc := r.sweepstrgc)
    ensures KeepsLive(s, r)
  {
    assert forall i :: Refs(r, i) == Refs(s, i);
  }

  lemma BucketKeepsLive(s: State)
    requires Struct(s) && s.sweepstrgc < |s.strt|
    ensures KeepsLive(s, SweepBucket(s))
  {
    var list := s.strt[s.sweepstrgc];
    assert NoDup(list) && forall i :: i in list ==> i in s.heap && s.heap[i].body.Str? by { BucketOk(s, s.sweepstrgc); }
    hide StructBut, NoDup, SweepList;
    SweepListSpec(s, list);
    var (r, kept) := SweepList(s, list);
    SweptKeepsLive(s, list, r, kept);
    hide KeepsLive, SweptList;
    RephaseKeepsLive(r, SweepBucket(s));
    KeepsLiveTrans(s, r, SweepBucket(s));
  }

  lemma SweptKeepsLive(s: State, list: seq<Id>, r: State, kept: seq<Id>)
    requires SweptList(s, list, r, kept) && forall i :: i in list ==> i in s.heap && s.heap[i].body.Str?
    ensures KeepsLive(s, r)
  {
  }

  // ---- stores ---------------------------------------------------------------

  /** `b` may replace the body of object `i` without touching any object list. */
  ghost predicate Fits(s: State, i: Id, b: Body)
    requires i in s.heap
  {
    var o := s.heap[i].body;
    || (o.Node? && b.Node? && b.kind == o.kind)
    || (o.ClosedUp? && b.ClosedUp?)
    || (o.Thread? && b.Thread? && b.open == o.open
        && forall u :: u in o.open ==> Level(s.heap, u) < |b.stack|)
  }

  /** Whatever `b` adds to the references of object `i` is live. */
  ghost predicate AddsLive(s: State, i: Id, b: Body)
    requires i in s.heap
  {
    var o := s.heap[i].body;
    if o.Thread? && b.Thread? then
      && (b.globals == o.globals || Live(s, b.globals))
      && forall k :: 0 <= k < |b.stack| ==>
           (k < |o.stack| && b.stack[k] == o.stack[k]) || (b.stack[k].Some? ==> Live(s, b.stack[k].value))
    else forall x :: x in BodyRefs(s.heap, b) ==> x in BodyRefs(s.heap, o) || Live(s, x)
  }

  lemma StoreStruct(s: State, i: Id, b: Body)
    requires Struct(s) && i in s.heap && Fits(s, i, b)
    ensures Struct(SetBody(s, i, b))
  {
    hide NoDup, StringsOk, ObjsOk;
    StoreStrings(s, i, b);
    StoreObjs(s, i, b);
  }

  lemma StoreObjs(s: State, i: Id, b: Body)
    requires ObjsOk(s) && i in s.heap && Fits(s, i, b)
    ensures ObjsOk(SetBody(s, i, b))
  {
    var r := SetBody(s, i, b);
    forall j | j in r.heap ensures ObjOk(r, j) {
      StoreObj(s, i, b, j);
    }
  }

  lemma StoreStrings(s: State, i: Id, b: Body)
    requires StringsOk(s) && i in s.heap && Fits(s, i, b)
    ensures StringsOk(SetBody(s, i, b))
  {
    StringsKept(s, SetBody(s, i, b));
  }

  lemma StoreObj(s: State, i: Id, b: Body, j: Id)
    requires ObjsOk(s) && i in s.heap && Fits(s, i, b) && j in s.heap
    ensures ObjOk(SetBody(s, i, b), j)
  {
    var r := SetBody(s, i, b);
    assert ObjOk(s, j);
    if r.heap[j].body.Thread? { assert OpenListOk(s, j, s.heap[j].body.open); }
    if r.heap[j].body.OpenUp? {
      assert UpvalOk(s, j);
    }
  }

  lemma StoreLive(s: State, i: Id, b: Body)
    requires ObjsOk(s) && LiveClosed(s) && i in s.heap && Fits(s, i, b) && AddsLive(s, i, b)
    ensures LiveClosed(SetBody(s, i, b))
  {
    var r := SetBody(s, i, b);
    forall j | Live(s, j) ensures Live(r, j) {}
    forall j | j in Roots(r) ensures Live(r, j) { assert Live(s, j); }
    forall j, x | Live(r, j) && x in Refs(r, j) ensures Live(r, x) {
      StoreRef(s, i, b, j, x);
    }
  }

  lemma StoreRef(s: State, i: Id, b: Body, j: Id, x: Id)
    requires ObjsOk(s) && LiveClosed(s) && i in s.heap && Fits(s, i, b) && AddsLive(s, i, b)
    requires Live(s, j) && x in Refs(SetBody(s, i, b), j)
    ensures Live(s, x)
  {
    var r := SetBody(s, i, b);
    var o := s.heap[i].body;
    assert Live(s, j);
    if j == i {
      if b.Thread? && x != b.globals {
        assert Some(x) in b.stack;
        var k :| 0 <= k < |b.stack| && b.stack[k] == Some(x);
        assert k < |o.stack| && o.stack[k] == Some(x) ==> x in Refs(s, i);
      } else {
        assert x in Refs(s, i) || Live(s, x);
      }
    } else if s.heap[j].body.OpenUp? && s.heap[j].body.thread == i {
      var k := s.heap[j].body.level;
      assert ObjOk(s, j) && UpvalOk(s, j);
      assert b.stack[k] == Some(x);
      assert o.stack[k] == b.stack[k] ==> x in Refs(s, j);
    } else {
      assert x in Refs(s, j);
    }
  }

  /** In the mark phase, a store leaves everything covered but the changed object and open upvalues. */
  lemma StoreCovered(s: State, i: Id, b: Body, x: set<Id>)
    requires Covered(s, x) && i in s.heap && Fits(s, i, b)
    requires forall u :: u in s.heap && s.heap[u].body.OpenUp? ==> u in x
    ensures Covered(SetBody(s, i, b), x + {i})
  {
    var r := SetBody(s, i, b);
    forall j | j in r.heap && !IsWhite(r.heap[j])
      ensures j in x + {i} || j in r.gray || Scanned(r, j)
    {
      if j != i && !s.heap[j].body.OpenUp? { assert Refs(r, j) == Refs(s, j); }
    }
  }

  lemma StoreShape(s: State, i: Id, b: Body)
    requires Shape(s, {}) && i in s.heap && Fits(s, i, b)
    ensures Shape(SetBody(s, i, b), {})
  {
    var r := SetBody(s, i, b);
    forall j | j in r.heap ensures ColourOk(r, j, {}) { assert ColourOk(s, j, {}); }
  }

  lemma StoreClean(s: State, i: Id, b: Body)
    requires i in s.heap && Fits(s, i, b)
    ensures var r := SetBody(s, i, b);
      && (NeverBlack(s) ==> NeverBlack(r))
      && (forall j :: Clean(s, j) ==> Clean(r, j))
      && (CleanRoots(s) ==> CleanRoots(r))
      && (forall n: nat :: CleanStrings(s, n) ==> CleanStrings(r, n))
  {
    var r := SetBody(s, i, b);
    if CleanRoots(s) {
      forall k | 0 <= k < r.sweepgc && k < |r.rootgc|
        ensures Clean(r, r.rootgc[k]) && forall u :: u in OpenList(r, r.rootgc[k]) ==> Clean(r, u)
      {
        assert Clean(s, s.rootgc[k]);
        forall u | u in OpenList(r, r.rootgc[k]) ensures Clean(r, u) {
          assert u in OpenList(s, s.rootgc[k]) && Clean(s, u);
        }
      }
    }
    forall n: nat | CleanStrings(s, n) ensures CleanStrings(r, n) { CleanStringsKept(s, r, n); }
  }

  ghost function Exempt(s: State): set<Id> { (set i | i in s.grayagain) + (set u | u in s.uvhead) }

  /** A store that needs no barrier: the collector is not marking, or the object is not black. */
  lemma StoreInv(s: State, i: Id, b: Body)
    requires Inv(s) && i in s.heap && Fits(s, i, b) && AddsLive(s, i, b)
    requires s.phase == Propagate ==> s.heap[i].colour != Black && !s.heap[i].body.ClosedUp?
    requires s.phase == Propagate && s.heap[i].colour == Gray ==> Listable(s.heap[i].body)
    ensures Inv(SetBody(s, i, b))
  {
    hide Struct, LiveClosed, NeverBlack, CleanRoots, CleanStrings, Clean, Shape, Covered;
    var r := SetBody(s, i, b);
    assert ObjsOk(s) && UpvalsListed(s) by { StructParts(s); }
    StoreStruct(s, i, b);
    StoreLive(s, i, b);
    StoreClean(s, i, b);
    if s.phase == Propagate {
      StoreShape(s, i, b);
      StoreCovered(s, i, b, Exempt(s));
      assert s.heap[i].colour == Gray ==> i in s.gray || i in s.grayagain by {
        if s.heap[i].colour == Gray { GrayListed(s, i); }
      }
      CoveredWithout(r, Exempt(s), i);
    }
  }

  lemma StructParts(s: State)
    requires Struct(s)
    ensures ObjsOk(s) && UpvalsListed(s) && ThreadsOk(s) && RootListOk(s, {}) && StringsOk(s)
  {
  }

  lemma GrayListed(s: State, i: Id)
    requires Shape(s, {}) && i in s.heap && s.heap[i].colour == Gray && Listable(s.heap[i].body)
    ensures i in s.gray || i in s.grayagain
  {
    assert ColourOk(s, i, {});
  }

  lemma CoveredWithout(s: State, x: set<Id>, i: Id)
    requires Covered(s, x + {i})
    requires i in s.heap ==> IsWhite(s.heap[i]) || i in x || i in s.gray || Scanned(s, i)
    ensures Covered(s, x)
  {
  }

  // ---- barriers -------------------------------------------------------------

  lemma ReachableAlive(s: State, v: Ref)
    requires LiveClosed(s) && Usable(s, v)
    ensures v.Some? ==> Live(s, v.value)
  {
    if v.Some? { ReachableLive(s, v.value); }
  }

  /** Outside the mark phase a barrier only repaints a black object that is still to be swept. */
  lemma RepaintInv(s: State, o: Id, c: Colour, again: seq<Id>)
    requires Inv(s) && (s.phase == Sweep || s.phase == SweepString) && o in s.heap && s.heap[o].colour == Black
    requires c == Gray || c == White(s.white)
    ensures Inv(Paint(s, o, c).(grayagain := again))
  {
    hide ObjsOk, StringsOk, UpvalsOk, RootListOk, ThreadsOk;
    var r := Paint(s, o, c).(grayagain := again);
    SameListsStruct(s, r, {}) by { StructParts(s); }
    assert forall j :: Refs(r, j) == Refs(s, j);
    LiveKept(s, r);
    CleanKept(s, r);
  }

  lemma CleanKept(s: State, r: State)
    requires forall j :: Clean(s, j) ==> Clean(r, j)
    requires r.rootgc == s.rootgc && r.sweepgc == s.sweepgc && r.strt == s.strt
    requires forall j :: OpenList(r, j) == OpenList(s, j)
    ensures CleanRoots(s) ==> CleanRoots(r)
    ensures forall n: nat :: CleanStrings(s, n) ==> CleanStrings(r, n)
  {
    if CleanRoots(s) {
      forall k | 0 <= k < r.sweepgc && k < |r.rootgc|
        ensures Clean(r, r.rootgc[k]) && forall u :: u in OpenList(r, r.rootgc[k]) ==> Clean(r, u)
      {
        assert Clean(s, s.rootgc[k]);
        forall u | u in OpenList(r, r.rootgc[k]) ensures Clean(r, u) {
          assert u in OpenList(s, s.rootgc[k]) && Clean(s, u);
        }
      }
    }
    forall n: nat | CleanStrings(s, n) ensures CleanStrings(r, n) { CleanStringsKept(s, r, n); }
  }

  /** A store with the forward barrier. */
  lemma StoreBarrierInv(s: State, o: Id, b: Body, v: Ref)
    requires Inv(s) && o in s.heap && Fits(s, o, b) && AddsLive(s, o, b) && !b.Thread?
    requires v.Some? ==> Live(s, v.value)
    requires forall x :: x in BodyRefs(s.heap, b) ==> x in BodyRefs(s.heap, s.heap[o].body) || Some(x) == v
    requires s.phase == Propagate && s.heap[o].colour == Gray ==> Listable(s.heap[o].body)
    ensures Inv(Store(s, o, b, v))
  {
    hide Struct, LiveClosed, NeverBlack, CleanRoots, CleanStrings, Clean, Shape, Covered, Tricolour;
    if s.phase == Propagate {
      StoreForward(s, o, b, v);
    } else {
      StoreInv(s, o, b);
      var m := SetBody(s, o, b);
      if Store(s, o, b, v) != m {
        assert m.phase == Sweep || m.phase == SweepString by { BlackSweeps(m, o); }
        RepaintInv(m, o, White(m.white), m.grayagain);
      }
    }
  }

  lemma BlackSweeps(s: State, o: Id)
    requires PhaseOk(s) && o in s.heap && s.heap[o].colour == Black
    ensures s.phase != Pause && s.phase != Finalize
  {
    assert s.phase == Pause || s.phase == Finalize ==> Clean(s, o);
  }

  lemma StoreForward(s: State, o: Id, b: Body, v: Ref)
    requires Inv(s) && s.phase == Propagate && o in s.heap && Fits(s, o, b) && AddsLive(s, o, b) && !b.Thread?
    requires v.Some? ==> Live(s, v.value)
    requires forall x :: x in BodyRefs(s.heap, b) ==> x in BodyRefs(s.heap, s.heap[o].body) || Some(x) == v
    requires s.heap[o].colour == Gray ==> Listable(s.heap[o].body)
    ensures Inv(Store(s, o, b, v))
  {
    hide Struct, LiveClosed, NeverBlack, Shape, Covered, MarkId, Marked;
    var m := SetBody(s, o, b);
    assert ObjsOk(s) && UpvalsListed(s) by { StructParts(s); }
    StoreStruct(s, o, b);
    StoreLive(s, o, b);
    StoreShape(s, o, b);
    StoreCovered(s, o, b, Exempt(s));
    var r := Store(s, o, b, v);
    var x := Exempt(s) + {o};
    if r != m {
      MarkIdCovered(m, v.value, x);
      MarkIdShape(m, v.value, {});
    }
    StoreMarks(s, o, b, v);
    MarkedKeeps(m, r);
    ShapeNeverBlack(r);
    assert s.heap[o].colour == Gray ==> o in s.gray || o in s.grayagain by {
      if s.heap[o].colour == Gray { GrayListed(s, o); }
    }
    if s.heap[o].colour == Black { StoreScanned(s, o, b, v); }
    CoveredWithout(r, Exempt(s), o);
    assert Exempt(r) == Exempt(s);
  }

  lemma StoreMarks(s: State, o: Id, b: Body, v: Ref)
    requires s.phase == Propagate && o in s.heap
    ensures Marked(SetBody(s, o, b), Store(s, o, b, v))
    ensures s.heap[o].colour != Black ==> Store(s, o, b, v).heap[o] == SetBody(s, o, b).heap[o]
    ensures s.heap[o].colour != Black ==> Store(s, o, b, v).gray == s.gray
    ensures Exempt(Store(s, o, b, v)) == Exempt(s)
  {
  }

  /** After the barrier a black object refers to nothing white. */
  lemma StoreScanned(s: State, o: Id, b: Body, v: Ref)
    requires Tricolour(s) && UpvalsListed(s) && s.phase == Propagate && o in s.heap && s.heap[o].colour == Black
    requires Fits(s, o, b)
    requires forall x :: x in BodyRefs(s.heap, b) ==> x in BodyRefs(s.heap, s.heap[o].body) || Some(x) == v
    ensures Scanned(Store(s, o, b, v), o)
  {
    var m, r := SetBody(s, o, b), Store(s, o, b, v);
    assert MarkOnly(m, r);
    SameRefs(m, r, o);
    assert ColourOk(s, o, {});
    assert o !in s.gray && o !in s.grayagain;
    assert o !in s.uvhead;
    assert Scanned(s, o);
    forall x | x in Refs(r, o) ensures NonWhite(r, x) {
      assert BodyRefs(m.heap, b) == BodyRefs(s.heap, b);
      assert x in Refs(s, o) || Some(x) == v;
      if x in Refs(s, o) { assert NonWhite(s, x); }
    }
  }

  /** A store into a table, with the backward barrier. */
  lemma TableStoreInv(s: State, t: Id, b: Body, k: Ref, v: Ref)
    requires Inv(s) && t in s.heap && Fits(s, t, b) && AddsLive(s, t, b) && b.Node? && b.kind == Table
    requires forall x :: x in BodyRefs(s.heap, b) ==>
        x in BodyRefs(s.heap, s.heap[t].body) || Some(x) == k || Some(x) == v
    ensures Inv(TableStore(s, t, b, k, v))
  {
    hide Struct, LiveClosed, NeverBlack, CleanRoots, CleanStrings, Clean, Shape, Covered, Tricolour;
    if s.phase == Propagate && s.heap[t].colour == Black {
      TableStoreBlack(s, t, b, k, v);
    } else {
      StoreInv(s, t, b);
      var m := SetBody(s, t, b);
      if TableStore(s, t, b, k, v) != m {
        assert m.phase == Sweep || m.phase == SweepString by { BlackSweeps(m, t); }
        RepaintInv(m, t, Gray, [t] + m.grayagain);
      }
    }
  }

  lemma TableStoreBlack(s: State, t: Id, b: Body, k: Ref, v: Ref)
    requires Inv(s) && t in s.heap && Fits(s, t, b) && AddsLive(s, t, b) && b.Node? && b.kind == Table
    requires s.phase == Propagate && s.heap[t].colour == Black
    requires forall x :: x in BodyRefs(s.heap, b) ==>
        x in BodyRefs(s.heap, s.heap[t].body) || Some(x) == k || Some(x) == v
    ensures Inv(TableStore(s, t, b, k, v))
  {
    hide Struct, LiveClosed, NeverBlack, Shape, Covered, NonWhite, Fits, AddsLive, BodyRefs, Exempt;
    var m := SetBody(s, t, b);
    StoreParts(s, t, b);
    if TableStore(s, t, b, k, v) == m {
      TableScanned(s, t, b, k, v);
      CoveredWithout(m, Exempt(m), t);
      PropagateInv(m);
    } else {
      BackInv(m, t);
    }
  }

  lemma PropagateInv(s: State)
    requires Struct(s) && LiveClosed(s) && s.phase == Propagate && (forall i :: i in s.heap ==> !IsDead(s, s.heap[i]))
    requires Shape(s, {}) && Covered(s, Exempt(s)) && NonWhite(s, s.main) && NonWhite(s, s.registry)
    ensures Inv(s)
  {
    hide Struct, LiveClosed, NeverBlack, Shape, Covered;
    ShapeNeverBlack(s);
  }

  /** What a store keeps without its barrier */
  lemma StoreParts(s: State, t: Id, b: Body)
    requires Inv(s) && s.phase == Propagate && t in s.heap && Fits(s, t, b) && AddsLive(s, t, b)
    ensures var m := SetBody(s, t, b);
      && Struct(m) && LiveClosed(m) && (forall i :: i in m.heap ==> !IsDead(m, m.heap[i]))
      && Shape(m, {}) && Covered(m, Exempt(m) + {t}) && NonWhite(m, m.main) && NonWhite(m, m.registry)
    ensures Tricolour(s) && UpvalsListed(s)
  {
    hide Struct, LiveClosed, NeverBlack, Shape, Covered, Fits, AddsLive;
    StructParts(s);
    StoreStruct(s, t, b);
    StoreLive(s, t, b);
    StoreShape(s, t, b);
    StoreCovered(s, t, b, Exempt(s));
    assert Exempt(SetBody(s, t, b)) == Exempt(s);
  }

  /** luaC_barrierback makes a table that may refer to white objects fit the invariant again. */
  lemma BackInv(s: State, t: Id)
    requires Struct(s) && LiveClosed(s) && s.phase == Propagate && (forall i :: i in s.heap ==> !IsDead(s, s.heap[i]))
    requires Shape(s, {}) && Covered(s, Exempt(s) + {t}) && NonWhite(s, s.main) && NonWhite(s, s.registry)
    requires t in s.heap && s.heap[t].colour == Black && Listable(s.heap[t].body)
    ensures Inv(Paint(s, t, Gray).(grayagain := [t] + s.grayagain))
  {
    hide Struct, LiveClosed, NeverBlack, Shape, Covered, MarkOnly;
    var r := Paint(s, t, Gray).(grayagain := [t] + s.grayagain);
    BackShape(s, t);
    BackCovered(s, t, Exempt(s));
    CoveredMore(r, Exempt(s) + {t}, Exempt(r));
    ShapeNeverBlack(r);
    assert Marked(s, r);
    MarkedKeeps(s, r);
  }

  /** luaC_barrierback keeps the gray lists free of duplicates. */
  lemma BackShape(s: State, t: Id)
    requires Shape(s, {}) && t in s.heap && s.heap[t].colour == Black && Listable(s.heap[t].body)
    ensures Shape(Paint(s, t, Gray).(grayagain := [t] + s.grayagain), {})
  {
    var r := Paint(s, t, Gray).(grayagain := [t] + s.grayagain);
    forall j | j in r.heap ensures ColourOk(r, j, {}) { assert ColourOk(s, j, {}); }
    assert t !in s.gray && t !in s.grayagain;
  }

  lemma BackCovered(s: State, t: Id, x: set<Id>)
    requires Covered(s, x + {t}) && t in s.heap && !IsWhite(s.heap[t])
    ensures Covered(Paint(s, t, Gray).(grayagain := [t] + s.grayagain), x + {t})
  {
    var r := Paint(s, t, Gray).(grayagain := [t] + s.grayagain);
    forall j | j in r.heap && !IsWhite(r.heap[j])
      ensures j in x + {t} || j in r.gray || Scanned(r, j)
    {
      assert Refs(r, j) == Refs(s, j);
    }
  }

  lemma TableScanned(s: State, t: Id, b: Body, k: Ref, v: Ref)
    requires Tricolour(s) && UpvalsListed(s) && t in s.heap && s.heap[t].colour == Black && Fits(s, t, b) && b.Node?
    requires forall x :: x in BodyRefs(s.heap, b) ==>
        x in BodyRefs(s.heap, s.heap[t].body) || Some(x) == k || Some(x) == v
    requires TableStore(s, t, b, k, v) == SetBody(s, t, b)
    ensures Scanned(SetBody(s, t, b), t)
  {
    var r := SetBody(s, t, b);
    assert ColourOk(s, t, {});
    assert t !in s.gray && t !in s.grayagain && t !in s.uvhead;
    assert Scanned(s, t);
    forall x | x in Refs(r, t) ensures NonWhite(r, x) {
      assert x in Refs(s, t) || Some(x) == k || Some(x) == v;
      if x in Refs(s, t) { assert NonWhite(s, x); }
    }
  }
}
