/** The mark phase: invariants of the tri-colour marking and of its atomic end. */
module GcMark {
  import opened Basics
  import opened GcHeap

  ghost predicate NonWhite(s: State, i: Id) {
    i in s.heap ==> !IsWhite(s.heap[i])
  }

  /** Nothing that object `i` refers to is white. */
  ghost predicate Scanned(s: State, i: Id) {
    forall r :: r in Refs(s, i) ==> NonWhite(s, r)
  }

  /** Every marked object outside `x` has been traversed or still waits in the gray list. */
  ghost predicate Covered(s: State, x: set<Id>) {
    forall i :: i in s.heap && !IsWhite(s.heap[i]) ==> i in x || i in s.gray || Scanned(s, i)
  }

  /** What the colours say about an object outside `e`. */
  ghost predicate ColourOk(s: State, i: Id, e: set<Id>)
    requires i in s.heap
  {
    var o := s.heap[i];
    && (o.colour == Black ==> !o.body.Thread? && !o.body.OpenUp?)
    && (o.colour == Gray && i !in e ==>
          !o.body.ClosedUp? && !(o.body.Node? && o.body.kind == Userdata))
    && (o.colour == Gray && Listable(o.body) ==> i in s.gray || i in s.grayagain)
  }

  /** Colours agree with kinds, and the two gray lists hold gray traversable objects, each once. */
  ghost predicate Shape(s: State, e: set<Id>) {
    && (forall i :: i in s.heap ==> ColourOk(s, i, e))
    && (forall i :: i in s.gray || i in s.grayagain ==>
          i in s.heap && s.heap[i].colour == Gray && Listable(s.heap[i].body))
    && NoDup(s.gray) && NoDup(s.grayagain)
    && forall i :: i in s.gray ==> i !in s.grayagain
  }

  lemma SameRefs(s: State, r: State, i: Id)
    requires MarkOnly(s, r)
    ensures Refs(r, i) == Refs(s, i)
  {
  }

  lemma {:induction false} MarkIdCovered(s: State, i: Id, x: set<Id>)
    requires Covered(s, x)
    ensures Covered(MarkId(s, i), x)
    ensures forall j :: j in s.gray ==> j in MarkId(s, i).gray
    decreases Whites(s), 2
  {
    if i in s.heap && IsWhite(s.heap[i]) {
      ReallyMarkCovered(s, i, x);
    }
  }

  lemma {:induction false} ReallyMarkCovered(s: State, i: Id, x: set<Id>)
    requires i in s.heap && IsWhite(s.heap[i])
    requires Covered(s, x)
    ensures Covered(ReallyMark(s, i), x)
    ensures forall j :: j in s.gray ==> j in ReallyMark(s, i).gray
    decreases Whites(s), 1
  {
    hide Covered, Whites;
    var g := Paint(s, i, Gray);
    match s.heap[i].body
    case Str =>
      AtOnceCovered(s, i, Gray, x);
    case Node(kind, refs) =>
      if kind == Userdata {
        AtOnceCovered(s, i, Black, x);
        assert Paint(g, i, Black) == Paint(s, i, Black);
      } else {
        PaintCovered(s, i, x, Gray);
        PushCovered(g, i, x);
      }
    case OpenUp(_, _) =>
      AtOnceCovered(s, i, Gray, x);
    case ClosedUp(v) =>
      AtOnceCovered(s, i, Gray, x);
      RepaintCovered(MarkSeq(g, Values([v])), i, x);
    case Thread(_, _, _) =>
      PaintCovered(s, i, x, Gray);
      PushCovered(g, i, x);
  }

  /** An object that is traversed as soon as it is marked never has to wait in the gray list. */
  lemma {:induction false} AtOnceCovered(s: State, i: Id, c: Colour, x: set<Id>)
    requires i in s.heap && IsWhite(s.heap[i]) && !c.White?
    requires Covered(s, x)
    ensures Covered(MarkSeq(Paint(s, i, c), Refs(s, i)), x)
    ensures forall j :: j in s.gray ==> j in MarkSeq(Paint(s, i, c), Refs(s, i)).gray
    decreases Whites(s), 0
  {
    var g := Paint(s, i, c);
    assert i in Whites(s) && i !in Whites(g) && Whites(g) <= Whites(s);
    PaintCovered(s, i, x, c);
    MarkSeqCovered(g, Refs(s, i), x + {i});
    var r := MarkSeq(g, Refs(s, i));
    SameRefs(g, r, i);
    assert Refs(g, i) == Refs(s, i);
  }

  lemma RepaintCovered(s: State, i: Id, x: set<Id>)
    requires i in s.heap && !IsWhite(s.heap[i])
    requires Covered(s, x)
    ensures Covered(Paint(s, i, Black), x)
  {
    var r := Paint(s, i, Black);
    forall j | j in r.heap && !IsWhite(r.heap[j])
      ensures j in x || j in r.gray || Scanned(r, j)
    {
      assert Refs(r, j) == Refs(s, j);
    }
  }

  lemma PushCovered(s: State, i: Id, x: set<Id>)
    requires Covered(s, x + {i})
    ensures Covered(s.(gray := [i] + s.gray), x)
  {
    var r := s.(gray := [i] + s.gray);
    forall j | j in r.heap && !IsWhite(r.heap[j])
      ensures j in x || j in r.gray || Scanned(r, j)
    {
      if j != i && j !in s.gray && j !in x {
        assert Scanned(s, j);
        assert Refs(r, j) == Refs(s, j);
      }
    }
  }

  lemma PaintCovered(s: State, i: Id, x: set<Id>, c: Colour)
    requires i in s.heap && !c.White?
    requires Covered(s, x)
    ensures Covered(Paint(s, i, c), x + {i})
  {
    var r := Paint(s, i, c);
    forall j | j in r.heap && !IsWhite(r.heap[j])
      ensures j in x + {i} || j in r.gray || Scanned(r, j)
    {
      if j != i {
        assert Refs(r, j) == Refs(s, j);
      }
    }
  }

  lemma {:induction false} MarkSeqCovered(s: State, ids: seq<Id>, x: set<Id>)
    requires Covered(s, x)
    ensures Covered(MarkSeq(s, ids), x)
    ensures forall j :: j in s.gray ==> j in MarkSeq(s, ids).gray
    decreases Whites(s), 3, |ids|
  {
    if ids != [] {
      MarkIdCovered(s, ids[0], x);
      MarkSeqCovered(MarkId(s, ids[0]), ids[1..], x);
    }
  }

  lemma {:induction false} MarkIdShape(s: State, i: Id, e: set<Id>)
    requires Shape(s, e)
    ensures Shape(MarkId(s, i), e)
    decreases Whites(s), 1
  {
    if i in s.heap && IsWhite(s.heap[i]) {
      ReallyMarkShape(s, i, e);
    }
  }

  lemma {:induction false} ReallyMarkShape(s: State, i: Id, e: set<Id>)
    requires i in s.heap && IsWhite(s.heap[i])
    requires Shape(s, e)
    ensures Shape(ReallyMark(s, i), e)
    decreases Whites(s), 0
  {
    var g := Paint(s, i, Gray);
    assert i in Whites(s) && i !in Whites(g) && Whites(g) <= Whites(s);
    match s.heap[i].body
    case Str =>
      PaintShape(s, i, e, Gray);
    case Node(kind, refs) =>
      if kind == Userdata {
        PaintShape(s, i, e, Black);
        assert Paint(g, i, Black) == Paint(s, i, Black);
        MarkSeqShape(Paint(s, i, Black), refs, e);
      } else {
        PushShape(s, i, e);
      }
    case OpenUp(th, level) =>
      PaintShape(s, i, e, Gray);
      MarkSeqShape(g, Values([Slot(s.heap, th, level)]), e);
    case ClosedUp(v) =>
      assert Shape(s, e + {i});
      PaintShape(s, i, e + {i}, Gray);
      MarkSeqShape(g, Values([v]), e + {i});
      PaintClosedShape(MarkSeq(g, Values([v])), i, e);
    case Thread(_, _, _) =>
      PushShape(s, i, e);
  }

  lemma PaintShape(s: State, i: Id, e: set<Id>, c: Colour)
    requires i in s.heap && IsWhite(s.heap[i]) && !c.White?
    requires Shape(s, e)
    requires c == Gray ==> !Listable(s.heap[i].body)
    requires c == Gray && (s.heap[i].body.Node? || s.heap[i].body.ClosedUp?) ==> i in e
    requires c == Black ==> !s.heap[i].body.OpenUp? && !s.heap[i].body.Thread?
    ensures Shape(Paint(s, i, c), e)
  {
    var r := Paint(s, i, c);
    forall j | j in r.heap ensures ColourOk(r, j, e) {
      assert ColourOk(s, j, e);
    }
  }

  lemma PushShape(s: State, i: Id, e: set<Id>)
    requires i in s.heap && IsWhite(s.heap[i]) && Listable(s.heap[i].body)
    requires Shape(s, e)
    ensures Shape(Paint(s, i, Gray).(gray := [i] + s.gray), e)
  {
    var r := Paint(s, i, Gray).(gray := [i] + s.gray);
    forall j | j in r.heap ensures ColourOk(r, j, e) {
      assert ColourOk(s, j, e);
    }
  }

  lemma PaintClosedShape(s: State, i: Id, e: set<Id>)
    requires i in s.heap && !IsWhite(s.heap[i]) && s.heap[i].body.ClosedUp?
    requires Shape(s, e + {i})
    ensures Shape(Paint(s, i, Black), e)
  {
    var r := Paint(s, i, Black);
    forall j | j in r.heap ensures ColourOk(r, j, e) {
      assert ColourOk(s, j, e + {i});
    }
  }

  lemma {:induction false} MarkSeqShape(s: State, ids: seq<Id>, e: set<Id>)
    requires Shape(s, e)
    ensures Shape(MarkSeq(s, ids), e)
    decreases Whites(s), 2, |ids|
  {
    if ids != [] {
      MarkIdShape(s, ids[0], e);
      MarkSeqShape(MarkId(s, ids[0]), ids[1..], e);
    }
  }

  // ---- propagation ----------------------------------------------------------

  /** propagatemark: traverse the first gray object. A thread stays gray, for the atomic phase. */
  function PropagateMark(s: State): (r: State)
    requires s.gray != []
    ensures r.heap.Keys == s.heap.Keys && Whites(r) <= Whites(s)
    ensures Whites(r) == Whites(s) ==> r.gray == s.gray[1..]
  {
    var i, rest := s.gray[0], s.(gray := s.gray[1..]);
    if i !in s.heap then rest
    else if s.heap[i].body.Thread? then
      MarkSeq(rest.(grayagain := [i] + s.grayagain), Refs(s, i))
    else
      MarkSeq(Paint(rest, i, Black), Refs(s, i))
  }

  /** propagateall */
  function PropagateAll(s: State): (r: State)
    ensures r.gray == [] && r.heap.Keys == s.heap.Keys
    decreases Whites(s), |s.gray|
  {
    if s.gray == [] then s else PropagateAll(PropagateMark(s))
  }

  /** What the mark phase may change: colours, and what waits in the gray lists. */
  ghost predicate Marked(s: State, r: State) {
    && r == s.(heap := r.heap, gray := r.gray, grayagain := r.grayagain)
    && r.heap.Keys == s.heap.Keys
    && (forall i :: i in s.heap ==>
          && r.heap[i].body == s.heap[i].body
          && r.heap[i].fixed == s.heap[i].fixed
          && (IsWhite(r.heap[i]) ==> r.heap[i] == s.heap[i]))
    && forall i :: i in s.grayagain ==> i in r.grayagain
  }

  lemma MarkedRefs(s: State, r: State)
    requires Marked(s, r)
    ensures Roots(r) == Roots(s)
    ensures forall i :: Refs(r, i) == Refs(s, i)
  {
  }

  lemma MarkedTrans(s: State, m: State, r: State)
    requires Marked(s, m) && Marked(m, r)
    ensures Marked(s, r)
  {
  }

  /** The state in which the children of the first gray object are marked. */
  ghost function Popped(s: State): State
    requires s.gray != [] && s.gray[0] in s.heap
  {
    var i, rest := s.gray[0], s.(gray := s.gray[1..]);
    if s.heap[i].body.Thread? then rest.(grayagain := [i] + s.grayagain) else Paint(rest, i, Black)
  }

  lemma PoppedShape(s: State)
    requires s.gray != [] && Shape(s, {})
    ensures Shape(Popped(s), {}) && Marked(s, Popped(s))
  {
    var i, r := s.gray[0], Popped(s);
    PoppedGray(s);
    forall j | j in r.heap ensures ColourOk(r, j, {}) {
      assert ColourOk(s, j, {}) && ColourOk(s, i, {});
    }
  }

  lemma PoppedGray(s: State)
    requires s.gray != [] && NoDup(s.gray)
    ensures NoDup(s.gray[1..]) && forall j :: j in s.gray[1..] <==> j in s.gray && j != s.gray[0]
  {
    assert s.gray == [s.gray[0]] + s.gray[1..];
  }

  lemma PoppedCovered(s: State, x: set<Id>)
    requires s.gray != [] && Shape(s, {}) && Covered(s, x)
    ensures Covered(Popped(s), x + {s.gray[0]})
  {
    var i, r := s.gray[0], Popped(s);
    forall j | j in r.heap && !IsWhite(r.heap[j])
      ensures j in x + {i} || j in r.gray || Scanned(r, j)
    {
      assert Refs(r, j) == Refs(s, j);
      assert j in x || j in s.gray || Scanned(s, j);
    }
  }

  lemma PropagateMarkKeeps(s: State, x: set<Id>)
    requires s.gray != [] && Shape(s, {}) && Covered(s, x)
    ensures Marked(s, PropagateMark(s))
    ensures Shape(PropagateMark(s), {}) && Covered(PropagateMark(s), x)
  {
    var i, p := s.gray[0], Popped(s);
    var r := MarkSeq(p, Refs(s, i));
    assert r == PropagateMark(s);
    PoppedShape(s);
    PoppedCovered(s, x);
    MarkSeqShape(p, Refs(s, i), {});
    MarkSeqCovered(p, Refs(s, i), x + {i});
    SameRefs(p, r, i);
    MarkedTrans(s, p, r);
    assert Scanned(r, i) by { assert Refs(p, i) == Refs(s, i); }
  }

  lemma {:induction false} PropagateAllKeeps(s: State, x: set<Id>)
    requires Shape(s, {}) && Covered(s, x)
    ensures Marked(s, PropagateAll(s))
    ensures Shape(PropagateAll(s), {}) && Covered(PropagateAll(s), x)
    decreases Whites(s), |s.gray|
  {
    if s.gray != [] {
      PropagateMarkKeeps(s, x);
      PropagateAllKeeps(PropagateMark(s), x);
      MarkedTrans(s, PropagateMark(s), PropagateAll(s));
    }
  }

  /** remarkupvals: mark again the values of the gray upvalues in `list`. */
  function RemarkUpvals(s: State, list: seq<Id>): (r: State)
    ensures MarkOnly(s, r)
    decreases |list|
  {
    if list == [] then s
    else
      var u := list[0];
      RemarkUpvals(if u in s.heap && s.heap[u].colour == Gray then MarkSeq(s, Refs(s, u)) else s, list[1..])
  }

  /** Once the values of the open upvalues are marked, no open upvalue is exempt any more. */
  lemma {:induction false} RemarkCovers(s: State, list: seq<Id>, x: set<Id>)
    requires Shape(s, {})
    requires forall u :: u in list && u in s.heap ==> s.heap[u].body.OpenUp?
    requires Covered(s, x + (set u | u in list))
    ensures Shape(RemarkUpvals(s, list), {}) && Covered(RemarkUpvals(s, list), x)
    decreases |list|
  {
    if list == [] {
      assert x + (set u | u in list) == x;
    } else {
      var u := list[0];
      var y := x + (set v | v in list[1..]);
      assert x + (set v | v in list) == y + {u};
      var m := if u in s.heap && s.heap[u].colour == Gray then MarkSeq(s, Refs(s, u)) else s;
      MarkSeqShape(s, Refs(s, u), {});
      MarkSeqCovered(s, Refs(s, u), y + {u});
      assert Covered(m, y) by {
        assert u in s.heap ==> ColourOk(s, u, {});
        SameRefs(s, m, u);
      }
      RemarkCovers(m, list[1..], x);
    }
  }

  /** atomic, up to the second propagateall */
  function FirstRounds(s: State): State {
    PropagateAll(MarkSeq(PropagateAll(RemarkUpvals(s, s.uvhead)), [s.running] + Values(s.mt)))
  }

  /** atomic, up to the flip of the whites: nothing reachable is white afterwards. */
  function AtomicMark(s: State): State {
    var s2 := FirstRounds(s);
    PropagateAll(s2.(gray := s2.grayagain, grayagain := []))
  }

  /** atomic */
  function Atomic(s: State): State {
    var m := AtomicMark(s);
    m.(white := !m.white, sweepstrgc := 0, sweepgc := 0, phase := SweepString)
  }

  ghost predicate UpvalsListed(s: State) {
    forall u :: u in s.uvhead <==> u in s.heap && s.heap[u].body.OpenUp?
  }

  /** The tri-colour invariant between two steps of the mark phase. */
  ghost predicate Tricolour(s: State) {
    && Shape(s, {})
    && Covered(s, (set i | i in s.grayagain) + (set u | u in s.uvhead))
    && NonWhite(s, s.main) && NonWhite(s, s.registry)
  }

  /** The objects set aside in grayagain become the gray list. */
  lemma SecondList(s: State, x: set<Id>)
    requires Shape(s, {}) && Covered(s, x) && s.gray == [] && forall i :: i in x ==> i in s.grayagain
    ensures var c := s.(gray := s.grayagain, grayagain := []); Shape(c, {}) && Covered(c, {})
  {
    var c := s.(gray := s.grayagain, grayagain := []);
    forall j | j in c.heap ensures ColourOk(c, j, {}) { assert ColourOk(s, j, {}); }
    forall j | j in c.heap && !IsWhite(c.heap[j])
      ensures j in c.gray || Scanned(c, j)
    {
      assert Refs(c, j) == Refs(s, j);
      assert j in x || j in s.gray || Scanned(s, j);
    }
  }

  /** Everything the marking of the atomic phase leaves is white or has only marked children. */
  lemma AtomicMarkComplete(s: State)
    requires Tricolour(s) && UpvalsListed(s) && s.gray == []
    ensures var r := AtomicMark(s);
      && r == s.(heap := r.heap, gray := [], grayagain := r.grayagain)
      && r.heap.Keys == s.heap.Keys
      && (forall i :: i in s.heap ==>
            && r.heap[i].body == s.heap[i].body && r.heap[i].fixed == s.heap[i].fixed
            && (IsWhite(r.heap[i]) ==> r.heap[i] == s.heap[i]))
      && Shape(r, {}) && Covered(r, {})
      && forall i :: i in Roots(s) ==> NonWhite(r, i)
  {
    hide Covered, Shape, MarkOnly, RemarkUpvals, PropagateAll, MarkSeq, FirstRounds, Roots;
    var s2 := FirstRounds(s);
    RootsMarked(s, s2);
    var x := FirstRoundsKeep(s);
    SecondList(s2, x);
    var c := s2.(gray := s2.grayagain, grayagain := []);
    PropagateAllKeeps(c, {});
    StaysMarked(c, PropagateAll(c));
  }

  lemma FirstRoundsKeep(s: State) returns (x: set<Id>)
    requires Tricolour(s) && UpvalsListed(s) && s.gray == []
    ensures var r := FirstRounds(s);
      Marked(s, r) && Shape(r, {}) && Covered(r, x) && r.gray == [] && forall i :: i in x ==> i in r.grayagain
  {
    hide Covered, Shape, MarkOnly, RemarkUpvals, PropagateAll, MarkSeq, Marked;
    x := set i | i in s.grayagain;
    var a := RemarkUpvals(s, s.uvhead);
    RemarkCovers(s, s.uvhead, x);
    OnlyMarked(s, a);
    var s1 := PropagateAll(a);
    PropagateAllKeeps(a, x);
    var ids := [s.running] + Values(s.mt);
    MarkedTrans(s, a, s1);
    MarkedNames(s, s1);
    var b := MarkSeq(s1, ids);
    MarkSeqShape(s1, ids, {});
    MarkSeqCovered(s1, ids, x);
    OnlyMarked(s1, b);
    MarkedTrans(s, s1, b);
    PropagateAllKeeps(b, x);
    MarkedTrans(s, b, FirstRounds(s));
    MarkedNames(s, FirstRounds(s));
  }

  lemma OnlyMarked(s: State, r: State)
    requires MarkOnly(s, r)
    ensures Marked(s, r)
  {
  }

  lemma MarkedNames(s: State, r: State)
    requires Marked(s, r)
    ensures r.running == s.running && r.mt == s.mt && forall i :: i in s.grayagain ==> i in r.grayagain
  {
  }

  lemma MarkSeqMarks(s: State, ids: seq<Id>)
    ensures forall i :: i in ids ==> NonWhite(MarkSeq(s, ids), i)
  {
  }

  lemma StaysMarked(s: State, r: State)
    requires Marked(s, r)
    ensures forall i {:trigger NonWhite(r, i)} :: NonWhite(s, i) ==> NonWhite(r, i)
  {
  }

  lemma RootsMarked(s: State, r: State)
    requires Tricolour(s) && UpvalsListed(s) && s.gray == [] && r == FirstRounds(s)
    ensures forall i :: i in Roots(s) ==> NonWhite(r, i)
  {
    hide Covered, Shape, MarkOnly, RemarkUpvals, PropagateAll, Marked, NonWhite;
    var x := set i | i in s.grayagain;
    var a := RemarkUpvals(s, s.uvhead);
    RemarkCovers(s, s.uvhead, x);
    OnlyMarked(s, a);
    PropagateAllKeeps(a, x);
    var s1 := PropagateAll(a);
    MarkedTrans(s, a, s1);
    var ids := [s.running] + Values(s.mt);
    var b := MarkSeq(s1, ids);
    MarkSeqShape(s1, ids, {});
    MarkSeqCovered(s1, ids, x);
    OnlyMarked(s1, b);
    StaysMarked(s, s1);
    StaysMarked(s1, b);
    MarkSeqMarks(s1, ids);
    MarkedNames(s, s1);
    PropagateAllKeeps(b, x);
    StaysMarked(b, r);
    forall i | i in Roots(s) ensures NonWhite(r, i) {
      if i != s.main && i != s.registry { assert i in ids && NonWhite(b, i); }
    }
  }

  /** markroot */
  function MarkRoot(s: State): (r: State) {
    var c := s.(gray := [], grayagain := []);
    var g := if s.main in s.heap && s.heap[s.main].body.Thread? then [s.heap[s.main].body.globals] else [];
    MarkSeq(c, [s.main] + g + [s.registry] + Values(s.mt)).(phase := Propagate)
  }

  lemma MarkRootStarts(s: State)
    requires forall i :: i in s.heap ==> IsWhite(s.heap[i])
    ensures Tricolour(MarkRoot(s)) && MarkRoot(s).phase == Propagate
    ensures Marked(s.(phase := Propagate, grayagain := []), MarkRoot(s))
  {
    hide Shape, Covered, MarkSeq;
    var c := s.(gray := [], grayagain := []);
    var g := if s.main in s.heap && s.heap[s.main].body.Thread? then [s.heap[s.main].body.globals] else [];
    var ids := [s.main] + g + [s.registry] + Values(s.mt);
    AllWhite(c);
    var m, r := MarkSeq(c, ids), MarkRoot(s);
    MarkSeqShape(c, ids, {});
    MarkSeqCovered(c, ids, {});
    assert s.registry in ids && s.main in ids;
    NewPhase(m, r);
  }

  lemma AllWhite(s: State)
    requires s.gray == [] && s.grayagain == [] && forall i :: i in s.heap ==> IsWhite(s.heap[i])
    ensures Shape(s, {}) && Covered(s, {})
  {
  }

  /** The phase does not matter to what is covered. */
  lemma NewPhase(s: State, r: State)
    requires Shape(s, {}) && Covered(s, {}) && r == s.(phase := r.phase)
    ensures Shape(r, {}) && forall x :: Covered(r, x)
  {
    forall j | j in r.heap && !IsWhite(r.heap[j]) ensures j in r.gray || Scanned(r, j) {
      assert Refs(r, j) == Refs(s, j);
    }
    forall j | j in r.heap ensures ColourOk(r, j, {}) { assert ColourOk(s, j, {}); }
  }
}
