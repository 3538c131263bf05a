/** The sweep phase, upvalue closing, and the invariant of the whole collector. */
module GcSweep {
  import opened Basics
  import opened GcHeap
  import opened GcMark

  // ---- the object lists -----------------------------------------------------

  function Level(h: map<Id, Obj>, u: Id): nat {
    if u in h && h[u].body.OpenUp? then h[u].body.level else 0
  }

  ghost predicate UpvalOk(s: State, u: Id)
    requires u in s.heap && s.heap[u].body.OpenUp?
  {
    var th := s.heap[u].body.thread;
    && th in s.heap && s.heap[th].body.Thread?
    && s.heap[u].body.level < |s.heap[th].body.stack|
    && u in s.heap[th].body.open
  }

  /** Open upvalues of a thread are ordered from the top of the stack, one for each level. */
  ghost predicate OpenListOk(s: State, th: Id, q: seq<Id>) {
    && (forall u :: u in q ==>
          u in s.heap && s.heap[u].body.OpenUp? && s.heap[u].body.thread == th)
    && forall a, b :: 0 <= a < b < |q| ==> Level(s.heap, q[a]) > Level(s.heap, q[b])
  }

  ghost predicate ObjOk(s: State, i: Id)
    requires i in s.heap
  {
    && (s.heap[i].body.OpenUp? ==> UpvalOk(s, i))
    && (s.heap[i].body.Thread? ==> OpenListOk(s, i, s.heap[i].body.open))
    && (s.heap[i].fixed ==> s.heap[i].body.Str? || (i == s.main && s.heap[i].body.Thread?))
  }

  predicate InRootList(b: Body) { !b.Str? && !b.OpenUp? }

  ghost predicate StringsOk(s: State) {
    && |s.strt| > 0
    && (forall b, i :: 0 <= b < |s.strt| && i in s.strt[b] ==> i in s.heap && s.heap[i].body.Str?)
    && (forall i :: i in s.heap && s.heap[i].body.Str? ==> exists b :: 0 <= b < |s.strt| && i in s.strt[b])
    && (forall b :: 0 <= b < |s.strt| ==> NoDup(s.strt[b]))
    && (forall b, c, i :: 0 <= b < |s.strt| && 0 <= c < |s.strt| && i in s.strt[b] && i in s.strt[c] ==> b == c)
  }

  ghost predicate ObjsOk(s: State) { forall i :: i in s.heap ==> ObjOk(s, i) }

  ghost predicate UpvalsOk(s: State) { UpvalsListed(s) && NoDup(s.uvhead) }

  ghost predicate RootListOk(s: State, e: set<Id>) {
    && NoDup(s.rootgc)
    && s.sweepgc <= |s.rootgc|
    && forall i :: i in s.rootgc <==> i in s.heap && i !in e && InRootList(s.heap[i].body)
  }

  ghost predicate ThreadsOk(s: State) {
    && s.main in s.heap && s.heap[s.main].body.Thread? && s.heap[s.main].fixed
    && s.running in s.heap && s.heap[s.running].body.Thread?
  }

  /** Every object is in exactly one list, once. */
  ghost predicate Struct(s: State) { StructBut(s, {}) }

  /** The same, while the objects of `e` have been unlinked but not yet erased. */
  ghost predicate StructBut(s: State, e: set<Id>) {
    ObjsOk(s) && UpvalsOk(s) && RootListOk(s, e) && StringsOk(s) && ThreadsOk(s)
  }

  function Without(q: seq<Id>, i: Id): (r: seq<Id>)
    ensures forall x :: x in r <==> x in q && x != i
    ensures NoDup(q) ==> NoDup(r)
  {
    if q == [] then []
    else if q[0] == i then
      assert NoDup(q) ==> NoDup(q[1..]);
      Without(q[1..], i)
    else
      assert NoDup(q) ==> NoDup(q[1..]) && q[0] !in q[1..];
      [q[0]] + Without(q[1..], i)
  }

  /** Some occurrence of `x` in `q` comes before some occurrence of `y`. */
  ghost predicate Before(q: seq<Id>, x: Id, y: Id) {
    exists c, d :: 0 <= c < d < |q| && q[c] == x && q[d] == y
  }

  lemma BeforeTail(q: seq<Id>, x: Id, y: Id)
    requires q != [] && (Before(q[1..], x, y) || (x == q[0] && y in q[1..]))
    ensures Before(q, x, y)
  {
    if Before(q[1..], x, y) {
      var c, d :| 0 <= c < d < |q[1..]| && q[1..][c] == x && q[1..][d] == y;
      assert q[c + 1] == x && q[d + 1] == y;
    } else {
      var d :| 0 <= d < |q[1..]| && q[1..][d] == y;
      assert q[0] == x && q[d + 1] == y;
    }
  }

  // ---- sweeping -------------------------------------------------------------

  function Free(s: State, i: Id): State {
    s.(heap := s.heap - {i}, uvhead := Without(s.uvhead, i))
  }

  /** The test of sweeplist: fixed objects are never erased. */
  predicate Erasable(s: State, o: Obj) { IsDead(s, o) && !o.fixed }

  /** sweeplist over a list without threads; the second result is what remains of the list. */
  function SweepList(s: State, list: seq<Id>): (State, seq<Id>)
    decreases |list|
  {
    if list == [] then (s, [])
    else
      var i := list[0];
      if i !in s.heap then SweepList(s, list[1..])
      else if Erasable(s, s.heap[i]) then SweepList(Free(s, i), list[1..])
      else
        var (r, kept) := SweepList(Paint(s, i, White(s.white)), list[1..]);
        (r, [i] + kept)
  }

  ghost predicate SweptList(s: State, list: seq<Id>, r: State, kept: seq<Id>) {
    && r == s.(heap := r.heap, uvhead := r.uvhead)
    && (forall i :: i in r.heap <==> i in s.heap && !(i in list && Erasable(s, s.heap[i])))
    && (forall i :: i in r.heap ==>
          && r.heap[i].body == s.heap[i].body && r.heap[i].fixed == s.heap[i].fixed
          && r.heap[i].colour == (if i in list then White(s.white) else s.heap[i].colour))
    && (forall u :: u in r.uvhead <==> u in s.uvhead && !(u in list && u in s.heap && Erasable(s, s.heap[u])))
    && (NoDup(s.uvhead) ==> NoDup(r.uvhead))
    && (forall i :: i in kept <==> i in list && i in r.heap)
    && NoDup(kept)
    && forall a, b :: 0 <= a < b < |kept| ==> Before(list, kept[a], kept[b])
  }

  lemma KeptInOrder(list: seq<Id>, rest: seq<Id>, kept: seq<Id>)
    requires list != [] && (kept == rest || kept == [list[0]] + rest)
    requires forall a, b :: 0 <= a < b < |rest| ==> Before(list[1..], rest[a], rest[b])
    requires forall x :: x in rest ==> x in list[1..]
    ensures forall a, b :: 0 <= a < b < |kept| ==> Before(list, kept[a], kept[b])
  {
    forall a, b | 0 <= a < b < |kept|
      ensures Before(list, kept[a], kept[b])
    {
      if kept == [list[0]] + rest {
        assert kept[b] == rest[b - 1];
        if a > 0 { assert kept[a] == rest[a - 1]; }
      }
      BeforeTail(list, kept[a], kept[b]);
    }
  }

  lemma {:induction false} SweepListSpec(s: State, list: seq<Id>)
    requires NoDup(list)
    ensures var (r, kept) := SweepList(s, list); SweptList(s, list, r, kept)
    decreases |list|
  {
    if list != [] {
      var i := list[0];
      var m := if i !in s.heap then s
               else if Erasable(s, s.heap[i]) then Free(s, i) else Paint(s, i, White(s.white));
      SweepListSpec(m, list[1..]);
      var (r, rest) := SweepList(m, list[1..]);
      var (r', kept) := SweepList(s, list);
      assert list == [i] + list[1..];
      assert i !in list[1..];
      assert r' == r;
      KeptInOrder(list, rest, kept);
    }
  }

  /** The end of a linked list gains an element at `k`; the sweep position stays on its element. */
  function LinkAt(s: State, k: nat, i: Id): State
    requires k <= |s.rootgc|
  {
    s.(rootgc := s.rootgc[..k] + [i] + s.rootgc[k..],
       sweepgc := if s.sweepgc > k then s.sweepgc + 1 else s.sweepgc)
  }

  /** luaC_barrierf: `o` is black and `v` is white. */
  function BarrierF(s: State, o: Id, v: Id): State
    requires o in s.heap
  {
    if s.phase == Propagate then MarkId(s, v) else Paint(s, o, White(s.white))
  }

  /** luaC_barrier and luaC_objbarrier */
  function Barrier(s: State, o: Id, v: Ref): State {
    if v.Some? && v.value in s.heap && o in s.heap && IsWhite(s.heap[v.value]) && s.heap[o].colour == Black
    then BarrierF(s, o, v.value) else s
  }

  /** luaC_barriert and luaC_objbarriert, with luaC_barrierback inside */
  function BarrierT(s: State, t: Id, v: Ref): State {
    if v.Some? && v.value in s.heap && t in s.heap && IsWhite(s.heap[v.value]) && s.heap[t].colour == Black
    then Paint(s, t, Gray).(grayagain := [t] + s.grayagain) else s
  }

  /** luaC_linkupval: a closed upvalue joins the list of all objects. */
  function LinkUpval(s: State, u: Id): State {
    var l := LinkAt(s, 0, u);
    if u !in s.heap || s.heap[u].colour != Gray then l
    else if s.phase == Propagate then
      Barrier(Paint(l, u, Black), u, if s.heap[u].body.ClosedUp? then s.heap[u].body.value else None)
    else Paint(l, u, White(s.white))
  }

  function SetBody(s: State, i: Id, b: Body): State
    requires i in s.heap
  {
    s.(heap := s.heap[i := s.heap[i].(body := b)])
  }

  function OpenList(s: State, th: Id): seq<Id> {
    if th in s.heap && s.heap[th].body.Thread? then s.heap[th].body.open else []
  }

  /** One round of luaF_close: the topmost open upvalue of `th` is freed if dead, closed otherwise. */
  function CloseTop(s: State, th: Id): (r: State)
    requires OpenList(s, th) != []
    ensures |OpenList(r, th)| < |OpenList(s, th)|
  {
    var b := s.heap[th].body;
    var u := b.open[0];
    var s1 := SetBody(s, th, b.(open := b.open[1..]));
    if u !in s.heap || u == th then s1
    else if IsDead(s, s.heap[u]) then Free(s1, u)
    else
      var s2 := SetBody(s1.(uvhead := Without(s1.uvhead, u)), u, ClosedUp(Slot(s.heap, th, Level(s.heap, u))));
      assert OpenList(s2, th) == b.open[1..];
      LinkUpval(s2, u)
  }

  /** luaF_close */
  function Close(s: State, th: Id, level: nat): (r: State)
    decreases |OpenList(s, th)|
  {
    if OpenList(s, th) != [] && Level(s.heap, OpenList(s, th)[0]) >= level
    then Close(CloseTop(s, th), th, level) else s
  }

  /** sweepwholelist over the open upvalues of a thread */
  function SweepOpen(s: State, th: Id): State {
    var (r, kept) := SweepList(s, OpenList(s, th));
    if th in r.heap && r.heap[th].body.Thread? then SetBody(r, th, r.heap[th].body.(open := kept)) else r
  }

  /** One round of sweeplist at the sweep position of the list of all objects. */
  function SweepNext(s: State): State
    requires s.sweepgc < |s.rootgc|
  {
    var i := s.rootgc[s.sweepgc];
    var s1 := SweepOpen(s, i);
    if i in s1.heap && !Erasable(s1, s1.heap[i]) then
      Paint(s1, i, White(s1.white)).(sweepgc := s.sweepgc + 1)
    else
      var s2 := s1.(rootgc := s.rootgc[..s.sweepgc] + s.rootgc[s.sweepgc + 1..]);
      Free(Close(s2, i, 0), i)
  }

  function SweepRoots(s: State, count: nat): State
    decreases count
  {
    if count == 0 || s.sweepgc >= |s.rootgc| then s else SweepRoots(SweepNext(s), count - 1)
  }

  const SWEEP_MAX: nat := 40

  /** sweepwholelist over the next bucket of the string table */
  function SweepBucket(s: State): State {
    if s.sweepstrgc >= |s.strt| then s.(phase := Sweep)
    else
      var (r, kept) := SweepList(s, s.strt[s.sweepstrgc]);
      var r' := r.(strt := s.strt[s.sweepstrgc := kept], sweepstrgc := s.sweepstrgc + 1);
      if r'.sweepstrgc >= |r'.strt| then r'.(phase := Sweep) else r'
  }

  /** singlestep */
  function SingleStep(s: State): State {
    match s.phase
    case Pause => MarkRoot(s)
    case Propagate => if s.gray != [] then PropagateMark(s) else Atomic(s)
    case SweepString => SweepBucket(s)
    case Sweep =>
      var r := SweepRoots(s, SWEEP_MAX);
      if r.sweepgc >= |r.rootgc| then r.(phase := Finalize) else r
    case Finalize => s.(phase := Pause)
  }

  // ---- the invariant --------------------------------------------------------

  ghost predicate Live(s: State, i: Id) { i in s.heap && !IsDead(s, s.heap[i]) }

  /** Roots are live, and live objects refer to live objects only. */
  ghost predicate LiveClosed(s: State) {
    && (forall i :: i in Roots(s) ==> Live(s, i))
    && forall i, r :: Live(s, i) && r in Refs(s, i) ==> Live(s, r)
  }

  ghost predicate Clean(s: State, i: Id) { i in s.heap ==> s.heap[i].colour == White(s.white) }

  ghost predicate CleanStrings(s: State, n: nat)
  {
    forall b, i :: 0 <= b < n && b < |s.strt| && i in s.strt[b] ==> Clean(s, i)
  }

  ghost predicate CleanRoots(s: State) {
    forall k :: 0 <= k < s.sweepgc && k < |s.rootgc| ==>
      Clean(s, s.rootgc[k]) && forall u :: u in OpenList(s, s.rootgc[k]) ==> Clean(s, u)
  }

  ghost predicate PhaseOk(s: State) {
    match s.phase
    case Pause => forall i :: i in s.heap ==> Clean(s, i)
    case Finalize => forall i :: i in s.heap ==> Clean(s, i)
    case Propagate => (forall i :: i in s.heap ==> !IsDead(s, s.heap[i])) && Tricolour(s)
    case SweepString => CleanStrings(s, s.sweepstrgc) && s.sweepgc == 0 && s.sweepstrgc < |s.strt|
    case Sweep => CleanStrings(s, |s.strt|) && CleanRoots(s)
  }

  /** Threads and open upvalues are never black. */
  ghost predicate NeverBlack(s: State) {
    forall i :: i in s.heap && s.heap[i].colour == Black ==>
      !s.heap[i].body.Thread? && !s.heap[i].body.OpenUp?
  }

  ghost predicate Inv(s: State) {
    Struct(s) && LiveClosed(s) && NeverBlack(s) && PhaseOk(s)
  }

  /** Whatever the program can reach is in memory and is not dead. */
  lemma ReachableLive(s: State, i: Id)
    requires LiveClosed(s) && Reachable(s, i)
    ensures Live(s, i)
  {
    var a := set o | o in s.heap && Live(s, o);
    forall o, r | o in a && r in Refs(s, o) ensures r in a { assert Live(s, o) && Live(s, r); }
    ReachableWithin(s, a, i);
  }

  /** Liveness survives a step that erases only dead objects and redirects no live reference. */
  lemma LiveKept(s: State, r: State)
    requires LiveClosed(s) && Roots(r) == Roots(s)
    requires forall i :: Live(s, i) ==> Live(r, i)
    requires forall i :: Live(r, i) ==> Refs(r, i) == [] || (Live(s, i) && Refs(r, i) == Refs(s, i))
    ensures LiveClosed(r)
  {
  }

  // ---- what keeps the lists in order ----------------------------------------

  lemma StringsKept(s: State, r: State)
    requires StringsOk(s) && r.strt == s.strt
    requires forall i :: (i in r.heap && r.heap[i].body.Str?) <==> (i in s.heap && s.heap[i].body.Str?)
    ensures StringsOk(r)
  {
    forall i | i in r.heap && r.heap[i].body.Str?
      ensures exists b :: 0 <= b < |r.strt| && i in r.strt[b]
    {
      assert i in s.heap && s.heap[i].body.Str?;
    }
  }

  /** Colours and the gray lists do not matter to the object lists. */
  ghost predicate SameLists(s: State, r: State) {
    && r.rootgc == s.rootgc && r.strt == s.strt && r.uvhead == s.uvhead
    && r.main == s.main && r.running == s.running
    && r.sweepgc <= |r.rootgc|
    && r.heap.Keys == s.heap.Keys
    && forall i :: i in s.heap ==> r.heap[i].body == s.heap[i].body && r.heap[i].fixed == s.heap[i].fixed
  }

  lemma SameListsStruct(s: State, r: State, e: set<Id>)
    requires StructBut(s, e) && SameLists(s, r)
    ensures StructBut(r, e)
  {
    StringsKept(s, r);
    SameListsObjs(s, r);
  }

  lemma SameListsObjs(s: State, r: State)
    requires ObjsOk(s) && SameLists(s, r)
    ensures ObjsOk(r)
  {
    forall i | i in r.heap ensures ObjOk(r, i) {
      assert ObjOk(s, i);
      if r.heap[i].body.Thread? { assert OpenListOk(s, i, s.heap[i].body.open); }
    }
  }

  lemma TopUpval(s: State, th: Id)
    requires ObjsOk(s) && OpenList(s, th) != []
    ensures var u := OpenList(s, th)[0];
      && u in s.heap && s.heap[u].body.OpenUp? && s.heap[u].body.thread == th && u != th
      && u !in OpenList(s, th)[1..]
  {
    assert ObjOk(s, th);
    var q := OpenList(s, th);
    forall k | 0 < k < |q| ensures q[k] != q[0] {
      assert Level(s.heap, q[0]) > Level(s.heap, q[k]);
    }
  }

  /** From `s` to `r` the topmost open upvalue of `th` has left all lists of open upvalues. */
  ghost predicate TopGone(s: State, th: Id, u: Id, r: State) {
    && OpenList(s, th) != [] && OpenList(s, th)[0] == u
    && (forall i :: i in r.heap ==> i in s.heap)
    && (forall i :: i in s.heap && i != u ==> i in r.heap && r.heap[i].fixed == s.heap[i].fixed)
    && (forall i :: i in s.heap && i != u && i != th ==> r.heap[i].body == s.heap[i].body)
    && (th != u ==> r.heap[th].body == s.heap[th].body.(open := OpenList(s, th)[1..]))
    && r.uvhead == Without(s.uvhead, u)
    && r.main == s.main && r.running == s.running && r.strt == s.strt && r.sweepstrgc == s.sweepstrgc
    && (u in r.heap ==> r.heap[u].body.ClosedUp? && r.heap[u].fixed == s.heap[u].fixed)
  }

  lemma TopGoneObj(s: State, th: Id, u: Id, r: State, i: Id)
    requires ObjsOk(s) && TopGone(s, th, u, r)
    requires i in r.heap
    ensures ObjOk(r, i)
  {
    TopUpval(s, th);
    assert ObjOk(s, i) && ObjOk(s, u);
    if i == th {
      var q := OpenList(s, th);
      assert OpenListOk(s, th, q);
      assert forall x :: x in q[1..] ==> x in q && x != u;
      assert OpenListOk(r, th, q[1..]);
    } else if i != u && s.heap[i].body.Thread? {
      OtherOpenList(s, th, u, r, i);
    } else if i != u && s.heap[i].body.OpenUp? {
      assert UpvalOk(s, i);
    }
  }

  lemma OtherOpenList(s: State, th: Id, u: Id, r: State, i: Id)
    requires TopGone(s, th, u, r) && u in s.heap && s.heap[u].body.OpenUp? && s.heap[u].body.thread == th
    requires i in s.heap && i != th && s.heap[i].body.Thread? && OpenListOk(s, i, s.heap[i].body.open)
    ensures OpenListOk(r, i, s.heap[i].body.open)
  {
    var q := s.heap[i].body.open;
    assert u !in q && th !in q;
    forall x | x in q ensures x in r.heap && r.heap[x].body == s.heap[x].body {}
  }

  lemma TopGoneObjs(s: State, th: Id, u: Id, r: State)
    requires ObjsOk(s) && TopGone(s, th, u, r)
    ensures ObjsOk(r)
  {
    forall i | i in r.heap ensures ObjOk(r, i) { TopGoneObj(s, th, u, r, i); }
  }

  lemma TopGoneRest(s: State, th: Id, u: Id, r: State)
    requires ObjsOk(s) && TopGone(s, th, u, r)
    ensures UpvalsOk(s) ==> UpvalsOk(r)
    ensures StringsOk(s) ==> StringsOk(r)
    ensures ThreadsOk(s) ==> ThreadsOk(r)
  {
    hide StringsOk, ObjsOk;
    TopUpval(s, th);
    if StringsOk(s) { StringsKept(s, r); }
  }

  lemma FreeTopStruct(s: State, th: Id, e: set<Id>)
    requires StructBut(s, e) && OpenList(s, th) != []
    requires IsDead(s, s.heap[OpenList(s, th)[0]])
    ensures StructBut(CloseTop(s, th), e)
  {
    hide NoDup, UpvalsListed, StringsOk, ObjsOk;
    var u, r := OpenList(s, th)[0], CloseTop(s, th);
    TopUpval(s, th);
    assert TopGone(s, th, u, r);
    hide CloseTop, OpenList;
    TopGoneObjs(s, th, u, r);
    TopGoneRest(s, th, u, r);
  }

  lemma LinkTopStruct(s: State, th: Id, u: Id, e: set<Id>, r: State)
    requires StructBut(s, e) && TopGone(s, th, u, r) && u !in e && u in r.heap
    requires r.rootgc == [u] + s.rootgc && r.sweepgc <= s.sweepgc + 1
    ensures StructBut(r, e)
  {
    TopUpval(s, th);
    TopGoneObjs(s, th, u, r);
    TopGoneRest(s, th, u, r);
    assert u !in s.rootgc;
  }

  // ---- closing upvalues -----------------------------------------------------

  /** What a round of luaF_close does outside the mark phase. */
  lemma CloseTopShape(s: State, th: Id)
    requires ObjsOk(s) && NeverBlack(s) && OpenList(s, th) != []
    ensures var u := OpenList(s, th)[0]; var r := CloseTop(s, th);
      && u in s.heap && s.heap[u].body.OpenUp? && u != th
      && (IsDead(s, s.heap[u]) ==> r.heap.Keys == s.heap.Keys - {u} && r.rootgc == s.rootgc && r.sweepgc == s.sweepgc)
      && (!IsDead(s, s.heap[u]) && s.phase != Propagate ==>
            && r.heap.Keys == s.heap.Keys
            && r.heap[u] == Obj(White(s.white), s.heap[u].fixed, ClosedUp(Slot(s.heap, th, Level(s.heap, u))))
            && r.rootgc == [u] + s.rootgc
            && r.sweepgc == if s.sweepgc > 0 then s.sweepgc + 1 else s.sweepgc)
      && (IsDead(s, s.heap[u]) || s.phase != Propagate ==>
            && r == s.(heap := r.heap, uvhead := r.uvhead, rootgc := r.rootgc, sweepgc := r.sweepgc)
            && r.heap[th] == s.heap[th].(body := s.heap[th].body.(open := OpenList(s, th)[1..]))
            && (forall i :: i in s.heap && i != u && i != th ==> r.heap[i] == s.heap[i])
            && TopGone(s, th, u, r))
  {
    TopUpval(s, th);
    var u, r := OpenList(s, th)[0], CloseTop(s, th);
    var b := s.heap[th].body;
    var s1 := SetBody(s, th, b.(open := b.open[1..]));
    if !IsDead(s, s.heap[u]) && s.phase != Propagate {
      var s2 := SetBody(s1.(uvhead := Without(s1.uvhead, u)), u, ClosedUp(Slot(s.heap, th, Level(s.heap, u))));
      assert r == LinkUpval(s2, u);
      assert s2.heap[u].colour == s.heap[u].colour;
      assert s2.rootgc[..0] + [u] + s2.rootgc[0..] == [u] + s.rootgc;
    }
  }

  lemma CloseTopStruct(s: State, th: Id, e: set<Id>)
    requires StructBut(s, e) && NeverBlack(s) && OpenList(s, th) != [] && s.phase != Propagate
    requires e <= {th}
    ensures StructBut(CloseTop(s, th), e)
  {
    var u, r := OpenList(s, th)[0], CloseTop(s, th);
    CloseTopShape(s, th);
    if IsDead(s, s.heap[u]) {
      FreeTopStruct(s, th, e);
    } else {
      LinkTopStruct(s, th, u, e, r);
    }
  }

  lemma CloseTopLive(s: State, th: Id)
    requires ObjsOk(s) && NeverBlack(s) && OpenList(s, th) != [] && s.phase != Propagate
    requires LiveClosed(s)
    ensures LiveClosed(CloseTop(s, th))
  {
    hide CloseTop, NeverBlack, ObjsOk, LiveClosed;
    var u, r := OpenList(s, th)[0], CloseTop(s, th);
    CloseTopShape(s, th);
    assert s.heap[u].body.OpenUp? && s.heap[u].body.thread == th by { TopUpval(s, th); }
    forall i | Live(r, i)
      ensures Live(s, i) && Refs(r, i) == Refs(s, i)
    {
    }
    LiveKept(s, r);
  }

  lemma CloseTopClean(s: State, th: Id)
    requires ObjsOk(s) && NeverBlack(s) && OpenList(s, th) != [] && s.phase != Propagate
    ensures var r := CloseTop(s, th);
      && NeverBlack(r)
      && (CleanRoots(s) ==> CleanRoots(r))
      && (forall i :: Clean(s, i) ==> Clean(r, i))
  {
    CloseTopShape(s, th);
    if CleanRoots(s) {
      CloseTopCleanRoots(s, th, CloseTop(s, th));
    }
  }

  lemma CloseTopCleanRoots(s: State, th: Id, r: State)
    requires OpenList(s, th) != [] && CleanRoots(s) && ObjsOk(s)
    requires TopGone(s, th, OpenList(s, th)[0], r) && r.white == s.white
    requires forall i :: i in r.heap && Clean(s, i) ==> Clean(r, i)
    requires var u := OpenList(s, th)[0];
      || (r.rootgc == s.rootgc && r.sweepgc == s.sweepgc)
      || (r.rootgc == [u] + s.rootgc && r.sweepgc == (if s.sweepgc > 0 then s.sweepgc + 1
          else 0) && Clean(r, u) && u in r.heap)
    ensures CleanRoots(r)
  {
    var u := OpenList(s, th)[0];
    TopUpval(s, th);
    var shift := if r.rootgc == s.rootgc then 0 else 1;
    forall k | 0 <= k < r.sweepgc && k < |r.rootgc|
      ensures Clean(r, r.rootgc[k]) && forall v :: v in OpenList(r, r.rootgc[k]) ==> Clean(r, v)
    {
      if r.rootgc != s.rootgc && k == 0 {
        assert r.rootgc[k] == u;
      } else {
        var j := if r.rootgc == s.rootgc then k else k - 1;
        assert r.rootgc[k] == s.rootgc[j];
        assert Clean(s, s.rootgc[j]);
        forall v | v in OpenList(r, r.rootgc[k]) ensures Clean(r, v) {
          assert v in OpenList(s, s.rootgc[j]);
          assert Clean(s, v);
        }
      }
    }
  }

  /** The parts of the state that sweeping and closing never touch; only dead objects go. */
  ghost predicate OnlyErases(s: State, r: State) {
    && r == s.(heap := r.heap, uvhead := r.uvhead, rootgc := r.rootgc, sweepgc := r.sweepgc)
    && (forall i :: i in r.heap ==> i in s.heap)
    && KeepsLive(s, r)
  }

  /** Live objects stay, with the same references; a dead object that becomes live was fixed. */
  ghost predicate KeepsLive(s: State, r: State) {
    && Roots(r) == Roots(s)
    && (forall i :: i in r.heap ==> i in s.heap && r.heap[i].fixed == s.heap[i].fixed)
    && (forall i :: Live(s, i) ==> Live(r, i) && Refs(r, i) == Refs(s, i))
    && (forall i :: Live(r, i) ==> Live(s, i) || s.heap[i].fixed)
    && (forall i :: i in s.heap && s.heap[i].fixed ==> i in r.heap)
  }

  lemma SameKeepsLive(s: State, m: State, r: State)
    requires KeepsLive(m, r) && m == s.(rootgc := m.rootgc)
    ensures KeepsLive(s, r)
  {
    assert forall i :: Refs(m, i) == Refs(s, i) && (Live(m, i) <==> Live(s, i));
  }

  lemma KeepsLiveTrans(s: State, m: State, r: State)
    requires KeepsLive(s, m) && KeepsLive(m, r)
    ensures KeepsLive(s, r)
  {
  }

  lemma KeepsItself(s: State)
    ensures KeepsLive(s, s)
  {
  }

  /** The top of an open list is its highest upvalue. */
  lemma OpenLevels(s: State, th: Id, level: nat)
    requires ObjsOk(s) && OpenList(s, th) != [] && Level(s.heap, OpenList(s, th)[0]) < level
    ensures forall u :: u in OpenList(s, th) ==> Level(s.heap, u) < level
  {
    assert ObjOk(s, th);
    assert OpenListOk(s, th, OpenList(s, th));
  }

  /** luaF_close outside the mark phase keeps every object in its list. */
  lemma {:induction false} CloseStruct(s: State, th: Id, level: nat, e: set<Id>)
    requires StructBut(s, e) && NeverBlack(s) && s.phase != Propagate
    requires e <= {th}
    ensures var r := Close(s, th, level);
      && StructBut(r, e) && NeverBlack(r)
      && (LiveClosed(s) ==> LiveClosed(r))
      && (CleanRoots(s) ==> CleanRoots(r))
    decreases |OpenList(s, th)|
  {
    hide CloseTop, UpvalsOk, RootListOk, StringsOk, ThreadsOk, LiveClosed, CleanRoots, NeverBlack;
    var q := OpenList(s, th);
    if q != [] && Level(s.heap, q[0]) >= level {
      CloseTopStruct(s, th, e);
      CloseTopClean(s, th);
      CloseTopPhase(s, th);
      if LiveClosed(s) { CloseTopLive(s, th); }
      CloseStruct(CloseTop(s, th), th, level, e);
    }
  }

  lemma CloseTopPhase(s: State, th: Id)
    requires ObjsOk(s) && NeverBlack(s) && OpenList(s, th) != [] && s.phase != Propagate
    ensures CloseTop(s, th).phase == s.phase
    ensures OnlyErases(s, CloseTop(s, th))
    ensures var r := CloseTop(s, th);
      && th in r.heap && r.heap[th].colour == s.heap[th].colour && r.heap[th].fixed == s.heap[th].fixed
      && r.heap[th].body.Thread?
      && (s.sweepgc == 0 ==> r.sweepgc == 0)
  {
    CloseTopShape(s, th);
    hide CloseTop;
    CloseTopKeepsLive(s, th, CloseTop(s, th));
  }

  lemma CloseTopKeepsLive(s: State, th: Id, r: State)
    requires ObjsOk(s) && OpenList(s, th) != [] && OpenList(s, th)[0] in s.heap && OpenList(s, th)[0] != th
    requires var u := OpenList(s, th)[0];
      && r == s.(heap := r.heap, uvhead := r.uvhead, rootgc := r.rootgc, sweepgc := r.sweepgc)
      && (if IsDead(s, s.heap[u]) then r.heap.Keys == s.heap.Keys - {u}
          else (u in r.heap
                && r.heap[u] == Obj(White(s.white), s.heap[u].fixed, ClosedUp(Slot(s.heap, th, Level(s.heap, u))))))
      && TopGone(s, th, u, r) && forall i :: i in s.heap && i != u ==> r.heap[i].colour == s.heap[i].colour
    ensures KeepsLive(s, r)
  {
    var u := OpenList(s, th)[0];
    assert ObjOk(s, u) && ObjOk(s, th);
  }

  /** luaF_close outside the mark phase erases dead upvalues only and leaves no level above the given one. */
  lemma {:induction false} CloseErases(s: State, th: Id, level: nat, e: set<Id>)
    requires StructBut(s, e) && NeverBlack(s) && s.phase != Propagate
    requires e <= {th}
    requires th in s.heap && s.heap[th].body.Thread?
    ensures var r := Close(s, th, level);
      && OnlyErases(s, r)
      && (forall i :: Clean(s, i) ==> Clean(r, i))
      && th in r.heap && r.heap[th].colour == s.heap[th].colour && r.heap[th].fixed == s.heap[th].fixed
      && r.heap[th].body.Thread?
      && (forall u :: u in OpenList(r, th) ==> Level(r.heap, u) < level)
      && (level == 0 ==> OpenList(r, th) == [])
      && (s.sweepgc == 0 ==> r.sweepgc == 0)
      && |r.rootgc| - r.sweepgc + |r.uvhead| <= |s.rootgc| - s.sweepgc + |s.uvhead|
    decreases |OpenList(s, th)|
  {
    hide CloseTop, UpvalsOk, RootListOk, StringsOk, ThreadsOk, NeverBlack, Clean, LiveClosed, ObjsOk, KeepsLive;
    KeepsItself(s);
    var q := OpenList(s, th);
    if q != [] && Level(s.heap, q[0]) >= level {
      var m := CloseTop(s, th);
      CloseTopStruct(s, th, e);
      CloseTopClean(s, th);
      CloseTopPhase(s, th);
      CloseTopMeasure(s, th);
      CloseErases(m, th, level, e);
      KeepsLiveTrans(s, m, Close(m, th, level));
    } else if q != [] {
      OpenLevels(s, th, level);
    }
  }

  // ---- what a closed upvalue holds ------------------------------------------

  /** luaC_linkupval changes colours and lists only, and kills nothing. */
  ghost predicate Recoloured(s: State, r: State) {
    && r.heap.Keys == s.heap.Keys && r.white == s.white
    && forall i :: i in s.heap ==>
         && r.heap[i].body == s.heap[i].body && r.heap[i].fixed == s.heap[i].fixed
         && (IsDead(r, r.heap[i]) ==> IsDead(s, s.heap[i]))
  }

  lemma LinkUpvalRecolours(s: State, u: Id)
    ensures var r := LinkUpval(s, u);
      && Recoloured(s, r) && r.uvhead == s.uvhead && r.strt == s.strt && r.sweepstrgc == s.sweepstrgc
      && r.main == s.main && r.running == s.running
  {
    hide MarkId;
  }

  /** The state in which the topmost open upvalue of `th`, which is not dead, has its value but is in no list. */
  ghost function Detached(s: State, th: Id): State
    requires OpenList(s, th) != [] && OpenList(s, th)[0] in s.heap
  {
    var b, u := s.heap[th].body, OpenList(s, th)[0];
    var s1 := SetBody(s, th, b.(open := b.open[1..]));
    SetBody(s1.(uvhead := Without(s1.uvhead, u)), u, ClosedUp(Slot(s.heap, th, Level(s.heap, u))))
  }

  /** What a round of luaF_close does, in any phase */
  ghost predicate TopClosed(s: State, th: Id, r: State)
    requires OpenList(s, th) != []
  {
    var u := OpenList(s, th)[0];
    && TopGone(s, th, u, r)
    && (u in r.heap ==> r.heap[u].body == ClosedUp(Slot(s.heap, th, Level(s.heap, u))))
    && forall i :: Live(s, i) ==> Live(r, i)
  }

  lemma CloseTopAny(s: State, th: Id)
    requires ObjsOk(s) && OpenList(s, th) != []
    ensures TopClosed(s, th, CloseTop(s, th))
  {
    hide ObjsOk, LinkUpval, TopClosed;
    TopUpval(s, th);
    if IsDead(s, s.heap[OpenList(s, th)[0]]) {
      FreeTopAny(s, th);
    } else {
      assert CloseTop(s, th) == LinkUpval(Detached(s, th), OpenList(s, th)[0]);
      DetachedAny(s, th);
      LinkUpvalRecolours(Detached(s, th), OpenList(s, th)[0]);
      hide CloseTop, Detached;
      RecolouredTop(s, th, Detached(s, th), LinkUpval(Detached(s, th), OpenList(s, th)[0]));
    }
  }

  lemma FreeTopAny(s: State, th: Id)
    requires OpenList(s, th) != [] && OpenList(s, th)[0] in s.heap && OpenList(s, th)[0] != th
    requires IsDead(s, s.heap[OpenList(s, th)[0]])
    ensures TopClosed(s, th, CloseTop(s, th))
  {
  }

  lemma DetachedAny(s: State, th: Id)
    requires OpenList(s, th) != [] && OpenList(s, th)[0] in s.heap && OpenList(s, th)[0] != th
    ensures TopClosed(s, th, Detached(s, th))
  {
  }

  lemma RecolouredTop(s: State, th: Id, m: State, r: State)
    requires OpenList(s, th) != [] && TopClosed(s, th, m) && Recoloured(m, r)
    requires r.uvhead == m.uvhead && r.strt == m.strt && r.sweepstrgc == m.sweepstrgc
    requires r.main == m.main && r.running == m.running
    ensures TopClosed(s, th, r)
  {
    hide Without, Slot;
    forall i | Live(s, i) ensures Live(r, i) { assert Live(m, i); }
  }

  /** Closing the upvalues of `th` from `level` on does to object `i` what it should. */
  ghost predicate ClosedObj(s: State, th: Id, level: nat, r: State, i: Id)
    requires i in s.heap
  {
    if i == th then i in r.heap && (s.heap[th].body.Thread? ==>
        && r.heap[th].body == s.heap[th].body.(open := OpenList(r, th))
        && forall u :: u in OpenList(r, th) <==> u in OpenList(s, th) && Level(s.heap, u) < level)
    else if i in OpenList(s, th) && Level(s.heap, i) >= level then
      i in r.heap ==> r.heap[i].body == ClosedUp(Slot(s.heap, th, Level(s.heap, i)))
    else i in r.heap && r.heap[i].body == s.heap[i].body
  }

  /** The upvalues of `th` from `level` on hold the values of their slots; everything else keeps its content. */
  ghost predicate ClosedFrom(s: State, th: Id, level: nat, r: State) {
    && (forall i :: i in r.heap ==> i in s.heap) && (forall i :: Live(s, i) ==> Live(r, i))
    && forall i :: i in s.heap ==> ClosedObj(s, th, level, r, i)
  }

  /** luaF_close gives every upvalue it closes the value of its slot, in every phase. */
  lemma {:induction false} CloseValues(s: State, th: Id, level: nat)
    requires ObjsOk(s)
    ensures ClosedFrom(s, th, level, Close(s, th, level))
    decreases |OpenList(s, th)|
  {
    hide CloseTop, ObjsOk, TopGone, ClosedObj;
    var q := OpenList(s, th);
    if q != [] && Level(s.heap, q[0]) >= level {
      var m := CloseTop(s, th);
      CloseTopAny(s, th);
      TopUpval(s, th);
      TopGoneObjs(s, th, q[0], m);
      CloseValues(m, th, level);
      ClosedMore(s, th, level, m, Close(m, th, level));
    } else {
      if q != [] { OpenLevels(s, th, level); }
      forall i | i in s.heap ensures ClosedObj(s, th, level, s, i) { ClosedSame(s, th, level, i); }
    }
  }

  lemma ClosedSame(s: State, th: Id, level: nat, i: Id)
    requires i in s.heap && forall u :: u in OpenList(s, th) ==> Level(s.heap, u) < level
    ensures ClosedObj(s, th, level, s, i)
  {
  }

  lemma OpenListed(s: State, th: Id)
    requires ObjsOk(s) && OpenList(s, th) != []
    ensures forall u :: u in OpenList(s, th) ==> u in s.heap && u != th && s.heap[u].body.OpenUp?
  {
    assert ObjOk(s, th) && OpenListOk(s, th, OpenList(s, th));
  }

  lemma ClosedMore(s: State, th: Id, level: nat, m: State, r: State)
    requires ObjsOk(s) && OpenList(s, th) != [] && Level(s.heap, OpenList(s, th)[0]) >= level
    requires TopClosed(s, th, m) && ClosedFrom(m, th, level, r)
    ensures ClosedFrom(s, th, level, r)
  {
    hide ClosedObj, ObjsOk;
    TopUpval(s, th);
    OpenListed(s, th);
    forall i | i in s.heap ensures ClosedObj(s, th, level, r, i) {
      if i in m.heap { assert ClosedObj(m, th, level, r, i); }
      assert i !in m.heap ==> i !in r.heap;
      assert TopGone(s, th, OpenList(s, th)[0], m);
      ClosedOne(s, th, level, m, r, i);
    }
    forall i | i in r.heap ensures i in s.heap { assert i in m.heap; }
  }

  lemma ClosedOne(s: State, th: Id, level: nat, m: State, r: State, i: Id)
    requires OpenList(s, th) != [] && Level(s.heap, OpenList(s, th)[0]) >= level && i in s.heap
    requires TopClosed(s, th, m) && (if i in m.heap then ClosedObj(m, th, level, r, i) else i !in r.heap)
    requires OpenList(s, th)[0] !in OpenList(s, th)[1..]
    requires forall u :: u in OpenList(s, th) ==> u in s.heap && u != th && s.heap[u].body.OpenUp?
    ensures ClosedObj(s, th, level, r, i)
  {
    hide Without;
    var q := OpenList(s, th);
    assert OpenList(m, th) == q[1..] && q == [q[0]] + q[1..];
    assert forall x :: x in q <==> x == q[0] || x in q[1..];
    assert forall x :: x in q[1..] ==> Level(m.heap, x) == Level(s.heap, x);
    assert forall k :: Slot(m.heap, th, k) == Slot(s.heap, th, k);
  }

  lemma WithoutLength(q: seq<Id>, i: Id)
    ensures |Without(q, i)| <= |q|
    ensures i in q ==> |Without(q, i)| < |q|
  {
  }

  lemma CloseTopMeasure(s: State, th: Id)
    requires ObjsOk(s) && NeverBlack(s) && UpvalsOk(s) && OpenList(s, th) != [] && s.phase != Propagate
    ensures var r := CloseTop(s, th);
      |r.rootgc| - r.sweepgc + |r.uvhead| <= |s.rootgc| - s.sweepgc + |s.uvhead|
  {
    CloseTopShape(s, th);
    WithoutLength(s.uvhead, OpenList(s, th)[0]);
  }

  /** No open upvalue points into a thread whose list of open upvalues is empty. */
  lemma NoUpvalInto(s: State, i: Id)
    requires ObjsOk(s) && OpenList(s, i) == []
    ensures forall u :: u in s.heap && s.heap[u].body.OpenUp? ==> s.heap[u].body.thread != i
  {
    forall u | u in s.heap && s.heap[u].body.OpenUp? ensures s.heap[u].body.thread != i {
      assert ObjOk(s, u);
    }
  }

  lemma FreeObjs(s: State, i: Id)
    requires ObjsOk(s) && i in s.heap && InRootList(s.heap[i].body) && OpenList(s, i) == []
    ensures ObjsOk(Free(s, i))
  {
    var r := Free(s, i);
    NoUpvalInto(s, i);
    forall j | j in r.heap ensures ObjOk(r, j) {
      assert ObjOk(s, j);
      if r.heap[j].body.Thread? { assert OpenListOk(s, j, s.heap[j].body.open); }
    }
  }

  /** Erasing a dead object that is in no list any more. */
  lemma FreeStruct(s: State, i: Id)
    requires StructBut(s, {i}) && i in s.heap && Erasable(s, s.heap[i]) && i != s.running
    requires InRootList(s.heap[i].body) && OpenList(s, i) == []
    ensures Struct(Free(s, i))
  {
    FreeObjs(s, i);
    FreeStrings(s, i);
  }

  lemma FreeStrings(s: State, i: Id)
    requires StringsOk(s) && i in s.heap && !s.heap[i].body.Str?
    ensures StringsOk(Free(s, i))
  {
    StringsKept(s, Free(s, i));
  }

  lemma FreeLive(s: State, i: Id)
    requires ObjsOk(s) && LiveClosed(s) && i in s.heap && IsDead(s, s.heap[i]) && OpenList(s, i) == []
    ensures LiveClosed(Free(s, i))
  {
    var r := Free(s, i);
    NoUpvalInto(s, i);
    forall j | Live(r, j) ensures Live(s, j) && Refs(r, j) == Refs(s, j) {
    }
    LiveKept(s, r);
  }

  // ---- sweeping the open upvalues of a thread -------------------------------

  /** SweepOpen, seen object by object. */
  ghost predicate OpenSwept(s: State, th: Id, q: seq<Id>, r: State, kept: seq<Id>) {
    && r == s.(heap := r.heap, uvhead := r.uvhead)
    && th in s.heap && s.heap[th].body.Thread?
    && th in r.heap && r.heap[th].body == s.heap[th].body.(open := kept)
    && (forall i :: i in r.heap <==> i in s.heap && !(i in q && Erasable(s, s.heap[i])))
    && (forall i :: i in r.heap ==>
          && (i != th ==> r.heap[i].body == s.heap[i].body)
          && r.heap[i].fixed == s.heap[i].fixed
          && r.heap[i].colour == (if i in q then White(s.white) else s.heap[i].colour))
    && (forall i :: i in kept <==> i in q && i in r.heap)
    && (forall u :: u in r.uvhead <==> u in s.uvhead && !(u in q && u in s.heap && Erasable(s, s.heap[u])))
    && (NoDup(s.uvhead) ==> NoDup(r.uvhead))
    && forall a, b :: 0 <= a < b < |kept| ==> Level(s.heap, kept[a]) > Level(s.heap, kept[b])
  }

  lemma SweepOpenSpec(s: State, th: Id)
    requires ObjsOk(s) && th in s.heap && s.heap[th].body.Thread?
    ensures var r := SweepOpen(s, th);
      && th in r.heap && r.heap[th].body.Thread?
      && OpenSwept(s, th, OpenList(s, th), r, r.heap[th].body.open)
      && OpenListOk(s, th, OpenList(s, th)) && th !in OpenList(s, th)
  {
    var q := OpenList(s, th);
    assert ObjOk(s, th) && OpenListOk(s, th, q);
    OpenNoDup(s, th);
    SweepListSpec(s, q);
    var (m, kept) := SweepList(s, q);
    forall a, b | 0 <= a < b < |kept| ensures Level(s.heap, kept[a]) > Level(s.heap, kept[b]) {
      assert Before(q, kept[a], kept[b]);
    }
  }

  lemma SweepOpenObj(s: State, th: Id, r: State, kept: seq<Id>, i: Id)
    requires ObjsOk(s) && th in s.heap && s.heap[th].body.Thread?
    requires OpenListOk(s, th, OpenList(s, th)) && th !in OpenList(s, th)
    requires OpenSwept(s, th, OpenList(s, th), r, kept) && i in r.heap
    ensures ObjOk(r, i)
  {
    var q := OpenList(s, th);
    assert ObjOk(s, i);
    if i == th {
      assert OpenListOk(r, th, kept);
    } else if s.heap[i].body.Thread? {
      var p := s.heap[i].body.open;
      assert OpenListOk(s, i, p);
      hide ObjsOk, UpvalOk;
      assert forall u :: u in p ==> u !in q && u in r.heap && r.heap[u].body == s.heap[u].body;
      assert OpenListOk(r, i, p);
    }
  }

  lemma OpenNoDup(s: State, th: Id)
    requires ObjsOk(s)
    ensures NoDup(OpenList(s, th))
  {
    if th in s.heap && s.heap[th].body.Thread? {
      var q := OpenList(s, th);
      assert ObjOk(s, th) && OpenListOk(s, th, q);
      forall a, b | 0 <= a < b < |q| ensures q[a] != q[b] {
        assert Level(s.heap, q[a]) > Level(s.heap, q[b]);
      }
    }
  }

  /** sweepwholelist(L, &th->openupval) */
  lemma SweepOpenKeeps(s: State, th: Id)
    requires Struct(s) && th in s.heap && s.heap[th].body.Thread?
    ensures var r := SweepOpen(s, th);
      && Struct(r) && OnlyErases(s, r)
      && r.rootgc == s.rootgc && r.sweepgc == s.sweepgc && |r.uvhead| <= |s.uvhead|
      && (forall u :: u in OpenList(r, th) ==> Clean(r, u))
      && th in r.heap && r.heap[th].body.Thread? && r.heap[th].colour == s.heap[th].colour && r.heap[th].fixed ==
          s.heap[th].fixed
  {
    hide SweepOpen, StringsOk, NoDup, KeepsLive;
    SweepOpenKeepsLive(s, th);
    SweepOpenSpec(s, th);
    SweepOpenShrinks(s, th);
    var r := SweepOpen(s, th);
    forall i | i in r.heap ensures ObjOk(r, i) { SweepOpenObj(s, th, r, r.heap[th].body.open, i); }
    SweepOpenStrings(s, th, r, r.heap[th].body.open);
  }

  lemma SweepOpenKeepsLive(s: State, th: Id)
    requires ObjsOk(s) && th in s.heap && s.heap[th].body.Thread?
    ensures KeepsLive(s, SweepOpen(s, th))
  {
    SweepOpenSpec(s, th);
  }

  lemma SweepOpenShrinks(s: State, th: Id)
    ensures |SweepOpen(s, th).uvhead| <= |s.uvhead|
  {
    SweepListShrinks(s, OpenList(s, th));
  }

  lemma SweepOpenStrings(s: State, th: Id, r: State, kept: seq<Id>)
    requires StringsOk(s) && OpenListOk(s, th, OpenList(s, th)) && th in s.heap && s.heap[th].body.Thread?
    requires OpenSwept(s, th, OpenList(s, th), r, kept)
    ensures StringsOk(r)
  {
    StringsKept(s, r);
  }

  lemma {:induction false} SweepListShrinks(s: State, list: seq<Id>)
    ensures |SweepList(s, list).0.uvhead| <= |s.uvhead|
    decreases |list|
  {
    if list != [] {
      var i := list[0];
      WithoutLength(s.uvhead, i);
      SweepListShrinks(if i !in s.heap then s else if Erasable(s, s.heap[i]) then Free(s, i)
          else Paint(s, i, White(s.white)), list[1..]);
    }
  }

  lemma SweepOpenLive(s: State, th: Id)
    requires ObjsOk(s) && th in s.heap && s.heap[th].body.Thread? && LiveClosed(s)
    requires ThreadsOk(s)
    ensures LiveClosed(SweepOpen(s, th))
  {
    SweepOpenSpec(s, th);
    var r := SweepOpen(s, th);
    forall i | Live(r, i) ensures Live(s, i) && Refs(r, i) == Refs(s, i) {
      assert ObjOk(s, i);
    }
    LiveKept(s, r);
  }

  lemma SweepOpenClean(s: State, th: Id)
    requires ObjsOk(s) && NeverBlack(s) && th in s.heap && s.heap[th].body.Thread?
    ensures var r := SweepOpen(s, th);
      && NeverBlack(r)
      && (CleanRoots(s) ==> CleanRoots(r))
      && (forall i :: Clean(s, i) ==> Clean(r, i))
  {
    SweepOpenSpec(s, th);
    var r := SweepOpen(s, th);
    if CleanRoots(s) {
      forall k | 0 <= k < r.sweepgc && k < |r.rootgc|
        ensures Clean(r, r.rootgc[k]) && forall u :: u in OpenList(r, r.rootgc[k]) ==> Clean(r, u)
      {
        assert Clean(s, s.rootgc[k]);
        forall u | u in OpenList(r, r.rootgc[k]) ensures Clean(r, u) {
          if r.rootgc[k] != th { assert u in OpenList(s, s.rootgc[k]) && Clean(s, u); }
        }
      }
    }
  }

  // ---- a round at the sweep position ----------------------------------------

  lemma UnlinkHere(s: State)
    requires Struct(s) && s.sweepgc < |s.rootgc|
    ensures var i := s.rootgc[s.sweepgc];
      var r := s.(rootgc := s.rootgc[..s.sweepgc] + s.rootgc[s.sweepgc + 1..]);
      StructBut(r, {i}) && |r.rootgc| == |s.rootgc| - 1
  {
    hide ThreadsOk, UpvalsOk;
    var i := s.rootgc[s.sweepgc];
    var r := s.(rootgc := s.rootgc[..s.sweepgc] + s.rootgc[s.sweepgc + 1..]);
    StringsKept(s, r);
    assert UpvalsOk(r) && ThreadsOk(r) by { UnlinkHereRest(s, r.rootgc); }
    forall j | j in r.heap ensures ObjOk(r, j) {
      assert ObjOk(s, j);
      if r.heap[j].body.Thread? { assert OpenListOk(s, j, s.heap[j].body.open); }
    }
    assert forall j :: j in s.rootgc <==> j in r.rootgc || j == i;
  }

  lemma UnlinkHereRest(s: State, q: seq<Id>)
    requires UpvalsOk(s) && ThreadsOk(s)
    ensures UpvalsOk(s.(rootgc := q)) && ThreadsOk(s.(rootgc := q))
  {
  }

  ghost predicate SweepInv(s: State) {
    && Struct(s) && LiveClosed(s) && NeverBlack(s)
    && s.phase == Sweep && CleanStrings(s, |s.strt|) && CleanRoots(s)
  }

  lemma NoOpenList(s: State, i: Id)
    requires i in s.heap && !s.heap[i].body.Thread?
    ensures SweepOpen(s, i) == s && OpenList(s, i) == []
  {
  }

  lemma SweepOpenAny(s: State, i: Id)
    requires SweepInv(s) && i in s.heap
    ensures var r := SweepOpen(s, i);
      && SweepInv(r) && OnlyErases(s, r) && r.rootgc == s.rootgc && r.sweepgc == s.sweepgc && |r.uvhead| <= |s.uvhead|
      && (forall u :: u in OpenList(r, i) ==> Clean(r, u))
      && i in r.heap && r.heap[i].colour == s.heap[i].colour && r.heap[i].fixed == s.heap[i].fixed
      && InRootList(r.heap[i].body) == InRootList(s.heap[i].body)
  {
    if s.heap[i].body.Thread? {
      hide SweepOpen;
      SweepOpenKeeps(s, i);
      SweepOpenLive(s, i);
      SweepOpenClean(s, i);
    } else {
      NoOpenList(s, i);
    }
  }

  /** The object at the sweep position survives and is returned to white. */
  lemma SweepNextKept(s: State)
    requires SweepInv(s) && s.sweepgc < |s.rootgc|
    requires var i := s.rootgc[s.sweepgc];
      && i in s.heap && !Erasable(s, s.heap[i])
      && forall u :: u in OpenList(s, i) ==> Clean(s, u)
    ensures SweepInv(Paint(s, s.rootgc[s.sweepgc], White(s.white)).(sweepgc := s.sweepgc + 1))
  {
    var i := s.rootgc[s.sweepgc];
    var r := Paint(s, i, White(s.white)).(sweepgc := s.sweepgc + 1);
    hide NoDup, StringsOk, UpvalsOk, CleanRoots, CleanStrings, RootListOk, Paint, NeverBlack, LiveClosed;
    NotErasableLive(s, i);
    PaintStruct(s, i);
    PaintLive(s, i, s.sweepgc + 1);
    PaintCleanRoots(s);
    CleanStringsKept(s, r, |s.strt|);
  }

  lemma NotErasableLive(s: State, i: Id)
    requires ObjsOk(s) && LiveClosed(s) && i in s.heap && !Erasable(s, s.heap[i]) && InRootList(s.heap[i].body)
    ensures Live(s, i)
  {
    assert ObjOk(s, i);
    if i == s.main { assert i in Roots(s); }
  }

  lemma PaintStruct(s: State, i: Id)
    requires Struct(s) && i in s.heap && s.sweepgc < |s.rootgc|
    ensures var r := Paint(s, i, White(s.white)).(sweepgc := s.sweepgc + 1);
      && Struct(r)
      && (NeverBlack(s) ==> NeverBlack(r))
      && (forall j :: Clean(s, j) ==> Clean(r, j))
      && r.phase == s.phase && r.strt == s.strt
  {
    var r := Paint(s, i, White(s.white)).(sweepgc := s.sweepgc + 1);
    assert SameLists(s, r);
    SameListsStruct(s, r, {});
  }

  lemma CleanStringsKept(s: State, r: State, n: nat)
    requires CleanStrings(s, n) && r.strt == s.strt
    requires forall i :: Clean(s, i) ==> Clean(r, i)
    ensures CleanStrings(r, n)
  {
    forall b, i | 0 <= b < n && b < |r.strt| && i in r.strt[b] ensures Clean(r, i) {
      assert Clean(s, i);
    }
  }

  lemma PaintCleanRoots(s: State)
    requires CleanRoots(s) && s.sweepgc < |s.rootgc|
    requires var i := s.rootgc[s.sweepgc]; i in s.heap && forall u :: u in OpenList(s, i) ==> Clean(s, u)
    ensures CleanRoots(Paint(s, s.rootgc[s.sweepgc], White(s.white)).(sweepgc := s.sweepgc + 1))
  {
    var i := s.rootgc[s.sweepgc];
    var r := Paint(s, i, White(s.white)).(sweepgc := s.sweepgc + 1);
    forall k | 0 <= k < r.sweepgc && k < |r.rootgc|
      ensures Clean(r, r.rootgc[k]) && forall u :: u in OpenList(r, r.rootgc[k]) ==> Clean(r, u)
    {
      assert k < s.sweepgc ==> Clean(s, s.rootgc[k]);
      forall u | u in OpenList(r, r.rootgc[k]) ensures Clean(r, u) {
        assert u in OpenList(s, s.rootgc[k]) && Clean(s, u);
      }
    }
  }

  lemma PaintLive(s: State, i: Id, n: nat)
    requires LiveClosed(s) && Live(s, i)
    ensures LiveClosed(Paint(s, i, White(s.white)).(sweepgc := n))
  {
    var r := Paint(s, i, White(s.white)).(sweepgc := n);
    assert forall j :: Refs(r, j) == Refs(s, j);
    LiveKept(s, r);
  }

  /** The dead object at the sweep position is unlinked; a thread closes its upvalues before it goes. */
  lemma SweepNextErased(s: State)
    requires SweepInv(s) && s.sweepgc < |s.rootgc|
    requires var i := s.rootgc[s.sweepgc]; i in s.heap && Erasable(s, s.heap[i])
    ensures var i := s.rootgc[s.sweepgc];
      var c := Close(s.(rootgc := s.rootgc[..s.sweepgc] + s.rootgc[s.sweepgc + 1..]), i, 0);
      var r := Free(c, i);
      && SweepInv(r) && OnlyErases(s, r)
      && |r.rootgc| - r.sweepgc + |r.uvhead| < |s.rootgc| - s.sweepgc + |s.uvhead|
  {
    hide Close, ObjsOk, UpvalsOk, StringsOk, NoDup, CleanRoots, Free;
    var i := s.rootgc[s.sweepgc];
    var s2 := s.(rootgc := s.rootgc[..s.sweepgc] + s.rootgc[s.sweepgc + 1..]);
    UnlinkHere(s);
    assert LiveClosed(s2) && CleanRoots(s2) by { UnlinkHereClean(s, i, s2); }
    CloseStruct(s2, i, 0, {i});
    CloseAnyErases(s2, i);
    var c := Close(s2, i, 0);
    assert i != s.running by { assert Live(s, s.running); }
    assert OpenList(c, i) == [];
    FreeStruct(c, i);
    FreeLive(c, i);
    FreeClean(c, i);
    var r := Free(c, i);
    hide KeepsLive;
    KeepsLiveTrans(s2, c, r);
    SameKeepsLive(s, s2, r);
    CleanStringsKept(s, r, |s.strt|);
  }

  lemma FreeClean(s: State, i: Id)
    requires ObjsOk(s) && i in s.heap && Erasable(s, s.heap[i]) && OpenList(s, i) == []
    ensures var r := Free(s, i);
      && OnlyErases(s, r) && |r.uvhead| <= |s.uvhead| && r.rootgc == s.rootgc && r.sweepgc == s.sweepgc
      && (NeverBlack(s) ==> NeverBlack(r))
      && (CleanRoots(s) ==> CleanRoots(r)) && (forall j :: Clean(s, j) ==> Clean(r, j))
  {
    var r := Free(s, i);
    WithoutLength(s.uvhead, i);
    NoUpvalInto(s, i);
    if CleanRoots(s) {
      forall k | 0 <= k < r.sweepgc && k < |r.rootgc|
        ensures Clean(r, r.rootgc[k]) && forall u :: u in OpenList(r, r.rootgc[k]) ==> Clean(r, u)
      {
        assert Clean(s, s.rootgc[k]);
        forall u | u in OpenList(r, r.rootgc[k]) ensures Clean(r, u) {
          assert u in OpenList(s, s.rootgc[k]) && Clean(s, u);
        }
      }
    }
  }

  lemma UnlinkHereClean(s: State, i: Id, r: State)
    requires LiveClosed(s) && CleanRoots(s) && s.sweepgc < |s.rootgc|
    requires r == s.(rootgc := s.rootgc[..s.sweepgc] + s.rootgc[s.sweepgc + 1..])
    ensures LiveClosed(r) && CleanRoots(r)
  {
    assert forall j :: Refs(r, j) == Refs(s, j);
    LiveKept(s, r);
    forall k | 0 <= k < r.sweepgc && k < |r.rootgc|
      ensures Clean(r, r.rootgc[k]) && forall u :: u in OpenList(r, r.rootgc[k]) ==> Clean(r, u)
    {
      assert r.rootgc[k] == s.rootgc[k] && Clean(s, s.rootgc[k]);
      forall u | u in OpenList(r, r.rootgc[k]) ensures Clean(r, u) { assert Clean(s, u); }
    }
  }

  lemma CloseAnyErases(s: State, i: Id)
    requires StructBut(s, {i}) && NeverBlack(s) && s.phase != Propagate && i in s.heap
    requires Erasable(s, s.heap[i]) && InRootList(s.heap[i].body)
    ensures var r := Close(s, i, 0);
      && OnlyErases(s, r) && (forall j :: Clean(s, j) ==> Clean(r, j))
      && i in r.heap && r.heap[i].colour == s.heap[i].colour && r.heap[i].fixed == s.heap[i].fixed
      && InRootList(r.heap[i].body) && OpenList(r, i) == []
      && |r.rootgc| - r.sweepgc + |r.uvhead| <= |s.rootgc| - s.sweepgc + |s.uvhead|
  {
    if s.heap[i].body.Thread? {
      hide Close;
      CloseErases(s, i, 0, {i});
    }
  }

  lemma SweepNextKeeps(s: State)
    requires SweepInv(s) && s.sweepgc < |s.rootgc|
    ensures var r := SweepNext(s);
      && SweepInv(r) && OnlyErases(s, r)
      && |r.rootgc| - r.sweepgc + |r.uvhead| < |s.rootgc| - s.sweepgc + |s.uvhead|
  {
    hide SweepOpen, Close, Struct, LiveClosed, NeverBlack, CleanRoots, CleanStrings, KeepsLive;
    var i := s.rootgc[s.sweepgc];
    assert i in s.heap && InRootList(s.heap[i].body) by { RootListed(s, s.sweepgc); }
    var s1 := SweepOpen(s, i);
    SweepOpenAny(s, i);
    if !Erasable(s1, s1.heap[i]) {
      SweepNextKept(s1);
      PaintKeepsLive(s1, i);
    } else {
      SweepNextErased(s1);
      var r := SweepNext(s);
      assert r == Free(Close(s1.(rootgc := s1.rootgc[..s1.sweepgc] + s1.rootgc[s1.sweepgc + 1..]), i, 0), i);
    }
    KeepsLiveTrans(s, s1, SweepNext(s));
  }

  lemma PaintKeepsLive(s: State, i: Id)
    requires i in s.heap && !Erasable(s, s.heap[i])
    ensures KeepsLive(s, Paint(s, i, White(s.white)).(sweepgc := s.sweepgc + 1))
  {
    assert forall j :: Refs(Paint(s, i, White(s.white)).(sweepgc := s.sweepgc + 1), j) == Refs(s, j);
  }

  lemma RootListed(s: State, k: nat)
    requires Struct(s) && k < |s.rootgc|
    ensures s.rootgc[k] in s.heap && InRootList(s.heap[s.rootgc[k]].body)
  {
    assert s.rootgc[k] in s.rootgc;
  }

  lemma {:induction false} SweepRootsKeeps(s: State, count: nat)
    requires SweepInv(s)
    ensures var r := SweepRoots(s, count);
      && SweepInv(r) && OnlyErases(s, r)
      && (r.sweepgc >= |r.rootgc| || count == 0 ||
          |r.rootgc| - r.sweepgc + |r.uvhead| < |s.rootgc| - s.sweepgc + |s.uvhead|)
    decreases count
  {
    hide SweepNext, Struct, LiveClosed, NeverBlack, CleanRoots, CleanStrings;
    if count > 0 && s.sweepgc < |s.rootgc| {
      SweepNextKeeps(s);
      SweepRootsKeeps(SweepNext(s), count - 1);
    }
  }

  // ---- a bucket of the string table -----------------------------------------

  lemma BucketStrings(s: State, r: State, kept: seq<Id>)
    requires StringsOk(s) && s.sweepstrgc < |s.strt|
    requires SweptList(s, s.strt[s.sweepstrgc], r, kept)
    ensures StringsOk(r.(strt := s.strt[s.sweepstrgc := kept], sweepstrgc := s.sweepstrgc + 1))
  {
    var k := s.sweepstrgc;
    var t := s.strt[k := kept];
    forall i | i in r.heap && r.heap[i].body.Str?
      ensures exists b :: 0 <= b < |t| && i in t[b]
    {
      var b :| 0 <= b < |s.strt| && i in s.strt[b];
      assert i in t[b];
    }
    forall b, i | 0 <= b < |t| && i in t[b] ensures i in r.heap && r.heap[i].body.Str? {
      assert i in s.strt[b];
      assert i in s.strt[k] ==> b == k;
    }
    forall b, c, i | 0 <= b < |t| && 0 <= c < |t| && i in t[b] && i in t[c] ensures b == c {
      assert i in s.strt[b] && i in s.strt[c];
    }
  }

  lemma BucketObjs(s: State, list: seq<Id>, r: State, kept: seq<Id>)
    requires ObjsOk(s) && SweptList(s, list, r, kept)
    requires forall i :: i in list && i in s.heap ==> s.heap[i].body.Str?
    ensures ObjsOk(r)
  {
    forall j | j in r.heap ensures ObjOk(r, j) {
      assert ObjOk(s, j);
      if r.heap[j].body.Thread? { assert OpenListOk(s, j, s.heap[j].body.open); }
    }
  }

  lemma BucketLive(s: State, list: seq<Id>, r: State, kept: seq<Id>)
    requires ObjsOk(s) && ThreadsOk(s) && LiveClosed(s) && SweptList(s, list, r, kept)
    requires forall i :: i in list && i in s.heap ==> s.heap[i].body.Str?
    ensures LiveClosed(r)
  {
    forall i | Live(r, i)
      ensures Refs(r, i) == [] || (Live(s, i) && Refs(r, i) == Refs(s, i))
    {
      assert ObjOk(s, i);
    }
    LiveKept(s, r);
  }

  lemma BucketClean(s: State, r: State, kept: seq<Id>)
    requires CleanStrings(s, s.sweepstrgc) && s.sweepstrgc < |s.strt|
    requires SweptList(s, s.strt[s.sweepstrgc], r, kept)
    ensures CleanStrings(r.(strt := s.strt[s.sweepstrgc := kept], sweepstrgc := s.sweepstrgc + 1), s.sweepstrgc + 1)
  {
    var t := r.(strt := s.strt[s.sweepstrgc := kept], sweepstrgc := s.sweepstrgc + 1);
    forall b, i | 0 <= b < s.sweepstrgc + 1 && b < |t.strt| && i in t.strt[b] ensures Clean(t, i) {
      if b < s.sweepstrgc { assert i in s.strt[b] && Clean(s, i); }
    }
  }

  lemma SweepBucketKeeps(s: State)
    requires Inv(s) && s.phase == SweepString
    ensures Inv(SweepBucket(s))
    ensures forall i :: Live(s, i) ==> Live(SweepBucket(s), i)
    ensures forall i :: i in SweepBucket(s).heap ==> i in s.heap
  {
    hide NoDup, StringsOk, ObjsOk, CleanStrings, ThreadsOk, LiveClosed, UpvalsOk, RootListOk, NeverBlack, SweptList,
         SweepList;
    var k := s.sweepstrgc;
    var list := s.strt[k];
    assert NoDup(list) && forall i :: i in list ==> i in s.heap && s.heap[i].body.Str? by { BucketOk(s, k); }
    SweepListSpec(s, list);
    var (r, kept) := SweepList(s, list);
    BucketStrings(s, r, kept);
    BucketObjs(s, list, r, kept);
    BucketClean(s, r, kept);
    BucketLive(s, list, r, kept);
    var t := r.(strt := s.strt[k := kept], sweepstrgc := k + 1);
    var q := SweepBucket(s);
    assert q == if k + 1 >= |s.strt| then t.(phase := Sweep) else t;
    BucketRest(s, list, r, kept, q);
  }

  lemma BucketOk(s: State, k: nat)
    requires StringsOk(s) && k < |s.strt|
    ensures NoDup(s.strt[k]) && forall i :: i in s.strt[k] ==> i in s.heap && s.heap[i].body.Str?
  {
  }

  lemma BucketRest(s: State, list: seq<Id>, r: State, kept: seq<Id>, q: State)
    requires SweptList(s, list, r, kept) && forall i :: i in list ==> i in s.heap && s.heap[i].body.Str?
    requires q == r.(strt := q.strt, sweepstrgc := q.sweepstrgc, phase := q.phase)
    ensures q.sweepgc == s.sweepgc
    ensures forall i :: Live(s, i) ==> Live(q, i)
    ensures forall i :: i in q.heap ==> i in s.heap
    ensures ThreadsOk(s) ==> ThreadsOk(q)
    ensures UpvalsOk(s) ==> UpvalsOk(q)
    ensures RootListOk(s, {}) ==> RootListOk(q, {})
    ensures NeverBlack(s) ==> NeverBlack(q)
    ensures ObjsOk(r) ==> ObjsOk(q)
    ensures LiveClosed(r) ==> LiveClosed(q)
    ensures StringsOk(r.(strt := q.strt, sweepstrgc := q.sweepstrgc)) ==> StringsOk(q)
    ensures forall n: nat :: CleanStrings(r.(strt := q.strt, sweepstrgc := q.sweepstrgc), n) ==> CleanStrings(q, n)
  {
    hide NoDup, CleanStrings, LiveClosed, ObjsOk;
    if LiveClosed(r) { RestLive(r, q); }
    if ObjsOk(r) { RestObjs(r, q); }
    forall n: nat | CleanStrings(r.(strt := q.strt, sweepstrgc := q.sweepstrgc), n) ensures CleanStrings(q, n) {
      CleanStringsKept(r.(strt := q.strt, sweepstrgc := q.sweepstrgc), q, n);
    }
  }

  lemma RestLive(r: State, q: State)
    requires LiveClosed(r) && q == r.(strt := q.strt, sweepstrgc := q.sweepstrgc, phase := q.phase)
    ensures LiveClosed(q)
  {
    assert forall i :: Refs(q, i) == Refs(r, i);
    LiveKept(r, q);
  }

  lemma RestObjs(r: State, q: State)
    requires ObjsOk(r) && q == r.(strt := q.strt, sweepstrgc := q.sweepstrgc, phase := q.phase)
    ensures ObjsOk(q)
  {
    forall j | j in q.heap ensures ObjOk(q, j) {
      assert ObjOk(r, j);
      if r.heap[j].body.Thread? { assert OpenListOk(r, j, r.heap[j].body.open); }
    }
  }

  // ---- the end of the mark phase --------------------------------------------

  lemma AtomicKeeps(s: State)
    requires Inv(s) && s.phase == Propagate && s.gray == []
    ensures Inv(Atomic(s)) && Atomic(s).heap.Keys == s.heap.Keys
  {
    AtomicMarkComplete(s);
    var m, r := AtomicMark(s), Atomic(s);
    SameListsStruct(s, r, {});
    assert LiveClosed(r) by { AtomicLive(s, m, r); }
    forall i | i in r.heap && r.heap[i].colour == Black
      ensures !r.heap[i].body.Thread? && !r.heap[i].body.OpenUp?
    {
      assert ColourOk(m, i, {});
    }
  }

  lemma AtomicLive(s: State, m: State, r: State)
    requires LiveClosed(s) && (forall i :: i in s.heap ==> !IsDead(s, s.heap[i]))
    requires m.heap.Keys == s.heap.Keys && Roots(m) == Roots(s) && m.gray == []
    requires forall i :: i in s.heap ==>
      m.heap[i].body == s.heap[i].body && (IsWhite(m.heap[i]) ==> m.heap[i] == s.heap[i])
    requires Covered(m, {}) && forall i :: i in Roots(s) ==> NonWhite(m, i)
    requires r.heap == m.heap && r.white == !s.white && Roots(r) == Roots(s)
    ensures LiveClosed(r)
  {
    forall i | i in Roots(r) ensures Live(r, i) {
      assert Live(s, i) && NonWhite(m, i);
    }
    forall i, j | Live(r, i) && j in Refs(r, i) ensures Live(r, j) {
      assert Live(s, i) && Refs(s, i) == Refs(m, i) == Refs(r, i);
      assert Live(s, j);
      assert Scanned(m, i) && NonWhite(m, j);
    }
  }
}