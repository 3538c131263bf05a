/** GC safety: over every run of the program and the collector nothing reachable is erased. */
module GcProgram {
  import opened Basics
  import opened GcHeap
  import opened GcMark
  import opened GcSweep
  import opened GcMutator
  import opened GcSafety

  // ---- threads --------------------------------------------------------------

  lemma ThreadStoreInv(s: State, th: Id, b: Body)
    requires Inv(s) && th in s.heap && s.heap[th].body.Thread? && b.Thread? && AddsLive(s, th, b)
    requires b.open == s.heap[th].body.open
    requires |b.stack| >= |s.heap[th].body.stack| || forall u :: u in b.open ==> Level(s.heap, u) < |b.stack|
    ensures Inv(SetBody(s, th, b))
  {
    hide StringsOk, UpvalsOk, RootListOk, LiveClosed, PhaseOk;
    assert ObjOk(s, th);
    forall u | u in b.open ensures Level(s.heap, u) < |b.stack| {
      assert OpenListOk(s, th, b.open) && ObjOk(s, u);
    }
    StoreInv(s, th, b);
  }

  lemma PushInv(s: State, th: Id, v: Ref)
    requires Inv(s) && th in s.heap && s.heap[th].body.Thread? && (v.Some? ==> Live(s, v.value))
    ensures Inv(Push(s, th, v))
  {
    hide Inv, Live;
    ThreadStoreInv(s, th, s.heap[th].body.(stack := s.heap[th].body.stack + [v]));
  }

  lemma SetStackInv(s: State, th: Id, level: nat, v: Ref)
    requires Inv(s) && (v.Some? ==> Live(s, v.value))
    ensures Inv(SetStack(s, th, level, v))
  {
    hide Inv, Live;
    if th in s.heap && s.heap[th].body.Thread? && level < |s.heap[th].body.stack| {
      ThreadStoreInv(s, th, s.heap[th].body.(stack := s.heap[th].body.stack[level := v]));
    }
  }

  // ---- new objects ----------------------------------------------------------

  /** A body for a new object: nothing points into it yet, and what it refers to is live. */
  ghost predicate Fresh(s: State, b: Body) {
    && (b.Node? || b.ClosedUp? || b.Str? || (b.Thread? && b.open == []))
    && forall x :: x in BodyRefs(s.heap, b) ==> Live(s, x)
  }

  /** From `s` to `r` a white object `id` has appeared. */
  ghost predicate Appeared(s: State, id: Id, b: Body, r: State) {
    && id !in s.heap
    && r == s.(heap := s.heap[id := Obj(White(s.white), false, b)], rootgc := r.rootgc, sweepgc := r.sweepgc,
        strt := r.strt)
  }

  lemma AppearedRefs(s: State, id: Id, b: Body, r: State, j: Id)
    requires ObjsOk(s) && Appeared(s, id, b, r) && j in s.heap
    ensures Refs(r, j) == Refs(s, j)
  {
    assert ObjOk(s, j);
  }

  lemma AppearedObjs(s: State, id: Id, b: Body, r: State)
    requires ObjsOk(s) && Appeared(s, id, b, r) && Fresh(s, b)
    ensures ObjsOk(r)
  {
    forall j | j in r.heap ensures ObjOk(r, j) {
      if j != id {
        assert ObjOk(s, j);
        if r.heap[j].body.Thread? { assert OpenListOk(s, j, s.heap[j].body.open); }
        if r.heap[j].body.OpenUp? { assert UpvalOk(s, j); }
      }
    }
  }

  lemma AppearedLive(s: State, id: Id, b: Body, r: State)
    requires ObjsOk(s) && LiveClosed(s) && Appeared(s, id, b, r) && Fresh(s, b)
    ensures LiveClosed(r)
  {
    forall j | Live(s, j) ensures Live(r, j) {}
    forall j | j in Roots(r) ensures Live(r, j) { assert Live(s, j); }
    forall j, x | Live(r, j) && x in Refs(r, j) ensures Live(r, x) {
      if j != id {
        AppearedRefs(s, id, b, r, j);
        assert Live(s, j) && Live(s, x);
      } else {
        NewRef(s, id, b, r, x);
      }
    }
  }

  lemma NewRef(s: State, id: Id, b: Body, r: State, x: Id)
    requires Appeared(s, id, b, r) && Fresh(s, b) && x in Refs(r, id)
    ensures Live(s, x)
  {
    assert BodyRefs(r.heap, b) == BodyRefs(s.heap, b);
  }

  lemma AppearedTricolour(s: State, id: Id, b: Body, r: State)
    requires ObjsOk(s) && LiveClosed(s) && Appeared(s, id, b, r) && UpvalsListed(s)
    requires (forall i :: i in s.heap ==> !IsDead(s, s.heap[i])) && Tricolour(s)
    requires s.main in s.heap && Live(s, s.registry)
    ensures (forall i :: i in r.heap ==> !IsDead(r, r.heap[i])) && Tricolour(r)
  {
    forall j | j in r.heap ensures ColourOk(r, j, {}) { assert j != id ==> ColourOk(s, j, {}); }
    forall j | j in r.heap && !IsWhite(r.heap[j])
      ensures j in Exempt(r) || j in r.gray || Scanned(r, j)
    {
      assert j in s.heap && (j in Exempt(s) || j in s.gray || Scanned(s, j));
      AppearedRefs(s, id, b, r, j);
      if Scanned(s, j) {
        forall x | x in Refs(r, j) ensures NonWhite(r, x) {
          assert Live(s, j) && Live(s, x);
          assert NonWhite(s, x);
        }
      }
    }
    assert Exempt(r) == Exempt(s);
  }

  lemma InsertNoDup(q: seq<Id>, k: nat, i: Id)
    requires NoDup(q) && i !in q && k <= |q|
    ensures NoDup(q[..k] + [i] + q[k..])
    ensures forall x :: x in q[..k] + [i] + q[k..] <==> x in q || x == i
  {
    var r := q[..k] + [i] + q[k..];
    forall x ensures x in r <==> x in q || x == i {
      assert q == q[..k] + q[k..];
    }
  }

  lemma LinkClean(s: State, id: Id, b: Body, k: nat, r: State)
    requires Appeared(s, id, b, r) && k <= |s.rootgc| && s.sweepgc <= |s.rootgc|
    requires r.rootgc == s.rootgc[..k] + [id] + s.rootgc[k..]
    requires r.sweepgc == if s.sweepgc > k then s.sweepgc + 1 else s.sweepgc
    requires b.Thread? ==> b.open == []
    requires forall i :: i in s.rootgc ==> i in s.heap
    requires forall i :: i in s.rootgc ==> id !in OpenList(s, i)
    requires CleanRoots(s)
    ensures CleanRoots(r)
  {
    forall j | 0 <= j < r.sweepgc && j < |r.rootgc|
      ensures Clean(r, r.rootgc[j]) && forall u :: u in OpenList(r, r.rootgc[j]) ==> Clean(r, u)
    {
      if j == k {
        assert r.rootgc[j] == id;
      } else {
        var m := if j < k then j else j - 1;
        assert r.rootgc[j] == s.rootgc[m] && m < s.sweepgc;
        assert s.rootgc[m] in s.rootgc;
        assert Clean(s, s.rootgc[m]);
        forall u | u in OpenList(r, r.rootgc[j]) ensures Clean(r, u) {
          assert u in OpenList(s, s.rootgc[m]) && Clean(s, u);
        }
      }
    }
  }

  lemma AppearedStrings(s: State, id: Id, b: Body, r: State)
    requires StringsOk(s) && Appeared(s, id, b, r) && !b.Str? && r.strt == s.strt
    ensures StringsOk(r)
    ensures forall n: nat :: CleanStrings(s, n) ==> CleanStrings(r, n)
  {
    StringsKept(s, r);
    forall n: nat | CleanStrings(s, n) ensures CleanStrings(r, n) {
      forall c, i | 0 <= c < n && c < |r.strt| && i in r.strt[c] ensures Clean(r, i) { assert Clean(s, i); }
    }
  }

  lemma OpenInHeap(s: State, id: Id)
    requires ObjsOk(s) && id !in s.heap
    ensures forall i :: id !in OpenList(s, i)
  {
    forall i ensures id !in OpenList(s, i) {
      if i in s.heap && s.heap[i].body.Thread? { assert ObjOk(s, i); }
    }
  }

  lemma LinkInv(s: State, id: Id, b: Body)
    requires Inv(s) && id !in s.heap && Fresh(s, b) && !b.Str?
    ensures Inv(Link(s, id, b)) && Live(Link(s, id, b), id)
    ensures forall i :: Live(s, i) ==> Live(Link(s, id, b), i)
    ensures forall i :: i in s.heap ==> Link(s, id, b).heap[i] == s.heap[i]
  {
    hide NoDup, ObjsOk, StringsOk, LiveClosed, CleanRoots, CleanStrings, Tricolour, UpvalsOk, RootListOk, ThreadsOk,
         NeverBlack, Link;
    var r := Link(s, id, b);
    var k := if b.Node? && b.kind == Userdata && s.main in s.rootgc then IndexOf(s.rootgc, s.main) + 1 else 0;
    LinkLists(s, id, b);
    AppearedObjs(s, id, b, r);
    AppearedLive(s, id, b, r);
    AppearedStrings(s, id, b, r);
    OpenInHeap(s, id);
    if s.phase == Sweep { LinkClean(s, id, b, k, r); }
    if s.phase == Propagate {
      assert Live(s, s.registry) by { RootsLive(s); }
      AppearedTricolour(s, id, b, r);
    }
  }

  lemma LinkLists(s: State, id: Id, b: Body)
    requires Struct(s) && NeverBlack(s) && id !in s.heap && Fresh(s, b) && !b.Str?
    ensures var r := Link(s, id, b);
      var k := if b.Node? && b.kind == Userdata && s.main in s.rootgc then IndexOf(s.rootgc, s.main) + 1 else 0;
      && UpvalsOk(r) && RootListOk(r, {}) && ThreadsOk(r) && NeverBlack(r) && UpvalsListed(s)
      && Appeared(s, id, b, r) && r.strt == s.strt && k <= |s.rootgc|
      && r.rootgc == s.rootgc[..k] + [id] + s.rootgc[k..]
      && r.sweepgc == (if s.sweepgc > k then s.sweepgc + 1 else s.sweepgc)
      && s.sweepgc <= |s.rootgc| && s.main in s.heap
      && forall i :: i in s.rootgc ==> i in s.heap
  {
    hide StringsOk, ObjsOk, NoDup, OpenListOk, UpvalsOk, RootListOk, ThreadsOk, NeverBlack, Appeared;
    var k := if b.Node? && b.kind == Userdata && s.main in s.rootgc then IndexOf(s.rootgc, s.main) + 1 else 0;
    RootListParts(s);
    var r := Link(s, id, b);
    LinkIs(s, id, b, k);
    LinkRootList(s, id, b, k, r);
    LinkOthers(s, id, b, r);
  }

  lemma RootListParts(s: State)
    requires RootListOk(s, {}) && ThreadsOk(s)
    ensures s.sweepgc <= |s.rootgc| && s.main in s.heap && forall i :: i in s.rootgc ==> i in s.heap
  {
  }

  lemma LinkIs(s: State, id: Id, b: Body, k: nat)
    requires k == if b.Node? && b.kind == Userdata && s.main in s.rootgc then IndexOf(s.rootgc, s.main) + 1 else 0
    ensures var r := Link(s, id, b);
      && k <= |s.rootgc| && r.rootgc == s.rootgc[..k] + [id] + s.rootgc[k..]
      && r.sweepgc == (if s.sweepgc > k then s.sweepgc + 1 else s.sweepgc)
      && r == s.(heap := s.heap[id := Obj(White(s.white), false, b)], rootgc := r.rootgc, sweepgc := r.sweepgc)
  {
  }

  lemma LinkRootList(s: State, id: Id, b: Body, k: nat, r: State)
    requires RootListOk(s, {}) && id !in s.heap && InRootList(b) && k <= |s.rootgc|
    requires r.rootgc == s.rootgc[..k] + [id] + s.rootgc[k..] && r.heap == s.heap[id := Obj(White(s.white), false, b)]
    requires r.sweepgc == if s.sweepgc > k then s.sweepgc + 1 else s.sweepgc
    ensures RootListOk(r, {})
  {
    hide NoDup;
    InsertNoDup(s.rootgc, k, id);
    assert forall i :: i in r.rootgc <==> i in s.rootgc || i == id by { InsertMembers(s.rootgc, k, id); }
  }

  lemma LinkOthers(s: State, id: Id, b: Body, r: State)
    requires UpvalsOk(s) && ThreadsOk(s) && NeverBlack(s) && id !in s.heap && Fresh(s, b)
    requires r == s.(heap := s.heap[id := Obj(White(s.white), false, b)], rootgc := r.rootgc, sweepgc := r.sweepgc)
    ensures UpvalsOk(r) && ThreadsOk(r) && NeverBlack(r) && Appeared(s, id, b, r) && UpvalsListed(s)
  {
    hide NoDup;
  }

  lemma RootsLive(s: State)
    requires LiveClosed(s)
    ensures Live(s, s.main) && Live(s, s.running) && Live(s, s.registry)
  {
    assert s.registry in Roots(s);
  }

  // ---- strings --------------------------------------------------------------

  lemma NewStringsOk(s: State, id: Id, b: nat, r: State)
    requires StringsOk(s) && id !in s.heap && b < |s.strt|
    requires Appeared(s, id, Str, r) && r.strt == s.strt[b := [id] + s.strt[b]]
    ensures StringsOk(r)
    ensures forall n: nat :: CleanStrings(s, n) ==> CleanStrings(r, n)
  {
    forall i | i in r.heap && r.heap[i].body.Str?
      ensures exists c :: 0 <= c < |r.strt| && i in r.strt[c]
    {
      if i == id {
        assert id in r.strt[b];
      } else {
        var c :| 0 <= c < |s.strt| && i in s.strt[c];
        assert i in r.strt[c];
      }
    }
    forall c, d, i | 0 <= c < |r.strt| && 0 <= d < |r.strt| && i in r.strt[c] && i in r.strt[d] ensures c == d {
      if i != id { assert i in s.strt[c] && i in s.strt[d]; }
    }
    forall n: nat | CleanStrings(s, n) ensures CleanStrings(r, n) {
      forall c, i | 0 <= c < n && c < |r.strt| && i in r.strt[c] ensures Clean(r, i) {
        if i != id { assert i in s.strt[c] && Clean(s, i); }
      }
    }
  }

  lemma NewStringInv(s: State, id: Id, b: nat)
    requires Inv(s) && id !in s.heap && b < |s.strt|
    ensures var r := s.(heap := s.heap[id := Obj(White(s.white), false, Str)], strt := s.strt[b := [id] + s.strt[b]]);
      Inv(r) && Live(r, id) && r.heap[s.running].body.Thread?
  {
    hide NoDup, ObjsOk, StringsOk, LiveClosed, CleanRoots, CleanStrings, Tricolour;
    var r := s.(heap := s.heap[id := Obj(White(s.white), false, Str)], strt := s.strt[b := [id] + s.strt[b]]);
    AppearedObjs(s, id, Str, r);
    AppearedLive(s, id, Str, r);
    NewStringsOk(s, id, b, r);
    OpenInHeap(s, id);
    if s.phase == Sweep { StringCleanRoots(s, id, r); }
    if s.phase == Propagate {
      assert Live(s, s.registry) by { RootsLive(s); }
      AppearedTricolour(s, id, Str, r);
    }
  }

  lemma StringCleanRoots(s: State, id: Id, r: State)
    requires Appeared(s, id, Str, r) && r.rootgc == s.rootgc && r.sweepgc == s.sweepgc && CleanRoots(s)
    requires RootListOk(s, {}) && forall i :: id !in OpenList(s, i)
    ensures CleanRoots(r)
  {
    forall k | 0 <= k < r.sweepgc && k < |r.rootgc|
      ensures Clean(r, r.rootgc[k]) && forall u :: u in OpenList(r, r.rootgc[k]) ==> Clean(r, u)
    {
      assert s.rootgc[k] in s.rootgc && Clean(s, s.rootgc[k]);
      forall u | u in OpenList(r, r.rootgc[k]) ensures Clean(r, u) {
        assert u in OpenList(s, s.rootgc[k]) && Clean(s, u);
      }
    }
  }

  /** A dead string or upvalue that the program finds again becomes live. */
  lemma ReviveInv(s: State, i: Id)
    requires Inv(s) && i in s.heap && forall x :: x in Refs(s, i) ==> Live(s, x)
    ensures Inv(Revive(s, i)) && Live(Revive(s, i), i)
    ensures forall j :: Live(s, j) ==> Live(Revive(s, i), j)
  {
    hide ObjsOk, StringsOk, UpvalsOk, RootListOk, ThreadsOk;
    var r := Revive(s, i);
    if r != s {
      assert s.phase == Sweep || s.phase == SweepString by {
        assert s.phase == Pause || s.phase == Finalize ==> Clean(s, i);
      }
      SameListsStruct(s, r, {}) by { StructParts(s); }
      assert forall j :: Refs(r, j) == Refs(s, j);
      forall j | j in Roots(r) ensures Live(r, j) { assert Live(s, j); }
      forall j, x | Live(r, j) && x in Refs(r, j) ensures Live(r, x) {
        if j != i { assert Live(s, j); }
        assert Live(s, x);
      }
      CleanKept(s, r);
    }
  }

  // ---- upvalues -------------------------------------------------------------

  lemma InsertedOpenList(s: State, th: Id, level: nat, id: Id, r: State)
    requires ObjsOk(s) && id !in s.heap && th in s.heap && s.heap[th].body.Thread?
    requires level < |s.heap[th].body.stack|
    requires var k := Above(s.heap, OpenList(s, th), level);
      k < |OpenList(s, th)| ==> Level(s.heap, OpenList(s, th)[k]) != level
    requires r == FindUpval(s, th, level, id).0
    ensures OpenListOk(r, th, OpenList(r, th)) && UpvalOk(r, id)
  {
    hide NoDup, Level;
    var q := OpenList(s, th);
    var k := Above(s.heap, q, level);
    assert ObjOk(s, th) && OpenListOk(s, th, q);
    var p := OpenList(r, th);
    assert p == q[..k] + [id] + q[k..];
    InsertMembers(q, k, id);
    assert forall u :: u in q ==> u in s.heap && u != id && u != th && r.heap[u] == s.heap[u];
    SameLevels(s.heap, r.heap, q, id);
    InsertLevels(s.heap, r.heap, q, k, level, id);
    assert p[k] == id;
  }

  lemma SameLevels(h: map<Id, Obj>, h': map<Id, Obj>, q: seq<Id>, id: Id)
    requires forall u :: u in q ==> u in h && u in h' && h'[u] == h[u]
    ensures forall u :: u in q ==> Level(h', u) == Level(h, u)
    ensures id in h' && h'[id].body.OpenUp? ==> Level(h', id) == h'[id].body.level
  {
  }

  lemma InsertMembers(q: seq<Id>, k: nat, i: Id)
    requires k <= |q|
    ensures forall x :: x in q[..k] + [i] + q[k..] <==> x in q || x == i
  {
    forall x ensures x in q[..k] + [i] + q[k..] <==> x in q || x == i {
      assert q == q[..k] + q[k..];
    }
  }

  lemma InsertLevels(h: map<Id, Obj>, h': map<Id, Obj>, q: seq<Id>, k: nat, level: nat, id: Id)
    requires k == Above(h, q, level) && (k < |q| ==> Level(h, q[k]) != level)
    requires forall a, b :: 0 <= a < b < |q| ==> Level(h, q[a]) > Level(h, q[b])
    requires Level(h', id) == level && forall u :: u in q ==> Level(h', u) == Level(h, u)
    ensures var p := q[..k] + [id] + q[k..];
      forall a, b :: 0 <= a < b < |p| ==> Level(h', p[a]) > Level(h', p[b])
  {
    hide Level;
    var p := q[..k] + [id] + q[k..];
    forall a, b | 0 <= a < b < |p| ensures Level(h', p[a]) > Level(h', p[b]) {
      if a < k { assert p[a] == q[a]; } else if a > k { assert p[a] == q[a - 1]; }
      if b < k { assert p[b] == q[b]; } else if b > k { assert p[b] == q[b - 1]; }
    }
  }

  lemma NewUpvalObjs(s: State, th: Id, level: nat, id: Id, r: State)
    requires ObjsOk(s) && id !in s.heap && th in s.heap && s.heap[th].body.Thread?
    requires level < |s.heap[th].body.stack|
    requires var k := Above(s.heap, OpenList(s, th), level);
      k < |OpenList(s, th)| ==> Level(s.heap, OpenList(s, th)[k]) != level
    requires r == FindUpval(s, th, level, id).0
    ensures ObjsOk(r)
  {
    hide OpenListOk, Above;
    InsertedOpenList(s, th, level, id, r);
    var q := OpenList(s, th);
    var k := Above(s.heap, q, level);
    InsertMembers(q, k, id);
    forall j | j in r.heap ensures ObjOk(r, j) {
      if j != id {
        assert ObjOk(s, j);
        if j != th && r.heap[j].body.Thread? { OpenListStays(s, r, j, th); }
      }
    }
  }

  /** What a new open upvalue changes. */
  /** The open list of another thread */
  lemma OpenListStays(s: State, r: State, j: Id, th: Id)
    requires j in s.heap && s.heap[j].body.Thread? && OpenListOk(s, j, s.heap[j].body.open)
    requires th in s.heap && s.heap[th].body.Thread? && forall i :: i in s.heap && i != th ==>
        i in r.heap && r.heap[i] == s.heap[i]
    ensures OpenListOk(r, j, s.heap[j].body.open)
  {
  }

  ghost predicate UpvalAdded(s: State, th: Id, level: nat, id: Id, r: State) {
    && id !in s.heap && th in s.heap && s.heap[th].body.Thread? && th != id
    && level < |s.heap[th].body.stack|
    && r == s.(heap := r.heap, uvhead := [id] + s.uvhead)
    && r.heap.Keys == s.heap.Keys + {id}
    && r.heap[id] == Obj(White(s.white), false, OpenUp(th, level))
    && (forall j :: j in s.heap && j != th ==> r.heap[j] == s.heap[j])
    && r.heap[th] == s.heap[th].(body := s.heap[th].body.(open := OpenList(r, th)))
    && forall u :: u in OpenList(r, th) ==> u == id || u in OpenList(s, th)
  }

  lemma NewUpvalLive(s: State, th: Id, level: nat, id: Id, r: State)
    requires ObjsOk(s) && LiveClosed(s) && Live(s, th) && UpvalAdded(s, th, level, id, r)
    ensures LiveClosed(r) && Live(r, id)
  {
    forall j | Live(s, j) ensures Live(r, j) {}
    forall j | j in Roots(r) ensures Live(r, j) { assert Live(s, j); }
    forall j, x | Live(r, j) && x in Refs(r, j) ensures Live(r, x) {
      if j == id {
        assert Some(x) in s.heap[th].body.stack;
        assert x in Refs(s, th) && Live(s, x);
      } else {
        assert ObjOk(s, j);
        assert Refs(r, j) == Refs(s, j);
        assert Live(s, j) && Live(s, x);
      }
    }
  }

  lemma NewUpvalClean(s: State, th: Id, level: nat, id: Id, r: State)
    requires ObjsOk(s) && UpvalAdded(s, th, level, id, r) && StringsOk(s) && RootListOk(s, {})
    ensures CleanRoots(s) ==> CleanRoots(r)
    ensures forall n: nat :: CleanStrings(s, n) ==> CleanStrings(r, n)
    ensures StringsOk(r)
  {
    if CleanRoots(s) {
      forall k | 0 <= k < r.sweepgc && k < |r.rootgc|
        ensures Clean(r, r.rootgc[k]) && forall u :: u in OpenList(r, r.rootgc[k]) ==> Clean(r, u)
      {
        assert s.rootgc[k] in s.rootgc && Clean(s, s.rootgc[k]);
        forall u | u in OpenList(r, r.rootgc[k]) ensures Clean(r, u) {
          if u != id { assert u in OpenList(s, s.rootgc[k]) && Clean(s, u); }
        }
      }
    }
    StringsKept(s, r);
    forall n: nat | CleanStrings(s, n) ensures CleanStrings(r, n) {
      forall c, i | 0 <= c < n && c < |r.strt| && i in r.strt[c] ensures Clean(r, i) { assert Clean(s, i); }
    }
  }

  lemma NewUpvalTricolour(s: State, th: Id, level: nat, id: Id, r: State)
    requires ObjsOk(s) && LiveClosed(s) && UpvalAdded(s, th, level, id, r)
    requires (forall i :: i in s.heap ==> !IsDead(s, s.heap[i])) && Tricolour(s)
    requires Live(s, s.main) && Live(s, s.registry)
    ensures (forall i :: i in r.heap ==> !IsDead(r, r.heap[i])) && Tricolour(r)
  {
    forall j | j in r.heap ensures ColourOk(r, j, {}) { assert j != id ==> ColourOk(s, j, {}); }
    forall j | j in r.heap && !IsWhite(r.heap[j])
      ensures j in Exempt(r) || j in r.gray || Scanned(r, j)
    {
      assert j in s.heap && (j in Exempt(s) || j in s.gray || Scanned(s, j));
      assert ObjOk(s, j);
      assert Refs(r, j) == Refs(s, j);
      if Scanned(s, j) {
        forall x | x in Refs(r, j) ensures NonWhite(r, x) {
          assert Live(s, j) && Live(s, x);
          assert NonWhite(s, x);
        }
      }
    }
  }

  lemma FindUpvalAdds(s: State, th: Id, level: nat, id: Id)
    requires th in s.heap && s.heap[th].body.Thread? && id !in s.heap && level < |s.heap[th].body.stack|
    requires var k := Above(s.heap, OpenList(s, th), level);
      k < |OpenList(s, th)| ==> Level(s.heap, OpenList(s, th)[k]) != level
    ensures FindUpval(s, th, level, id).1 == id
    ensures UpvalAdded(s, th, level, id, FindUpval(s, th, level, id).0)
  {
    var q := OpenList(s, th);
    var k := Above(s.heap, q, level);
    assert q == q[..k] + q[k..];
  }

  /** luaF_findupval on the running thread. */
  lemma FindUpvalInv(s: State, level: nat, id: Id)
    requires Inv(s) && id !in s.heap && level < |s.heap[s.running].body.stack|
    ensures var (r, u) := FindUpval(s, s.running, level, id);
      && Inv(r) && Live(r, u) && r.heap[u].body == OpenUp(s.running, level)
      && (forall j :: j in s.heap && s.heap[j].body.Node? ==> j in r.heap && r.heap[j] == s.heap[j])
      && r.white == s.white
  {
    hide NoDup, StringsOk, LiveClosed, CleanRoots, CleanStrings, Tricolour, RootListOk, NeverBlack, UpvalsOk, ObjsOk,
         FindUpval, Revive;
    var th := s.running;
    var q := OpenList(s, th);
    var k := Above(s.heap, q, level);
    var r := FindUpval(s, th, level, id).0;
    assert Live(s, th) && Live(s, s.main) && Live(s, s.registry) by { RootsLive(s); }
    if k < |q| && Level(s.heap, q[k]) == level {
      FindUpvalFound(s, th, level, id);
      FoundUpval(s, q[k], level);
      ReviveInv(s, q[k]);
      RevivedSame(s, q[k]);
    } else {
      FindUpvalAdds(s, th, level, id);
      NewUpvalObjs(s, th, level, id, r);
      NewUpvalLive(s, th, level, id, r);
      NewUpvalClean(s, th, level, id, r);
      NewUpvalLists(s, th, level, id, r);
      if s.phase == Propagate { NewUpvalTricolour(s, th, level, id, r); }
    }
  }

  lemma FindUpvalFound(s: State, th: Id, level: nat, id: Id)
    requires var k := Above(s.heap, OpenList(s, th), level);
      k < |OpenList(s, th)| && Level(s.heap, OpenList(s, th)[k]) == level
    ensures FindUpval(s, th, level, id) ==
      var u := OpenList(s, th)[Above(s.heap, OpenList(s, th), level)]; (Revive(s, u), u)
  {
  }

  lemma RevivedSame(s: State, u: Id)
    requires u in s.heap && s.heap[u].body.OpenUp?
    ensures forall j :: j in s.heap && s.heap[j].body.Node? ==>
        j in Revive(s, u).heap && Revive(s, u).heap[j] == s.heap[j]
    ensures Revive(s, u).white == s.white && u in Revive(s, u).heap && Revive(s, u).heap[u].body == s.heap[u].body
  {
  }

  lemma FoundUpval(s: State, u: Id, level: nat)
    requires Inv(s) && u in OpenList(s, s.running) && Level(s.heap, u) == level
    ensures u in s.heap && s.heap[u].body == OpenUp(s.running, level)
    ensures forall x :: x in Refs(s, u) ==> Live(s, x)
  {
    var th := s.running;
    assert ObjOk(s, th) && OpenListOk(s, th, OpenList(s, th));
    assert th in Roots(s) && Live(s, th);
    forall x | x in Refs(s, u) ensures Live(s, x) {
      assert Some(x) in s.heap[th].body.stack;
      assert x in Refs(s, th);
    }
  }

  lemma NewUpvalLists(s: State, th: Id, level: nat, id: Id, r: State)
    requires UpvalsOk(s) && RootListOk(s, {}) && NeverBlack(s) && ThreadsOk(s) && UpvalAdded(s, th, level, id, r)
    ensures UpvalsOk(r) && RootListOk(r, {}) && NeverBlack(r) && ThreadsOk(r)
  {
  }

  // ---- closing in the mark phase --------------------------------------------

  /** The topmost upvalue, closed and linked, before luaC_linkupval looks at its colour. */
  ghost function ClosedTop(s: State, th: Id): State
    requires OpenList(s, th) != [] && OpenList(s, th)[0] in s.heap && OpenList(s, th)[0] != th
  {
    var b := s.heap[th].body;
    var u := b.open[0];
    var s1 := SetBody(s, th, b.(open := b.open[1..])).(uvhead := Without(s.uvhead, u));
    LinkAt(SetBody(s1, u, ClosedUp(Slot(s.heap, th, Level(s.heap, u)))), 0, u)
  }

  lemma ClosedTopRefs(s: State, th: Id)
    requires ObjsOk(s) && OpenList(s, th) != []
    ensures var u := OpenList(s, th)[0];
      && u in s.heap && u != th && s.heap[u].body.OpenUp?
      && TopGone(s, th, u, ClosedTop(s, th))
      && ClosedTop(s, th).rootgc == [u] + s.rootgc
      && Roots(ClosedTop(s, th)) == Roots(s) && ClosedTop(s, th).white == s.white
      && ClosedTop(s, th).heap.Keys == s.heap.Keys && ClosedTop(s, th).heap[u].body.ClosedUp?
      && (forall j :: j in s.heap ==> ClosedTop(s, th).heap[j].colour == s.heap[j].colour)
      && ClosedTop(s, th).phase == s.phase
      && forall j :: Refs(ClosedTop(s, th), j) == Refs(s, j)
  {
    TopUpval(s, th);
    var u, r := OpenList(s, th)[0], ClosedTop(s, th);
    assert s.rootgc[..0] + [u] + s.rootgc[0..] == [u] + s.rootgc;
  }

  /** In the mark phase an upvalue that is closed while gray turns black, and its value is marked. */
  lemma CloseTopMarking(s: State, th: Id)
    requires Inv(s) && s.phase == Propagate && OpenList(s, th) != []
    ensures Inv(CloseTop(s, th)) && CloseTop(s, th).phase == Propagate
    ensures CloseTop(s, th).heap.Keys == s.heap.Keys
  {
    hide NoDup, StringsOk, LiveClosed, RootListOk, NeverBlack, CloseTop, Covered, Shape, ClosedTop, ObjsOk, UpvalsOk,
         ThreadsOk, Struct, MarkId;
    assert ObjsOk(s) && Struct(s) && UpvalsListed(s) by { StructParts(s); }
    var u := OpenList(s, th)[0];
    ClosedTopRefs(s, th);
    var w := ClosedTop(s, th);
    assert Struct(w) by { ClosedTopStruct(s, th); }
    assert LiveClosed(w) by { ClosedTopLive(s, th, w); }
    assert s.heap[u].colour != Black by { OpenNotBlack(s, u); }
    CloseTopIs(s, th);
    var x := Exempt(w);
    var b := if s.heap[u].colour == Gray then Paint(w, u, Black) else w;
    ClosedTopCovered(s, th, w, b);
    ClosedTopShape(s, th, u, w, b);
    var r := CloseTop(s, th);
    var v := w.heap[u].body.value;
    if r != b {
      MarkIdCovered(b, v.value, x + {u});
      MarkIdShape(b, v.value, {});
    }
    ClosedTopMarked(s, th, w, b, r);
    MarkedKeeps(w, r);
    CoveredWithout(r, x, u);
    ShapeNeverBlack(r);
  }

  lemma OpenNotBlack(s: State, u: Id)
    requires NeverBlack(s) && u in s.heap && s.heap[u].body.OpenUp?
    ensures s.heap[u].colour != Black
  {
  }

  lemma ClosedTopStruct(s: State, th: Id)
    requires Struct(s) && OpenList(s, th) != []
    requires OpenList(s, th)[0] in s.heap && OpenList(s, th)[0] != th
    ensures Struct(ClosedTop(s, th))
  {
    hide NoDup, StringsOk, ObjsOk, UpvalsOk, ThreadsOk, RootListOk;
    assert ObjsOk(s) by { StructParts(s); }
    ClosedTopRefs(s, th);
    LinkTopStruct(s, th, OpenList(s, th)[0], {}, ClosedTop(s, th));
  }

  lemma ClosedTopMarked(s: State, th: Id, w: State, b: State, r: State)
    requires ObjsOk(s) && OpenList(s, th) != [] && s.phase == Propagate
    requires var u := OpenList(s, th)[0];
      && u in s.heap && u != th && w == ClosedTop(s, th)
      && b == (if s.heap[u].colour == Gray then Paint(w, u, Black) else w)
      && r == if s.heap[u].colour == Gray then Barrier(b, u, w.heap[u].body.value) else w
    requires NonWhite(s, s.main) && NonWhite(s, s.registry) && (s.heap[OpenList(s, th)[0]].colour != Black)
    ensures var u := OpenList(s, th)[0];
      && Marked(w, r) && Exempt(r) == Exempt(w) && r.phase == Propagate
      && (r != b ==> w.heap[u].body.value.Some? && r == MarkId(b, w.heap[u].body.value.value))
      && NonWhite(r, r.main) && NonWhite(r, r.registry)
      && (u in r.heap ==> IsWhite(r.heap[u]) || Scanned(r, u))
      && r.heap.Keys == s.heap.Keys
  {
    hide Barrier, TopGone, Marked, Exempt, Scanned, MarkId, UpvalOk, OpenListOk;
    ClosedTopRefs(s, th);
    BarrierDone(w, b, r, OpenList(s, th)[0]);
  }

  lemma BarrierDone(w: State, b: State, r: State, u: Id)
    requires u in w.heap && w.heap[u].body.ClosedUp? && w.heap[u].colour != Black && w.phase == Propagate
    requires b == if w.heap[u].colour == Gray then Paint(w, u, Black) else w
    requires r == if w.heap[u].colour == Gray then Barrier(b, u, w.heap[u].body.value) else w
    requires NonWhite(w, w.main) && NonWhite(w, w.registry)
    ensures Marked(w, r) && Exempt(r) == Exempt(w) && r.phase == Propagate
    ensures r != b ==> w.heap[u].body.value.Some? && r == MarkId(b, w.heap[u].body.value.value)
    ensures NonWhite(r, r.main) && NonWhite(r, r.registry) && (IsWhite(r.heap[u]) || Scanned(r, u))
  {
    hide Barrier, MarkId;
    var v := w.heap[u].body.value;
    assert Marked(w, b) && Exempt(b) == Exempt(w);
    if w.heap[u].colour == Gray {
      BarrierMarks(b, u, v);
      MarkedTrans(w, b, r);
      MarkedRefs(b, r);
      assert Refs(b, u) == Values([v]);
    }
  }

  /** luaC_barrier in the mark phase */
  lemma BarrierMarks(s: State, o: Id, v: Ref)
    requires s.phase == Propagate && o in s.heap && s.heap[o].colour == Black
    ensures var r := Barrier(s, o, v);
      && Marked(s, r) && Exempt(r) == Exempt(s) && (r != s ==> v.Some? && r == MarkId(s, v.value))
      && (v.Some? ==> NonWhite(r, v.value))
  {
  }

  lemma CloseTopIs(s: State, th: Id)
    requires ObjsOk(s) && NeverBlack(s) && s.phase == Propagate && OpenList(s, th) != []
    requires forall i :: i in s.heap ==> !IsDead(s, s.heap[i])
    ensures var u := OpenList(s, th)[0];
      && u in s.heap && u != th
      && var w := ClosedTop(s, th);
      CloseTop(s, th) ==
        if s.heap[u].colour == Gray then Barrier(Paint(w, u, Black), u, w.heap[u].body.value) else w
  {
    TopUpval(s, th);
  }

  lemma ClosedTopLive(s: State, th: Id, w: State)
    requires LiveClosed(s) && Roots(w) == Roots(s) && w.white == s.white
    requires forall j :: Refs(w, j) == Refs(s, j)
    requires w.heap.Keys == s.heap.Keys && forall j :: j in s.heap ==> w.heap[j].colour == s.heap[j].colour
    ensures LiveClosed(w)
  {
    forall j | Live(s, j) ensures Live(w, j) {}
    LiveKept(s, w);
  }

  lemma ClosedTopCovered(s: State, th: Id, w: State, b: State)
    requires ObjsOk(s) && Tricolour(s) && OpenList(s, th) != []
    requires OpenList(s, th)[0] in s.heap && OpenList(s, th)[0] != th
    requires w == ClosedTop(s, th) && forall j :: Refs(w, j) == Refs(s, j)
    requires var u := OpenList(s, th)[0];
      b == if s.heap[u].colour == Gray then Paint(w, u, Black) else w
    ensures Covered(b, Exempt(w) + {OpenList(s, th)[0]})
  {
    hide ObjsOk, Shape, NoDup;
    var u := OpenList(s, th)[0];
    forall j | j in b.heap && !IsWhite(b.heap[j])
      ensures j in Exempt(w) + {u} || j in b.gray || Scanned(b, j)
    {
      assert Refs(b, j) == Refs(w, j);
      assert j in Exempt(s) || j in s.gray || Scanned(s, j);
    }
  }

  lemma ClosedTopShape(s: State, th: Id, u: Id, w: State, b: State)
    requires Shape(s, {}) && OpenList(s, th) != [] && OpenList(s, th)[0] == u && u in s.heap && u != th
    requires s.heap[u].body.OpenUp?
    requires w == ClosedTop(s, th)
    requires b == if s.heap[u].colour == Gray then Paint(w, u, Black) else w
    ensures Shape(b, {})
  {
    forall j | j in b.heap ensures ColourOk(b, j, {}) { assert ColourOk(s, j, {}); }
  }

  /** luaF_close in any phase: only dead upvalues are erased. */
  lemma {:induction false} CloseMarking(s: State, th: Id, level: nat)
    requires Inv(s) && s.phase == Propagate
    ensures Inv(Close(s, th, level)) && Close(s, th, level).heap.Keys == s.heap.Keys
    decreases |OpenList(s, th)|
  {
    hide Inv, CloseTop;
    if OpenList(s, th) != [] && Level(s.heap, OpenList(s, th)[0]) >= level {
      CloseTopMarking(s, th);
      CloseMarking(CloseTop(s, th), th, level);
    }
  }

  lemma CloseInv(s: State, th: Id, level: nat)
    requires Inv(s) && th in s.heap && s.heap[th].body.Thread?
    ensures Inv(Close(s, th, level))
    ensures forall i :: i in s.heap && i !in Close(s, th, level).heap ==> IsDead(s, s.heap[i])
  {
    hide Close, StructBut, LiveClosed, NeverBlack, CleanRoots, CleanStrings, Tricolour;
    if s.phase == Propagate {
      hide Inv;
      CloseMarking(s, th, level);
    } else {
      var r := Close(s, th, level);
      CloseStruct(s, th, level, {});
      CloseErases(s, th, level, {});
      if s.phase == SweepString { CleanStringsKept(s, r, s.sweepstrgc); }
      if s.phase == Sweep { CleanStringsKept(s, r, |s.strt|); }
      LiveStays(s, r);
    }
  }

  // ---- every action ---------------------------------------------------------

  lemma NewInv(s: State, id: Id, b: Body)
    requires Inv(s) && Enabled(s, New(id, b))
    ensures Inv(Apply(s, New(id, b))) && s.heap.Keys <= Apply(s, New(id, b)).heap.Keys
  {
    assert Fresh(s, b) by {
      forall x | x in BodyRefs(s.heap, b) ensures Live(s, x) { ReachableLive(s, x); }
    }
    hide StructBut, LiveClosed, NeverBlack, PhaseOk;
    LinkInv(s, id, b);
    var r := Link(s, id, b);
    assert s.running in s.heap && s.heap[s.running].body.Thread? by { assert StructBut(s, {}); StructParts(s); }
    PushInv(r, s.running, Some(id));
  }

  lemma FindStringInv(s: State, i: Id)
    requires Inv(s) && Enabled(s, FindString(i))
    ensures Inv(Apply(s, FindString(i))) && s.heap.Keys <= Apply(s, FindString(i)).heap.Keys
  {
    hide StructBut, LiveClosed, NeverBlack, PhaseOk;
    assert s.running in s.heap && s.heap[s.running].body.Thread? by { StructParts(s); }
    assert Refs(s, i) == [];
    ReviveInv(s, i);
    PushInv(Revive(s, i), s.running, Some(i));
  }

  lemma SetTableInv(s: State, t: Id, refs: seq<Id>, k: Ref, v: Ref)
    requires Inv(s) && Enabled(s, SetTable(t, refs, k, v))
    ensures Inv(Apply(s, SetTable(t, refs, k, v)))
  {
    hide StructBut, NeverBlack, PhaseOk, LiveClosed;
    ReachableAlive(s, k);
    ReachableAlive(s, v);
    TableStoreInv(s, t, s.heap[t].body.(refs := refs), k, v);
  }

  lemma SetFieldInv(s: State, o: Id, refs: seq<Id>, v: Ref)
    requires Inv(s) && Enabled(s, SetField(o, refs, v))
    ensures Inv(Apply(s, SetField(o, refs, v)))
  {
    hide StructBut, NeverBlack, LiveClosed;
    ReachableAlive(s, v);
    if s.phase == Propagate { assert ColourOk(s, o, {}); }
    StoreBarrierInv(s, o, s.heap[o].body.(refs := refs), v);
  }

  /** OP_SETUPVAL writes through to the stack while the upvalue is open. */
  lemma SetUpvalInv(s: State, u: Id, v: Ref)
    requires Inv(s) && Enabled(s, SetUpval(u, v))
    ensures Inv(Apply(s, SetUpval(u, v)))
  {
    hide StructBut, LiveClosed, Live;
    ReachableAlive(s, v);
    if s.heap[u].body.OpenUp? {
      hide PhaseOk;
      var m := SetStack(s, s.heap[u].body.thread, s.heap[u].body.level, v);
      SetStackInv(s, s.heap[u].body.thread, s.heap[u].body.level, v);
      assert u in m.heap && m.heap[u].body.OpenUp?;
      OpenNotBlack(m, u);
    } else {
      hide NeverBlack;
      if s.phase == Propagate { assert ColourOk(s, u, {}); }
      hide PhaseOk;
      StoreBarrierInv(s, u, ClosedUp(v), v);
    }
  }

  lemma CaptureInv(s: State, c: Id, level: nat, id: Id)
    requires Inv(s) && Enabled(s, Capture(c, level, id))
    ensures Inv(Apply(s, Capture(c, level, id)))
    ensures forall i :: i in s.heap ==> i in Apply(s, Capture(c, level, id)).heap
  {
    hide Inv;
    FindUpvalInv(s, level, id);
    var (r, u) := FindUpval(s, s.running, level, id);
    StoreInv(r, c, r.heap[c].body.(refs := r.heap[c].body.refs + [u]));
  }

  lemma SetGlobalsInv(s: State, th: Id, t: Id)
    requires Inv(s) && Enabled(s, SetGlobals(th, t))
    ensures Inv(Apply(s, SetGlobals(th, t)))
  {
    assert Live(s, t) by { ReachableLive(s, t); }
    hide Inv;
    ThreadStoreInv(s, th, s.heap[th].body.(globals := t));
  }

  lemma PopInv(s: State, th: Id, n: nat)
    requires Inv(s) && Enabled(s, PopValues(th, n))
    ensures Inv(Apply(s, PopValues(th, n)))
  {
    hide Inv;
    ThreadStoreInv(s, th, s.heap[th].body.(stack := s.heap[th].body.stack[..n]));
  }

  /** Steps that change the roots or only rearrange the string table. */
  lemma RootsInv(s: State, a: Action)
    requires Inv(s) && Enabled(s, a) && (a.Resume? || a.SetMetatable?)
    ensures Inv(Apply(s, a))
  {
    hide NoDup, StringsOk, ObjsOk, CleanRoots, CleanStrings, Tricolour, Reachable;
    var r := Apply(s, a);
    if a.Resume? { ReachableLive(s, a.thread); } else { ReachableAlive(s, a.v); }
    assert LiveClosed(r) by { RootsLiveClosed(s, r); }
    assert StringsOk(r) by { StringsKept(s, r); }
    SameHeapObjs(s, r);
    SamePhase(s, r);
  }

  lemma SameHeapObjs(s: State, r: State)
    requires ObjsOk(s) && r.heap == s.heap && r.main == s.main
    ensures ObjsOk(r)
  {
    forall j | j in r.heap ensures ObjOk(r, j) {
      assert ObjOk(s, j);
      if r.heap[j].body.Thread? { assert OpenListOk(s, j, s.heap[j].body.open); }
    }
  }

  lemma RootsLiveClosed(s: State, r: State)
    requires LiveClosed(s) && r.heap == s.heap && r.white == s.white && r.main == s.main && r.registry == s.registry
    requires Live(s, r.running) && forall v :: v in r.mt ==> v in s.mt || (v.Some? ==> Live(s, v.value))
    ensures LiveClosed(r)
  {
    forall j | j in Roots(r) ensures Live(r, j) {
      if j in Roots(s) {
        assert Live(s, j);
      } else if j != r.running {
        assert Some(j) in r.mt;
      }
    }
    forall j, x | Live(r, j) && x in Refs(r, j) ensures Live(r, x) {
      assert Refs(r, j) == Refs(s, j) && Live(s, j) && Live(s, x);
    }
  }

  lemma SamePhase(s: State, r: State)
    requires r.heap == s.heap && r.white == s.white && r.main == s.main && r.registry == s.registry
    requires r == s.(running := r.running, mt := r.mt)
    ensures CleanRoots(s) ==> CleanRoots(r)
    ensures forall n: nat :: CleanStrings(s, n) ==> CleanStrings(r, n)
    ensures Tricolour(s) ==> Tricolour(r)
  {
    assert forall j :: Clean(s, j) ==> Clean(r, j);
    CleanKept(s, r);
    if Tricolour(s) {
      assert forall j :: Refs(r, j) == Refs(s, j);
      assert forall j :: Scanned(s, j) ==> Scanned(r, j);
      forall j | j in r.heap ensures ColourOk(r, j, {}) { assert ColourOk(s, j, {}); }
      assert Covered(r, Exempt(r)) by {
        forall j | j in r.heap && !IsWhite(r.heap[j]) ensures j in Exempt(r) || j in r.gray || Scanned(r, j) {
          assert j in Exempt(s) || j in s.gray || Scanned(s, j);
        }
      }
    }
  }

  /** luaS_resize rearranges the buckets. */
  lemma ResizeInv(s: State, t: seq<seq<Id>>)
    requires Inv(s) && Enabled(s, ResizeStrings(t))
    ensures Inv(Apply(s, ResizeStrings(t)))
  {
    hide NoDup, StringsOk, CleanRoots, Tricolour;
    var r := s.(strt := t);
    assert forall j :: Refs(r, j) == Refs(s, j);
    LiveKept(s, r);
    forall j | j in r.heap ensures ObjOk(r, j) {
      assert ObjOk(s, j);
      if r.heap[j].body.Thread? { assert OpenListOk(s, j, s.heap[j].body.open); }
    }
    if s.phase == Sweep { ResizeClean(s, t); }
    if s.phase == Propagate { ResizeTricolour(s, t); }
  }

  lemma ResizeClean(s: State, t: seq<seq<Id>>)
    requires StringsOk(s) && StringsOk(s.(strt := t)) && CleanStrings(s, |s.strt|)
    ensures CleanStrings(s.(strt := t), |t|)
    ensures CleanRoots(s) ==> CleanRoots(s.(strt := t))
  {
    var r := s.(strt := t);
    forall b, i | 0 <= b < |t| && i in t[b] ensures Clean(r, i) {
      assert i in r.strt[b];
      assert i in s.heap && s.heap[i].body.Str?;
      var c :| 0 <= c < |s.strt| && i in s.strt[c];
      assert Clean(s, i);
    }
    CleanKept(s.(strt := t), r);
    if CleanRoots(s) {
      forall k | 0 <= k < r.sweepgc && k < |r.rootgc|
        ensures Clean(r, r.rootgc[k]) && forall u :: u in OpenList(r, r.rootgc[k]) ==> Clean(r, u)
      {
        assert Clean(s, s.rootgc[k]);
        forall u | u in OpenList(r, r.rootgc[k]) ensures Clean(r, u) {
          assert u in OpenList(s, s.rootgc[k]) && Clean(s, u);
        }
      }
    }
  }

  lemma ResizeTricolour(s: State, t: seq<seq<Id>>)
    requires Tricolour(s)
    ensures Tricolour(s.(strt := t))
  {
    var r := s.(strt := t);
    assert forall j :: Refs(r, j) == Refs(s, j);
    forall j | j in r.heap ensures ColourOk(r, j, {}) { assert ColourOk(s, j, {}); }
    assert forall j :: Scanned(s, j) ==> Scanned(r, j);
    forall j | j in r.heap && !IsWhite(r.heap[j]) ensures j in Exempt(r) || j in r.gray || Scanned(r, j) {
      assert j in Exempt(s) || j in s.gray || Scanned(s, j);
    }
  }

  lemma StackInv(s: State, a: Action)
    requires Inv(s) && Enabled(s, a) && (a.PushValue? || a.SetSlot?)
    ensures Inv(Apply(s, a)) && Apply(s, a).heap.Keys == s.heap.Keys
  {
    ReachableAlive(s, a.v);
    hide Inv, Live;
    if a.PushValue? { PushInv(s, a.thread, a.v); } else { SetStackInv(s, a.thread, a.level, a.v); }
  }

  lemma InternInv(s: State, id: Id, b: nat)
    requires Inv(s) && Enabled(s, NewString(id, b))
    ensures Inv(Apply(s, NewString(id, b))) && s.heap.Keys <= Apply(s, NewString(id, b)).heap.Keys
  {
    StructParts(s);
    hide Inv;
    NewStringInv(s, id, b);
    PushInv(s.(heap := s.heap[id := Obj(White(s.white), false, Str)], strt := s.strt[b := [id] + s.strt[b]]),
        s.running, Some(id));
  }

  lemma CloseUpvalsInv(s: State, level: nat)
    requires Inv(s)
    ensures Inv(Apply(s, CloseUpvals(level)))
    ensures forall i :: i in s.heap && i !in Apply(s, CloseUpvals(level)).heap ==> IsDead(s, s.heap[i])
  {
    StructParts(s);
    hide Inv, Close;
    CloseInv(s, s.running, level);
  }

  /** Stores do not change which objects are in memory. */
  lemma SameKeys(s: State, a: Action)
    requires Enabled(s, a)
    requires a.PopValues? || a.SetGlobals? || a.SetTable? || a.SetField? || a.SetUpval? || a.Resume? ||
      a.SetMetatable? || a.ResizeStrings?
    ensures Apply(s, a).heap.Keys == s.heap.Keys
  {
    hide Reachable, MarkId;
    if a.SetTable? || a.SetField? || a.SetUpval? { StoreKeys(s, a); }
  }

  lemma StoreKeys(s: State, a: Action)
    requires a.SetTable? || a.SetField? || a.SetUpval?
    ensures Apply(s, a).heap.Keys == s.heap.Keys
  {
    if a.SetTable? && a.t in s.heap && s.heap[a.t].body.Node? {
      BarrierTKeys(SetBody(s, a.t, s.heap[a.t].body.(refs := a.refs)), a.t, a.k);
    }
  }

  lemma BarrierTKeys(s: State, t: Id, v: Ref)
    ensures BarrierT(s, t, v).heap.Keys == s.heap.Keys
  {
  }

  /** Each action keeps the invariant, and whatever it erases was dead. */
  lemma ApplyInv(s: State, a: Action)
    requires Inv(s) && Enabled(s, a)
    ensures Inv(Apply(s, a))
    ensures forall i :: i in s.heap && i !in Apply(s, a).heap ==> IsDead(s, s.heap[i])
  {
    hide Inv, Apply, Enabled;
    if !(a.Collect? || a.New? || a.NewString? || a.FindString? || a.PushValue? || a.SetSlot? || a.Capture? ||
         a.CloseUpvals?) {
      SameKeys(s, a);
    }
    match a
    case Collect => CollectInv(s);
    case New(id, b) => NewInv(s, id, b);
    case NewString(id, b) => InternInv(s, id, b);
    case FindString(i) => FindStringInv(s, i);
    case PushValue(_, _) => StackInv(s, a);
    case PopValues(th, n) => PopInv(s, th, n);
    case SetSlot(_, _, _) => StackInv(s, a);
    case SetGlobals(th, t) => SetGlobalsInv(s, th, t);
    case SetTable(t, refs, k, v) => SetTableInv(s, t, refs, k, v);
    case SetField(o, refs, v) => SetFieldInv(s, o, refs, v);
    case SetUpval(u, v) => SetUpvalInv(s, u, v);
    case Capture(c, level, id) => CaptureInv(s, c, level, id);
    case CloseUpvals(level) => CloseUpvalsInv(s, level);
    case Resume(_) => RootsInv(s, a);
    case SetMetatable(_, _) => RootsInv(s, a);
    case ResizeStrings(t) => ResizeInv(s, t);
  }

  lemma CollectInv(s: State)
    requires Inv(s)
    ensures Inv(Apply(s, Collect))
    ensures forall i :: i in s.heap && i !in Apply(s, Collect).heap ==> IsDead(s, s.heap[i])
  {
    hide Inv, SingleStep;
    SingleStepInv(s);
  }

  // ---- runs -----------------------------------------------------------------

  /** The state after the first `k` actions of a run. */
  function StateAt(s: State, run: seq<Action>, k: nat): State
    requires k <= |run|
  {
    if k == 0 then s else Apply(StateAt(s, run, k - 1), run[k - 1])
  }

  ghost predicate IsRun(s: State, run: seq<Action>) {
    forall k :: 0 <= k < |run| ==> Enabled(StateAt(s, run, k), run[k])
  }

  lemma {:induction false} RunInv(s: State, run: seq<Action>, k: nat)
    requires Inv(s) && IsRun(s, run) && k <= |run|
    ensures Inv(StateAt(s, run, k))
  {
    hide Inv, Apply, Enabled;
    if k > 0 {
      RunInv(s, run, k - 1);
      ApplyInv(StateAt(s, run, k - 1), run[k - 1]);
    }
  }

  /** GC safety: no step of any run erases an object that the program could reach before it. */
  lemma NothingReachableIsErased(s: State, run: seq<Action>, k: nat, i: Id)
    requires Inv(s) && IsRun(s, run) && k < |run|
    requires Reachable(StateAt(s, run, k), i)
    ensures i in StateAt(s, run, k).heap && i in StateAt(s, run, k + 1).heap
  {
    RunInv(s, run, k);
    var m := StateAt(s, run, k);
    ReachableLive(m, i);
    hide Inv, Apply, Enabled;
    ApplyInv(m, run[k]);
  }

  /** In every state of a run, whatever the program can reach is in memory. */
  lemma NoDanglingReference(s: State, run: seq<Action>, k: nat, i: Id)
    requires Inv(s) && IsRun(s, run) && k <= |run|
    requires Reachable(StateAt(s, run, k), i)
    ensures i in StateAt(s, run, k).heap && !IsDead(StateAt(s, run, k), StateAt(s, run, k).heap[i])
  {
    RunInv(s, run, k);
    ReachableLive(StateAt(s, run, k), i);
  }

  /** A black object refers to no white one. */
  ghost predicate BlackSeesNoWhite(s: State) {
    forall i, j :: i in s.heap && s.heap[i].colour == Black && j in Refs(s, i) && j in s.heap ==> !IsWhite(s.heap[j])
  }

  /** Every gray object with children still to mark is in a gray list. */
  ghost predicate GrayInLists(s: State) {
    forall i :: i in s.heap && s.heap[i].colour == Gray && Listable(s.heap[i].body) ==> i in s.gray || i in s.grayagain
  }

  /** The tri-colour invariant, throughout the mark phase; threads and open upvalues are never black. */
  lemma TricolourInv(s: State)
    requires Inv(s)
    ensures s.phase == Propagate ==> BlackSeesNoWhite(s) && GrayInLists(s)
    ensures NeverBlack(s)
  {
    hide Struct, LiveClosed, NeverBlack, CleanRoots, CleanStrings;
    StructParts(s);
    if s.phase == Propagate { TricolourParts(s); }
  }

  lemma TricolourParts(s: State)
    requires Tricolour(s) && UpvalsListed(s)
    ensures BlackSeesNoWhite(s) && GrayInLists(s)
  {
    forall i, j | i in s.heap && s.heap[i].colour == Black && j in Refs(s, i) && j in s.heap
      ensures !IsWhite(s.heap[j]) {
      assert ColourOk(s, i, {});
      assert i !in s.gray && i !in s.grayagain && i !in s.uvhead;
      assert Scanned(s, i) && NonWhite(s, j);
    }
    forall i | i in s.heap ensures ColourOk(s, i, {}) {}
  }

  /** The tri-colour invariant over every run of a program with its collector */
  lemma TricolourOverRuns(run: seq<Action>)
    requires IsRun(START, run)
    ensures forall k :: 0 <= k <= |run| ==>
      var s := StateAt(START, run, k);
      NeverBlack(s) && (s.phase == Propagate ==> BlackSeesNoWhite(s) && GrayInLists(s))
  {
    hide Inv, NeverBlack, BlackSeesNoWhite, GrayInLists, Apply, Enabled;
    StartInv();
    forall k | 0 <= k <= |run|
      ensures var s := StateAt(START, run, k);
        NeverBlack(s) && (s.phase == Propagate ==> BlackSeesNoWhite(s) && GrayInLists(s))
    {
      RunInv(START, run, k);
      TricolourInv(StateAt(START, run, k));
    }
  }

  /**
   Safety over every run from the start: what the program can reach is in memory, is not dead, and
   is not erased next.
   */
  lemma SafeOverRuns(run: seq<Action>)
    requires IsRun(START, run)
    ensures forall k, i :: 0 <= k <= |run| && Reachable(StateAt(START, run, k), i) ==> Live(StateAt(START, run, k), i)
    ensures forall k, i :: 0 <= k < |run| && Reachable(StateAt(START, run, k), i) ==>
      i in Apply(StateAt(START, run, k), run[k]).heap
  {
    hide Inv, Apply, Enabled, Reachable;
    StartInv();
    forall k, i | 0 <= k <= |run| && Reachable(StateAt(START, run, k), i) ensures Live(StateAt(START, run, k), i) {
      NoDanglingReference(START, run, k, i);
    }
    forall k, i | 0 <= k < |run| && Reachable(StateAt(START, run, k), i)
      ensures i in Apply(StateAt(START, run, k), run[k]).heap {
      NothingReachableIsErased(START, run, k, i);
      assert StateAt(START, run, k + 1) == Apply(StateAt(START, run, k), run[k]);
    }
  }

  /** The state lua_newstate leaves: main thread, globals, registry and one reserved word. */
  const START: State := State(
    map[0 := Obj(White(false), true, Thread(1, [], [])),
        1 := Obj(White(false), false, Node(Table, [])),
        2 := Obj(White(false), false, Node(Table, [])),
        3 := Obj(White(false), true, Str)],
    [], [], Pause, false, [2, 1, 0], 0, [[3]], 0, [], 0, 0, 2, [None, None, None])

  lemma StartInv()
    ensures Inv(START)
  {
    StartLists();
    StartLive();
  }

  lemma StartLists()
    ensures Struct(START)
  {
    hide StringsOk, ObjsOk, RootListOk;
    StartStrings();
    StartObjs();
    StartRootList();
  }

  lemma StartObjs()
    ensures ObjsOk(START)
  {
    forall i | i in START.heap ensures ObjOk(START, i) { assert i == 0 || i == 1 || i == 2 || i == 3; }
  }

  lemma StartRootList()
    ensures RootListOk(START, {})
  {
    assert forall i :: i in START.rootgc <==> i == 0 || i == 1 || i == 2;
  }

  lemma StartStrings()
    ensures StringsOk(START)
  {
    assert 3 in START.strt[0];
  }

  lemma NoValues(q: seq<Ref>)
    requires forall k :: 0 <= k < |q| ==> q[k] == None
    ensures Values(q) == []
  {
  }

  lemma StartLive()
    ensures LiveClosed(START)
  {
    var s := START;
    NoValues(s.mt);
    assert Roots(s) == [0, 0, 2];
    assert Refs(s, 0) == [1] && Refs(s, 1) == [] && Refs(s, 2) == [] && Refs(s, 3) == [];
  }
}