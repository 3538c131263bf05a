/**
 The collector's view of memory: objects with their marks and references, the
 object lists, and the marking functions of lgc.c.

 Weak tables and userdata finalizers are not part of this model, so the weak
 list and the list of userdata to be finalized are always empty.
 */
module GcHeap {
  import opened Basics

  type Id = nat

  /** A slot that holds a Lua value: the collectable object in it, if any. */
  type Ref = Option<Id>

  datatype Kind = Table | Function | Proto | Userdata

  /** What an object holds, as far as the collector is concerned. */
  datatype Body =
    | Str
    | Node(kind: Kind, refs: seq<Id>)
    | OpenUp(thread: Id, level: nat)
    | ClosedUp(value: Ref)
    | Thread(globals: Id, stack: seq<Ref>, open: seq<Id>)

  /** Two whites alternate; gray is the absence of every colour bit. */
  datatype Colour = White(bit: bool) | Gray | Black

  datatype Obj = Obj(colour: Colour, fixed: bool, body: Body)

  datatype Phase = Pause | Propagate | SweepString | Sweep | Finalize

  datatype State = State(
    heap: map<Id, Obj>,
    gray: seq<Id>,
    grayagain: seq<Id>,
    phase: Phase,
    white: bool,           // the current white
    rootgc: seq<Id>,       // all objects but strings and open upvalues
    sweepgc: nat,          // number of elements of rootgc before the sweep position
    strt: seq<seq<Id>>,    // buckets of the string table
    sweepstrgc: nat,       // next bucket to sweep
    uvhead: seq<Id>,       // list of all open upvalues
    main: Id,
    running: Id,
    registry: Id,
    mt: seq<Ref>)          // metatables of the basic types

  predicate IsWhite(o: Obj) { o.colour.White? }

  predicate IsDead(s: State, o: Obj) { o.colour == White(!s.white) }

  /** Pushed on the gray list when marked, to be traversed later. */
  predicate Listable(b: Body) { b.Thread? || (b.Node? && b.kind != Userdata) }

  /** The objects in the used slots of a stack, in order. */
  function Values(q: seq<Ref>): (r: seq<Id>)
    ensures forall x :: x in r <==> Some(x) in q
  {
    if q == [] then []
    else if q[0].Some? then [q[0].value] + Values(q[1..])
    else Values(q[1..])
  }

  function Slot(h: map<Id, Obj>, th: Id, level: nat): Ref {
    if th in h && h[th].body.Thread? && level < |h[th].body.stack|
    then h[th].body.stack[level] else None
  }

  /** The objects that body `b` refers to. The open upvalues of a thread are not among them. */
  function BodyRefs(h: map<Id, Obj>, b: Body): seq<Id> {
    match b
    case Str => []
    case Node(_, refs) => refs
    case OpenUp(th, level) => Values([Slot(h, th, level)])
    case ClosedUp(v) => Values([v])
    case Thread(g, stack, _) => [g] + Values(stack)
  }

  function Refs(s: State, i: Id): seq<Id> {
    if i in s.heap then BodyRefs(s.heap, s.heap[i].body) else []
  }

  function Roots(s: State): seq<Id> {
    [s.main, s.running, s.registry] + Values(s.mt)
  }

  /** Object `i` holds `x`: in a field or a stack slot, as the table of globals, or as the value of an upvalue. */
  ghost predicate Holds(s: State, i: Id, x: Id) {
    i in s.heap &&
    match s.heap[i].body
    case Str => false
    case Node(_, refs) => exists k :: 0 <= k < |refs| && refs[k] == x
    case OpenUp(th, level) =>
      && th in s.heap && s.heap[th].body.Thread? && level < |s.heap[th].body.stack|
      && s.heap[th].body.stack[level] == Some(x)
    case ClosedUp(v) => v == Some(x)
    case Thread(g, stack, _) => x == g || exists k :: 0 <= k < |stack| && stack[k] == Some(x)
  }

  /** What the collector follows is what the objects hold, and nothing else. */
  lemma RefsExact(s: State, i: Id, x: Id)
    ensures x in Refs(s, i) <==> Holds(s, i, x)
    ensures x in Roots(s) <==> x == s.main || x == s.running || x == s.registry || Some(x) in s.mt
  {
  }

  /** A path of references that starts at a root. */
  ghost predicate Path(s: State, p: seq<Id>) {
    && |p| > 0
    && p[0] in Roots(s)
    && forall k :: 0 < k < |p| ==> p[k] in Refs(s, p[k - 1])
  }

  ghost predicate Reachable(s: State, i: Id) {
    exists p :: Path(s, p) && p[|p| - 1] == i
  }

  lemma RootReachable(s: State, i: Id)
    requires i in Roots(s)
    ensures Reachable(s, i)
  {
    assert Path(s, [i]) && [i][|[i]| - 1] == i;
  }

  lemma EdgeReachable(s: State, i: Id, j: Id)
    requires Reachable(s, i) && j in Refs(s, i)
    ensures Reachable(s, j)
  {
    var p :| Path(s, p) && p[|p| - 1] == i;
    var q := p + [j];
    assert Path(s, q) && q[|q| - 1] == j;
  }

  /** A set that holds the roots and is closed under references holds everything reachable. */
  lemma ReachableWithin(s: State, a: set<Id>, i: Id)
    requires forall r :: r in Roots(s) ==> r in a
    requires forall o, r :: o in a && r in Refs(s, o) ==> r in a
    requires Reachable(s, i)
    ensures i in a
  {
    var p :| Path(s, p) && p[|p| - 1] == i;
    PathWithin(s, a, p);
  }

  lemma {:induction false} PathWithin(s: State, a: set<Id>, p: seq<Id>)
    requires forall r :: r in Roots(s) ==> r in a
    requires forall o, r :: o in a && r in Refs(s, o) ==> r in a
    requires Path(s, p)
    ensures p[|p| - 1] in a
  {
    if |p| > 1 {
      PathWithin(s, a, p[..|p| - 1]);
    }
  }

  // ---- marking --------------------------------------------------------------

  function Paint(s: State, i: Id, c: Colour): (r: State)
    requires i in s.heap
  {
    s.(heap := s.heap[i := s.heap[i].(colour := c)])
  }

  function Whites(s: State): set<Id> {
    set i | i in s.heap && IsWhite(s.heap[i])
  }

  lemma PaintWhites(s: State, i: Id)
    requires i in s.heap && IsWhite(s.heap[i])
    ensures i in Whites(s) && i !in Whites(Paint(s, i, Gray)) && Whites(Paint(s, i, Gray)) < Whites(s)
  {
    assert i in Whites(s) && i !in Whites(Paint(s, i, Gray));
  }

  /** Marking touches nothing but the colours of white objects and the gray list. */
  ghost predicate MarkOnly(s: State, r: State) {
    && r == s.(heap := r.heap, gray := r.gray)
    && r.heap.Keys == s.heap.Keys
    && Whites(r) <= Whites(s)
    && (Whites(r) == Whites(s) ==> r == s)
    && forall i :: i in s.heap ==>
         && r.heap[i].body == s.heap[i].body
         && r.heap[i].fixed == s.heap[i].fixed
         && (IsWhite(r.heap[i]) || !IsWhite(s.heap[i]) ==> r.heap[i] == s.heap[i])
  }

  function MarkId(s: State, i: Id): (r: State)
    ensures MarkOnly(s, r)
    ensures i in s.heap ==> !IsWhite(r.heap[i])
    decreases Whites(s), 1
  {
    if i in s.heap && IsWhite(s.heap[i]) then ReallyMark(s, i) else s
  }

  /** reallymarkobject */
  function ReallyMark(s: State, i: Id): (r: State)
    requires i in s.heap && IsWhite(s.heap[i])
    ensures MarkOnly(s, r) && !IsWhite(r.heap[i])
    decreases Whites(s), 0
  {
    var g := Paint(s, i, Gray);
    PaintWhites(s, i);
    match s.heap[i].body
    case Str => g
    case Node(kind, refs) =>
      if kind == Userdata then MarkSeq(Paint(g, i, Black), refs)
      else g.(gray := [i] + g.gray)
    case OpenUp(th, level) => MarkSeq(g, Values([Slot(s.heap, th, level)]))
    case ClosedUp(v) => Paint(MarkSeq(g, Values([v])), i, Black)
    case Thread(_, _, _) => g.(gray := [i] + g.gray)
  }

  function MarkSeq(s: State, ids: seq<Id>): (r: State)
    ensures MarkOnly(s, r)
    ensures forall x :: x in ids && x in s.heap ==> !IsWhite(r.heap[x])
    decreases Whites(s), 2, |ids|
  {
    if ids == [] then s else MarkSeq(MarkId(s, ids[0]), ids[1..])
  }
}
