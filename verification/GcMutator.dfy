/** The running program: every way it changes what the collector sees. */
module GcMutator {
  import opened Basics
  import opened GcHeap
  import opened GcMark
  import opened GcSweep

  function IndexOf(q: seq<Id>, i: Id): (k: nat)
    ensures k <= |q| && (k < |q| ==> q[k] == i)
    ensures i in q ==> k < |q|
  {
    if q == [] || q[0] == i then 0 else 1 + IndexOf(q[1..], i)
  }

  /** luaC_link; a new userdata goes after the main thread (luaS_newudata). */
  function Link(s: State, id: Id, b: Body): State {
    var k := if b.Node? && b.kind == Userdata && s.main in s.rootgc then IndexOf(s.rootgc, s.main) + 1 else 0;
    LinkAt(s, k, id).(heap := s.heap[id := Obj(White(s.white), false, b)])
  }

  function Push(s: State, th: Id, v: Ref): State {
    if th in s.heap && s.heap[th].body.Thread?
    then SetBody(s, th, s.heap[th].body.(stack := s.heap[th].body.stack + [v])) else s
  }

  /** changewhite on a dead object that the program has found again */
  function Revive(s: State, i: Id): State {
    if i in s.heap && IsDead(s, s.heap[i]) then Paint(s, i, White(s.white)) else s
  }

  /** How many upvalues at the front of a list of open upvalues are above `level`. */
  function Above(h: map<Id, Obj>, q: seq<Id>, level: nat): (k: nat)
    ensures k <= |q|
    ensures forall a :: 0 <= a < k ==> Level(h, q[a]) > level
    ensures k < |q| ==> Level(h, q[k]) <= level
  {
    if q == [] || Level(h, q[0]) <= level then 0 else 1 + Above(h, q[1..], level)
  }

  /** luaF_findupval; `id` names the upvalue if a new one is made. */
  function FindUpval(s: State, th: Id, level: nat, id: Id): (State, Id) {
    var q := OpenList(s, th);
    var k := Above(s.heap, q, level);
    if k < |q| && Level(s.heap, q[k]) == level then (Revive(s, q[k]), q[k])
    else if th in s.heap && s.heap[th].body.Thread? then
      var h := s.heap[id := Obj(White(s.white), false, OpenUp(th, level))];
      var b := s.heap[th].body.(open := q[..k] + [id] + q[k..]);
      (s.(heap := h[th := s.heap[th].(body := b)], uvhead := [id] + s.uvhead), id)
    else (s, id)
  }

  /** A store into an object other than a table, with the forward barrier. */
  function Store(s: State, o: Id, b: Body, v: Ref): State
    requires o in s.heap
  {
    Barrier(SetBody(s, o, b), o, v)
  }

  /** A store into a table: barriers for the key and for the value. */
  function TableStore(s: State, t: Id, b: Body, k: Ref, v: Ref): State
    requires t in s.heap
  {
    BarrierT(BarrierT(SetBody(s, t, b), t, k), t, v)
  }

  datatype Action =
    | Collect                                             // one collector step
    | New(id: Id, body: Body)                             // create an object and push it
    | NewString(id: Id, bucket: nat)                      // intern a string that is not in the table
    | FindString(str: Id)                                 // intern a string that is
    | PushValue(thread: Id, v: Ref)
    | PopValues(thread: Id, size: nat)
    | SetSlot(thread: Id, level: nat, v: Ref)
    | SetGlobals(thread: Id, t: Id)
    | SetTable(t: Id, refs: seq<Id>, k: Ref, v: Ref)      // also lua_setmetatable
    | SetField(o: Id, refs: seq<Id>, v: Ref)              // functions, prototypes and userdata
    | SetUpval(u: Id, v: Ref)                             // OP_SETUPVAL
    | Capture(c: Id, level: nat, id: Id)                  // OP_CLOSURE captures a local variable
    | CloseUpvals(level: nat)                             // luaF_close on the running thread
    | Resume(thread: Id)
    | SetMetatable(basic: nat, v: Ref)                        // of a basic type
    | ResizeStrings(strt: seq<seq<Id>>)

  /** A value the program holds: it can only come from something reachable. */
  ghost predicate Usable(s: State, v: Ref) { v.Some? ==> Reachable(s, v.value) }

  ghost predicate AllUsable(s: State, ids: seq<Id>) { forall i :: i in ids ==> Reachable(s, i) }

  ghost predicate IsThread(s: State, th: Id) {
    th in s.heap && s.heap[th].body.Thread? && Reachable(s, th)
  }

  ghost predicate IsNode(s: State, o: Id) { o in s.heap && s.heap[o].body.Node? && Reachable(s, o) }

  /** When the program may perform an action. Nothing here mentions colours or phases,
      except that a closure under construction is still white and that the string table
      is not resized while it is swept. */
  ghost predicate Enabled(s: State, a: Action) {
    match a
    case Collect => true
    case New(id, b) =>
      && id !in s.heap
      && (match b
          case Node(_, refs) => AllUsable(s, refs)
          case Thread(g, stack, open) => stack == [] && open == [] && Reachable(s, g)
          case ClosedUp(v) => Usable(s, v)
          case _ => false)
    case NewString(id, b) => id !in s.heap && b < |s.strt|
    case FindString(i) => i in s.heap && s.heap[i].body.Str?
    case PushValue(th, v) => IsThread(s, th) && Usable(s, v)
    case PopValues(th, n) =>
      && IsThread(s, th) && n <= |s.heap[th].body.stack|
      && forall u :: u in OpenList(s, th) ==> Level(s.heap, u) < n
    case SetSlot(th, n, v) => IsThread(s, th) && n < |s.heap[th].body.stack| && Usable(s, v)
    case SetGlobals(th, t) => IsThread(s, th) && Reachable(s, t)
    case SetTable(t, refs, k, v) =>
      && IsNode(s, t) && s.heap[t].body.kind == Table && Usable(s, k) && Usable(s, v)
      && forall i :: i in refs ==> i in s.heap[t].body.refs || Some(i) == k || Some(i) == v
    case SetField(o, refs, v) =>
      && IsNode(s, o) && s.heap[o].body.kind != Table && Usable(s, v)
      && forall i :: i in refs ==> i in s.heap[o].body.refs || Some(i) == v
    case SetUpval(u, v) =>
      && u in s.heap && (s.heap[u].body.OpenUp? || s.heap[u].body.ClosedUp?)
      && Reachable(s, u) && Usable(s, v)
    case Capture(c, level, id) =>
      && IsNode(s, c) && s.heap[c].body.kind == Function && s.heap[c].colour == White(s.white)
      && id !in s.heap && s.running in s.heap && s.heap[s.running].body.Thread?
      && level < |s.heap[s.running].body.stack|
    case CloseUpvals(_) => true
    case Resume(th) => IsThread(s, th)
    case SetMetatable(k, v) => k < |s.mt| && Usable(s, v)
    case ResizeStrings(t) =>
      && s.phase != SweepString && |t| > 0
      && StringsOk(s.(strt := t))
  }

  /** The effect of an enabled action. */
  function Apply(s: State, a: Action): State {
    match a
    case Collect => SingleStep(s)
    case New(id, b) => Push(Link(s, id, b), s.running, Some(id))
    case NewString(id, b) =>
      if b < |s.strt| then
        Push(s.(heap := s.heap[id := Obj(White(s.white), false, Str)], strt := s.strt[b := [id] + s.strt[b]]),
             s.running, Some(id))
      else s
    case FindString(i) => Push(Revive(s, i), s.running, Some(i))
    case PushValue(th, v) => Push(s, th, v)
    case PopValues(th, n) =>
      if th in s.heap && s.heap[th].body.Thread? && n <= |s.heap[th].body.stack|
      then SetBody(s, th, s.heap[th].body.(stack := s.heap[th].body.stack[..n])) else s
    case SetSlot(th, n, v) => SetStack(s, th, n, v)
    case SetGlobals(th, t) =>
      if th in s.heap && s.heap[th].body.Thread?
      then SetBody(s, th, s.heap[th].body.(globals := t)) else s
    case SetTable(t, refs, k, v) =>
      if t in s.heap && s.heap[t].body.Node?
      then TableStore(s, t, s.heap[t].body.(refs := refs), k, v) else s
    case SetField(o, refs, v) =>
      if o in s.heap && s.heap[o].body.Node?
      then Store(s, o, s.heap[o].body.(refs := refs), v) else s
    case SetUpval(u, v) =>
      if u !in s.heap then s
      else if s.heap[u].body.OpenUp? then
        Barrier(SetStack(s, s.heap[u].body.thread, s.heap[u].body.level, v), u, v)
      else if s.heap[u].body.ClosedUp? then Store(s, u, ClosedUp(v), v)
      else s
    case Capture(c, level, id) =>
      var (r, u) := FindUpval(s, s.running, level, id);
      if c in r.heap && r.heap[c].body.Node?
      then SetBody(r, c, r.heap[c].body.(refs := r.heap[c].body.refs + [u])) else r
    case CloseUpvals(level) => Close(s, s.running, level)
    case Resume(th) => s.(running := th)
    case SetMetatable(k, v) => if k < |s.mt| then s.(mt := s.mt[k := v]) else s
    case ResizeStrings(t) => s.(strt := t)
  }

  function SetStack(s: State, th: Id, level: nat, v: Ref): State {
    if th in s.heap && s.heap[th].body.Thread? && level < |s.heap[th].body.stack|
    then SetBody(s, th, s.heap[th].body.(stack := s.heap[th].body.stack[level := v])) else s
  }
}
