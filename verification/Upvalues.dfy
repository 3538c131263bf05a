/** Upvalues (lfunc.c, lvm.c): what closures see of captured variables, over every run. */
module Upvalues {

  type Value = int

  /** An upvalue: its variable still lives in the stack, or it holds the value itself. */
  datatype UpVal = Open(level: nat) | Closed(value: Value)

  /** The stack of a thread, and all upvalues ever created for it */
  datatype State = State(stack: seq<Value>, uv: seq<UpVal>)

  predicate Valid(s: State) {
    && (forall i :: 0 <= i < |s.uv| && s.uv[i].Open? ==> s.uv[i].level < |s.stack|)
    && (forall i, j :: 0 <= i < j < |s.uv| && s.uv[i].Open? && s.uv[j].Open? ==> s.uv[i].level != s.uv[j].level)
  }

  /** *uv->v */
  function Read(s: State, i: nat): Value
    requires Valid(s) && i < |s.uv|
  {
    if s.uv[i].Open? then s.stack[s.uv[i].level] else s.uv[i].value
  }

  function Write(s: State, i: nat, v: Value): State
    requires Valid(s) && i < |s.uv|
  {
    if s.uv[i].Open? then s.(stack := s.stack[s.uv[i].level := v]) else s.(uv := s.uv[i := Closed(v)])
  }

  /** The open upvalue of a stack slot, or -1; there is at most one. */
  function OpenAt(uv: seq<UpVal>, level: nat): (i: int)
    ensures -1 <= i < |uv| && (i >= 0 ==> uv[i] == Open(level))
    ensures i < 0 ==> forall j :: 0 <= j < |uv| ==> uv[j] != Open(level)
  {
    if uv == [] then -1
    else
      var n := |uv| - 1;
      if uv[n] == Open(level) then n else OpenAt(uv[..n], level)
  }

  /** luaF_findupval */
  function Find(s: State, level: nat): (State, nat) {
    var i := OpenAt(s.uv, level);
    if i >= 0 then (s, i) else (s.(uv := s.uv + [Open(level)]), |s.uv|)
  }

  /** luaF_close */
  function Close(s: State, level: nat): State
    requires Valid(s)
  {
    s.(uv := seq(|s.uv|, i requires 0 <= i < |s.uv| =>
      if s.uv[i].Open? && s.uv[i].level >= level then Closed(s.stack[s.uv[i].level]) else s.uv[i]))
  }

  // ---- runs -------------------------------------------------------------------

  /** What a program does with its variables. A capture gives the next handle: a slot of a closure's upvals. */
  datatype Op =
    | GetSlot(s: nat)
    | SetSlot(s: nat, v: Value)
    | Capture(s: nat)
    | GetUp(h: nat)
    | SetUp(h: nat, v: Value)
    | CloseFrom(level: nat)

  datatype Machine = Machine(state: State, handles: seq<nat>)

  predicate Enabled(op: Op, slots: nat, handles: nat) {
    match op
    case GetSlot(s) => s < slots
    case SetSlot(s, _) => s < slots
    case Capture(s) => s < slots
    case GetUp(h) => h < handles
    case SetUp(h, _) => h < handles
    case CloseFrom(_) => true
  }

  predicate MachineOk(m: Machine) {
    Valid(m.state) && forall h :: 0 <= h < |m.handles| ==> m.handles[h] < |m.state.uv|
  }

  /** One step of the machine, and what the program gets to see */
  function Step(m: Machine, op: Op): (Machine, seq<Value>)
    requires MachineOk(m) && Enabled(op, |m.state.stack|, |m.handles|)
  {
    match op
    case GetSlot(s) => (m, [m.state.stack[s]])
    case SetSlot(s, v) => (m.(state := m.state.(stack := m.state.stack[s := v])), [])
    case Capture(s) => var (t, i) := Find(m.state, s); (Machine(t, m.handles + [i]), [])
    case GetUp(h) => (m, [Read(m.state, m.handles[h])])
    case SetUp(h, v) => (m.(state := Write(m.state, m.handles[h], v)), [])
    case CloseFrom(level) => (m.(state := Close(m.state, level)), [])
  }

  /**
   The same program where each variable is one heap cell: `slot' gives the cell of the variable in
   each stack slot.
   */
  datatype Cells = Cells(slot: seq<nat>, cell: seq<Value>, handles: seq<nat>)

  predicate CellsOk(c: Cells) {
    && (forall s :: 0 <= s < |c.slot| ==> c.slot[s] < |c.cell|)
    && (forall h :: 0 <= h < |c.handles| ==> c.handles[h] < |c.cell|)
  }

  /** A variable that goes out of scope leaves its cell; whatever uses the slot next has a new one. */
  function Renew(c: Cells, level: nat): Cells
    requires CellsOk(c)
  {
    var n := |c.cell|;
    c.(slot := seq(|c.slot|, s requires 0 <= s < |c.slot| => if s >= level then n + s else c.slot[s]),
       cell := c.cell + seq(|c.slot|, s requires 0 <= s < |c.slot| => c.cell[c.slot[s]]))
  }

  function CellStep(c: Cells, op: Op): (Cells, seq<Value>)
    requires CellsOk(c) && Enabled(op, |c.slot|, |c.handles|)
  {
    match op
    case GetSlot(s) => (c, [c.cell[c.slot[s]]])
    case SetSlot(s, v) => (c.(cell := c.cell[c.slot[s] := v]), [])
    case Capture(s) => (c.(handles := c.handles + [c.slot[s]]), [])
    case GetUp(h) => (c, [c.cell[c.handles[h]]])
    case SetUp(h, v) => (c.(cell := c.cell[c.handles[h] := v]), [])
    case CloseFrom(level) => (Renew(c, level), [])
  }

  /** The two views of one program state. */
  ghost predicate Sim(m: Machine, c: Cells) {
    && MachineOk(m) && CellsOk(c) && |m.state.stack| == |c.slot| && |m.handles| == |c.handles|
    && (forall s, t :: 0 <= s < t < |c.slot| ==> c.slot[s] != c.slot[t])
    && (forall s :: 0 <= s < |c.slot| ==> c.cell[c.slot[s]] == m.state.stack[s])
    && (forall h :: 0 <= h < |c.handles| ==> HandleOk(m, c, h))
    && (forall h, g :: 0 <= h < g < |c.handles| ==> (m.handles[h] == m.handles[g] <==> c.handles[h] == c.handles[g]))
  }

  /** An open upvalue stands for its slot's cell; a closed one for a cell of its own, with its value. */
  ghost predicate HandleOk(m: Machine, c: Cells, h: nat)
    requires MachineOk(m) && CellsOk(c) && h < |m.handles| && h < |c.handles| && |m.state.stack| == |c.slot|
  {
    match m.state.uv[m.handles[h]]
    case Open(level) => c.handles[h] == c.slot[level]
    case Closed(v) => c.cell[c.handles[h]] == v && forall s :: 0 <= s < |c.slot| ==> c.slot[s] != c.handles[h]
  }

  /** Every step shows the program the same, and the views stay in step. */
  lemma StepSim(m: Machine, c: Cells, op: Op)
    requires Sim(m, c) && Enabled(op, |m.state.stack|, |m.handles|)
    ensures Step(m, op).1 == CellStep(c, op).1 && Sim(Step(m, op).0, CellStep(c, op).0)
    ensures |Step(m, op).0.state.stack| == |m.state.stack|
    ensures |Step(m, op).0.handles| == |m.handles| + if op.Capture? then 1 else 0
  {
    match op
    case GetSlot(s) =>
    case SetSlot(s, v) => SetSim(m, c, s, v);
    case Capture(s) => CaptureSim(m, c, s);
    case GetUp(h) => assert HandleOk(m, c, h);
    case SetUp(h, v) => SetUpSim(m, c, h, v);
    case CloseFrom(level) => CloseSim(m, c, level);
  }

  lemma SetSim(m: Machine, c: Cells, s: nat, v: Value)
    requires Sim(m, c) && s < |m.state.stack|
    ensures Sim(Step(m, SetSlot(s, v)).0, CellStep(c, SetSlot(s, v)).0)
  {
    var m', c' := Step(m, SetSlot(s, v)).0, CellStep(c, SetSlot(s, v)).0;
    forall h | 0 <= h < |c.handles| ensures HandleOk(m', c', h) { assert HandleOk(m, c, h); }
  }

  lemma CaptureSim(m: Machine, c: Cells, s: nat)
    requires Sim(m, c) && s < |m.state.stack|
    ensures Sim(Step(m, Capture(s)).0, CellStep(c, Capture(s)).0)
  {
    var m', c' := Step(m, Capture(s)).0, CellStep(c, Capture(s)).0;
    var i, n := m'.handles[|m.handles|], |c.handles|;
    forall h | 0 <= h <= n
      ensures HandleOk(m', c', h) && (h < n ==> (m.handles[h] == i <==> c.handles[h] == c.slot[s])) {
      if h < n {
        assert HandleOk(m, c, h);
      }
    }
  }

  lemma SetUpSim(m: Machine, c: Cells, h: nat, v: Value)
    requires Sim(m, c) && h < |m.handles|
    ensures Sim(Step(m, SetUp(h, v)).0, CellStep(c, SetUp(h, v)).0)
  {
    assert HandleOk(m, c, h);
    var m', c' := Step(m, SetUp(h, v)).0, CellStep(c, SetUp(h, v)).0;
    forall g | 0 <= g < |c.handles| ensures HandleOk(m', c', g) { assert HandleOk(m, c, g); }
  }

  lemma CloseSim(m: Machine, c: Cells, level: nat)
    requires Sim(m, c)
    ensures Sim(Step(m, CloseFrom(level)).0, CellStep(c, CloseFrom(level)).0)
  {
    var m', c' := Step(m, CloseFrom(level)).0, CellStep(c, CloseFrom(level)).0;
    forall h | 0 <= h < |c.handles| ensures HandleOk(m', c', h) { assert HandleOk(m, c, h); }
  }

  /** What a whole program sees */
  function Observe(m: Machine, ops: seq<Op>): seq<Value>
    requires MachineOk(m) && Runs(ops, |m.state.stack|, |m.handles|)
    decreases |ops|
  {
    if ops == [] then []
    else
      StepOk(m, ops[0]);
      Step(m, ops[0]).1 + Observe(Step(m, ops[0]).0, ops[1..])
  }

  function CellObserve(c: Cells, ops: seq<Op>): seq<Value>
    requires CellsOk(c) && Runs(ops, |c.slot|, |c.handles|)
    decreases |ops|
  {
    if ops == [] then [] else CellStep(c, ops[0]).1 + CellObserve(CellStep(c, ops[0]).0, ops[1..])
  }

  /** Each operation names a slot that exists and a handle that was given. */
  predicate Runs(ops: seq<Op>, slots: nat, handles: nat)
    decreases |ops|
  {
    ops == [] || (Enabled(ops[0], slots, handles) && Runs(ops[1..], slots, if ops[0].Capture? then handles + 1
        else handles))
  }

  lemma StepOk(m: Machine, op: Op)
    requires MachineOk(m) && Enabled(op, |m.state.stack|, |m.handles|)
    ensures var t := Step(m, op).0;
      MachineOk(t) && |t.state.stack| == |m.state.stack| && |t.handles| == if op.Capture? then |m.handles| + 1
          else |m.handles|
  {
  }

  /** Closures see what they would see if each captured variable were one heap cell, over every run. */
  lemma {:induction false} RunsAgree(m: Machine, c: Cells, ops: seq<Op>)
    requires Sim(m, c) && Runs(ops, |m.state.stack|, |m.handles|)
    ensures Observe(m, ops) == CellObserve(c, ops)
    decreases |ops|
  {
    if ops != [] {
      StepSim(m, c, ops[0]);
      RunsAgree(Step(m, ops[0]).0, CellStep(c, ops[0]).0, ops[1..]);
    }
  }

  /** The start: nothing captured, a cell for every slot. */
  lemma SharedCells(stack: seq<Value>, ops: seq<Op>)
    requires Runs(ops, |stack|, 0)
    ensures Observe(Machine(State(stack, []), []), ops)
      == CellObserve(Cells(seq(|stack|, s => s), stack, []), ops)
  {
    RunsAgree(Machine(State(stack, []), []), Cells(seq(|stack|, s => s), stack, []), ops);
  }
}
