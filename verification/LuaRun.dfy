/** How running a piece of code changes when code is appended or waiting jumps are patched. */
module LuaRun {
  import opened Basics
  import opened LuaVm
  import opened LuaGen

  /** Control never arrives between a test and its jump. */
  predicate Boundary(code: seq<Instr>, pc: nat) {
    pc == 0 || pc > |code| || !IsTest(code[pc - 1])
  }

  predicate WfAt(code: seq<Instr>, p: nat)
    requires p < |code|
  {
    && (IsTest(code[p]) ==> p + 1 < |code| && code[p + 1].Jmp?)
    && (code[p].Jmp? && code[p].dest.Some? ==>
          p < code[p].dest.value <= |code| && Boundary(code, code[p].dest.value))
    && (code[p].LoadBool? && code[p].skip ==> p + 2 <= |code| && Boundary(code, p + 2))
  }

  /** From `start` on, tests are followed by their jumps and every jump goes forward, to the end at most. */
  ghost predicate WF(code: seq<Instr>, start: nat) {
    && start <= |code| && Boundary(code, start)
    && forall p :: start <= p < |code| ==> WfAt(code, p)
  }

  function Then(sem: Sem, o: Outcome, code: seq<Instr>, pc: nat, hi: nat): Outcome {
    match o
    case Fall(r) => Run(sem, code, pc, hi, r)
    case _ => o
  }

  /** Code that is appended runs after what was there. */
  lemma {:induction false} RunExtend(sem: Sem, code: seq<Instr>, more: seq<Instr>, start: nat, pc: nat, hi: nat,
                                     r: Regs)
    requires WF(code, start) && start <= pc <= |code| && code <= more && |code| <= hi
    ensures Run(sem, more, pc, hi, r) == Then(sem, Run(sem, code, pc, |code|, r), more, |code|, hi)
    decreases |code| - pc
  {
    if pc < |code| {
      var i := code[pc];
      assert WfAt(code, pc) && more[pc] == i;
      if IsTest(i) {
        var jumps := Jumps(sem, i, r);
        assert WfAt(code, pc + 1) && more[pc + 1] == code[pc + 1];
        if jumps == Some(true) && code[pc + 1].dest.Some? {
          RunExtend(sem, code, more, start, code[pc + 1].dest.value, hi,
                    if i.TestSet? then Set(r, i.a, Get(r, i.b)) else r);
        } else if jumps == Some(false) {
          RunExtend(sem, code, more, start, pc + 2, hi, r);
        }
      } else if i.Jmp? {
        if i.dest.Some? { RunExtend(sem, code, more, start, i.dest.value, hi, r); }
      } else if i.LoadNil? {
        RunExtend(sem, code, more, start, pc + 1, hi, SetNils(r, i.a, i.b));
      } else {
        var v := InstrValue(sem, i, r);
        if v.Some? {
          RunExtend(sem, code, more, start, if i.LoadBool? && i.skip then pc + 2 else pc + 1, hi, Set(r, i.a, v.value));
        }
      }
    }
  }

  // ---- patching -------------------------------------------------------------

  /** A list of jumps that still wait for a target. */
  ghost predicate Waiting(code: seq<Instr>, list: seq<nat>) {
    NoDup(list) && forall j :: j in list ==> j < |code| && code[j] == Jmp(None)
  }

  /** The instruction at `p` once the jumps of `js` are patched. */
  function PatchedAt(code: seq<Instr>, js: set<nat>, vt: nat, reg: nat, dt: nat, p: nat): Instr
    requires p < |code|
  {
    if p in js then Jmp(Some(if IsTestSet(code, p) then vt else dt))
    else if p + 1 in js && code[p].TestSet? then
      (if reg != NO_REG && reg != code[p].b then TestSet(reg, code[p].b, code[p].c) else Test(code[p].b, code[p].c))
    else code[p]
  }

  ghost predicate Patched(code: seq<Instr>, done: seq<Instr>, js: set<nat>, vt: nat, reg: nat, dt: nat) {
    |done| == |code| && forall p :: 0 <= p < |code| ==> done[p] == PatchedAt(code, js, vt, reg, dt, p)
  }

  /** patchlistaux changes exactly the listed jumps and the TESTSETs that control them. */
  lemma {:induction false} PatchListExact(code: seq<Instr>, list: seq<nat>, vt: nat, reg: nat, dt: nat)
    requires Waiting(code, list)
    ensures Patched(code, PatchListAux(code, list, vt, reg, dt), Elems(list), vt, reg, dt)
    decreases |list|
  {
    if list != [] {
      var j, rest := list[0], list[1..];
      var one := PatchOne(code, j, vt, reg, dt);
      assert Elems(list) == Elems(rest) + {j};
      assert j !in rest;
      PatchOneExact(code, j, vt, reg, dt);
      forall x | x in rest ensures x < |one| && one[x] == Jmp(None) { assert x in list; }
      PatchListExact(one, rest, vt, reg, dt);
      var done := PatchListAux(code, list, vt, reg, dt);
      forall p | 0 <= p < |code| ensures done[p] == PatchedAt(code, Elems(list), vt, reg, dt, p) {
        assert done[p] == PatchedAt(one, Elems(rest), vt, reg, dt, p);
        PatchStep(code, one, j, rest, vt, reg, dt, p);
      }
    }
  }

  lemma PatchOneExact(code: seq<Instr>, j: nat, vt: nat, reg: nat, dt: nat)
    requires j < |code| && code[j] == Jmp(None)
    ensures Patched(code, PatchOne(code, j, vt, reg, dt), {j}, vt, reg, dt)
  {
  }

  lemma PatchStep(code: seq<Instr>, one: seq<Instr>, j: nat, rest: seq<nat>, vt: nat, reg: nat, dt: nat, p: nat)
    requires Patched(code, one, {j}, vt, reg, dt) && p < |code|
    requires j < |code| && code[j] == Jmp(None) && j !in rest
    requires forall x :: x in rest ==> x < |code| && code[x] == Jmp(None)
    ensures PatchedAt(one, Elems(rest), vt, reg, dt, p) == PatchedAt(code, Elems(rest) + {j}, vt, reg, dt, p)
  {
    if p > 0 { assert one[p - 1] == PatchedAt(code, {j}, vt, reg, dt, p - 1); }
    assert one[p] == PatchedAt(code, {j}, vt, reg, dt, p);
  }

  /** The registers when the patched jump at `j` is taken. */
  function Written(code: seq<Instr>, j: nat, reg: nat, r: Regs): Regs {
    if IsTestSet(code, j) && reg != NO_REG then
      var b := code[Control(code, j)].b; Set(r, reg, Get(r, b))
    else r
  }

  /** After patching, a run goes on where it used to leave by a patched jump. */
  function Resumed(sem: Sem, o: Outcome, code: seq<Instr>, done: seq<Instr>, js: set<nat>, vt: nat, reg: nat, dt: nat,
                   hi: nat): Outcome {
    match o
    case Exit(j, r) =>
      if j in js then Run(sem, done, if IsTestSet(code, j) then vt else dt, hi, Written(code, j, reg, r)) else o
    case _ => o
  }

  lemma {:induction false} RunPatched(sem: Sem, code: seq<Instr>, done: seq<Instr>, start: nat, js: set<nat>,
                                      vt: nat, reg: nat, dt: nat, pc: nat, hi: nat, r: Regs)
    requires WF(code, start) && Patched(code, done, js, vt, reg, dt)
    requires forall j :: j in js ==> j < |code| && code[j] == Jmp(None) && j < vt && j < dt
    requires start <= pc <= |code| && Boundary(code, pc)
    ensures Run(sem, done, pc, hi, r) == Resumed(sem, Run(sem, code, pc, hi, r), code, done, js, vt, reg, dt, hi)
    decreases |code| - pc
  {
    hide InstrValue, Jumps;
    if pc < |code| && pc < hi {
      var i, i' := code[pc], done[pc];
      assert WfAt(code, pc) && i' == PatchedAt(code, js, vt, reg, dt, pc);
      if IsTest(i) {
        TestPatched(sem, code, done, js, vt, reg, dt, pc, r);
        var jumps := Jumps(sem, i, r);
        assert WfAt(code, pc + 1) && done[pc + 1] == PatchedAt(code, js, vt, reg, dt, pc + 1);
        if jumps == Some(true) && code[pc + 1].dest.Some? {
          RunPatched(sem, code, done, start, js, vt, reg, dt, code[pc + 1].dest.value, hi,
                     if i.TestSet? then Set(r, i.a, Get(r, i.b)) else r);
        } else if jumps == Some(false) {
          RunPatched(sem, code, done, start, js, vt, reg, dt, pc + 2, hi, r);
        }
      } else if i.Jmp? {
        if i.dest.Some? { RunPatched(sem, code, done, start, js, vt, reg, dt, i.dest.value, hi, r); }
      } else if i.LoadNil? {
        RunPatched(sem, code, done, start, js, vt, reg, dt, pc + 1, hi, SetNils(r, i.a, i.b));
      } else {
        var v := InstrValue(sem, i, r);
        if v.Some? {
          RunPatched(sem, code, done, start, js, vt, reg, dt, if i.LoadBool? && i.skip then pc + 2 else pc + 1, hi,
                     Set(r, i.a, v.value));
        }
      }
    }
  }

  lemma TestPatched(sem: Sem, code: seq<Instr>, done: seq<Instr>, js: set<nat>,
                    vt: nat, reg: nat, dt: nat, pc: nat, r: Regs)
    requires pc + 1 < |code| && IsTest(code[pc]) && code[pc + 1].Jmp? && Patched(code, done, js, vt, reg, dt)
    requires forall j :: j in js ==> j < |code| && code[j] == Jmp(None)
    ensures IsTest(done[pc]) && Jumps(sem, done[pc], r) == Jumps(sem, code[pc], r)
    ensures pc + 1 !in js ==> done[pc] == code[pc] && done[pc + 1] == code[pc + 1]
    ensures pc + 1 in js ==>
      && done[pc + 1] == Jmp(Some(if IsTestSet(code, pc + 1) then vt else dt))
      && (if done[pc].TestSet? then Set(r, done[pc].a, Get(r, done[pc].b)) else r) == Written(code, pc + 1, reg, r)
  {
    assert done[pc] == PatchedAt(code, js, vt, reg, dt, pc);
    assert done[pc + 1] == PatchedAt(code, js, vt, reg, dt, pc + 1);
  }

  /** Patching keeps code well formed. */
  lemma PatchedWF(code: seq<Instr>, done: seq<Instr>, start: nat, js: set<nat>, vt: nat, reg: nat, dt: nat)
    requires WF(code, start) && Patched(code, done, js, vt, reg, dt)
    requires forall j :: j in js ==> j < |code| && code[j] == Jmp(None) && j < vt <= |code| && j < dt <= |code|
    requires js != {} ==> Boundary(code, vt) && Boundary(code, dt)
    ensures WF(done, start)
  {
    forall p | 0 <= p < |code| ensures IsTest(done[p]) == IsTest(code[p]) {
      assert done[p] == PatchedAt(code, js, vt, reg, dt, p);
    }
    forall p | start <= p < |done| ensures WfAt(done, p) {
      assert WfAt(code, p) && done[p] == PatchedAt(code, js, vt, reg, dt, p);
    }
  }
}
