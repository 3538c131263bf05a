/** Expression descriptors: what running the code of one computes, and what discharging it to a register does. */
module LuaExp {
  import opened Basics
  import opened LuaVm
  import opened LuaGen
  import opened LuaRun
  import opened LuaState

  /** The instructions a VRELOCABLE can stand for. */
  predicate IsSetter(i: Instr) {
    i.GetUpval? || i.GetGlobal? || i.GetTable? || i.Arith? || i.Unm? || i.Not? || i.Len?
  }

  /** The generator's state before the instructions that the descriptor still holds back. */
  function Base(fs: FS, e: Exp): FS {
    match e.k
    case VReloc(p) => if p <= |fs.code| then fs.(code := fs.code[..p]) else fs
    case VJmp(p) => if 1 <= p <= |fs.code| then fs.(code := fs.code[..p - 1]) else fs
    case _ => fs
  }

  /** The value of a kind in the registers its code leaves. */
  function Fin(sem: Sem, code: seq<Instr>, k: Kind, r: Regs): Option<Value> {
    match k
    case VNil => Some(Nil)
    case VTrue => Some(Boolean(true))
    case VFalse => Some(Boolean(false))
    case VK(v) => Some(v)
    case VKNum(n) => Some(Number(n))
    case VLocal(x) => Some(Get(r, x))
    case VNonReloc(x) => Some(Get(r, x))
    case VUpval(i) => Some(sem.upval(i))
    case VGlobal(name) => sem.global(name)
    case VIndexed(t, key) => sem.index(Get(r, t), RkValue(r, key))
    case VReloc(p) => if p < |code| then InstrValue(sem, code[p], r) else None
    case VJmp(p) =>
      if 1 <= p <= |code| then
        var b := Jumps(sem, code[p - 1], r);
        if b.Some? then Some(Boolean(b.value)) else None
      else None
  }

  /** Evaluation fails, leaves by a waiting jump, or yields a value. */
  datatype Res = RErr | ROut(j: nat, regs: Regs) | RVal(v: Value, regs: Regs)

  function ERun(sem: Sem, fs: FS, e: Exp, start: nat, r: Regs): Res {
    match Arr(sem, Base(fs, e), start, r)
    case Error => RErr
    case Exit(j, x) => ROut(j, x)
    case Fall(x) =>
      var v := Fin(sem, fs.code, e.k, x);
      if v.None? then RErr else RVal(v.value, x)
  }

  // ---- descriptors ----------------------------------------------------------

  ghost predicate ListsOk(fs: FS, e: Exp) {
    && Waiting(fs.code, e.t) && Waiting(fs.code, e.f)
    && (forall j :: j in e.t ==> j !in e.f && j !in fs.jpc)
    && (forall j :: j in e.f ==> j !in fs.jpc)
  }

  ghost predicate KindOk(fs: FS, e: Exp) {
    match e.k
    case VReloc(p) => |fs.code| == p + 1 && fs.jpc == [] && IsSetter(fs.code[p])
    case VJmp(p) =>
      && p >= 1 && |fs.code| == p + 1 && fs.jpc == []
      && IsComp(fs.code[p - 1]) && fs.code[p] == Jmp(None) && p !in e.t && p !in e.f
    case _ => true
  }

  predicate Temp(fs: FS, reg: nat) { reg >= fs.nactvar }

  /** The registers above `n` that the descriptor uses are the ones in use, in stack order. */
  predicate RegsOk(fs: FS, k: Kind, n: nat) {
    match k
    case VLocal(r) => !Temp(fs, r) && fs.freereg == n
    case VNonReloc(r) => if Temp(fs, r) then r == n && fs.freereg == n + 1 else fs.freereg == n
    case VIndexed(t, key) =>
      var n1 := if Temp(fs, t) then n + 1 else n;
      && (Temp(fs, t) ==> t == n)
      && (if key.R? && Temp(fs, key.reg) then key.reg == n1 && fs.freereg == n1 + 1 else fs.freereg == n1)
    case _ => fs.freereg == n
  }

  ghost predicate Shaped(fs: FS, e: Exp, start: nat) {
    Ok(Base(fs, e), start) && ListsOk(fs, e) && KindOk(fs, e)
  }

  ghost predicate EOk(fs: FS, e: Exp, start: nat, n: nat) {
    Shaped(fs, e, start) && RegsOk(fs, e.k, n) && fs.nactvar <= n
  }

  /** The waiting jumps that belong to a descriptor. */
  function Owned(e: Exp): set<nat> {
    Elems(e.t) + Elems(e.f) + if e.k.VJmp? then {e.k.pc} else {}
  }

  /** The code of a descriptor together with the instruction it holds back. */
  lemma WholeOk(sem: Sem, fs: FS, e: Exp, start: nat)
    requires Shaped(fs, e, start)
    ensures Ok(fs, start)
    ensures e.k.VReloc? ==> fs == Code(Base(fs, e), fs.code[e.k.pc])
    ensures e.k.VJmp? ==> (fs, [e.k.pc]) == CondJump(Base(fs, e), fs.code[e.k.pc - 1])
  {
    var b := Base(fs, e);
    match e.k
    case VReloc(p) =>
      assert fs.code == b.code + [fs.code[p]];
      CodeOk(sem, b, start, fs.code[p]);
    case VJmp(p) =>
      assert fs.code == b.code + [fs.code[p - 1], Jmp(None)];
      CondJumpOk(sem, b, start, fs.code[p - 1]);
    case _ =>
  }

  // ---- luaK_dischargevars ---------------------------------------------------

  predicate Discharged(k: Kind) { !k.VLocal? && !k.VUpval? && !k.VGlobal? && !k.VIndexed? }

  lemma RelocatableOk(sem: Sem, fs: FS, e: Exp, start: nat, n: nat, i: Instr)
    requires Ok(fs, start) && ListsOk(fs, e) && !e.k.VJmp? && !e.k.VReloc? && IsSetter(i)
    requires fs.freereg == n
    ensures var (fs1, e1) := Relocatable(fs, e, i);
      && EOk(fs1, e1, start, n) && Evolves(fs, {}, fs1, {})
      && forall r :: ERun(sem, fs1, e1, start, r) ==
           match Arr(sem, fs, start, r) {
             case Error => RErr
             case Exit(j, x) => ROut(j, x)
             case Fall(x) => if InstrValue(sem, i, x).None? then RErr else RVal(InstrValue(sem, i, x).value, x)
           }
  {
    var (fs1, e1) := Relocatable(fs, e, i);
    var d := DischargeJpc(fs);
    DischargeOk(sem, fs, start);
    CodeOk(sem, fs, start, i);
    assert Base(fs1, e1).code == d.code;
    assert Base(fs1, e1) == d;
    WaitingStays(fs, fs1, e.t);
    WaitingStays(fs, fs1, e.f);
  }

  lemma WaitingStays(fs: FS, fs1: FS, list: seq<nat>)
    requires Evolves(fs, {}, fs1, {}) && Waiting(fs.code, list)
    requires forall j :: j in list ==> j !in fs.jpc
    ensures Waiting(fs1.code, list) && forall j :: j in list ==> j !in fs1.jpc && Kept(fs.code, fs1.code, j)
  {
    forall j | j in list ensures Kept(fs.code, fs1.code, j) && j !in fs1.jpc { assert IsWaiting(fs.code, j); }
    WaitingKept(fs.code, fs1.code, list);
  }

  lemma Unchanged(fs: FS, o: set<nat>)
    ensures Evolves(fs, o, fs, o)
  {
  }

  lemma RegsMoved(sem: Sem, fs: FS, start: nat, n: nat, e: Exp)
    requires Ok(fs, start) && ListsOk(fs, e) && n >= fs.nactvar
    ensures var fs0 := fs.(freereg := n);
      && Ok(fs0, start) && ListsOk(fs0, e) && Evolves(fs, {}, fs0, {})
      && forall r :: Arr(sem, fs0, start, r) == Arr(sem, fs, start, r)
  {
  }

  /** The free register and the constants are no part of what code computes. */
  lemma EvolvesRegs(fs: FS, n: nat, fs1: FS, o: set<nat>, o1: set<nat>)
    requires Evolves(fs.(freereg := n), o, fs1, o1)
    ensures Evolves(fs, o, fs1, o1)
  {
  }

  lemma DischargeVarsOk(sem: Sem, fs: FS, e: Exp, start: nat, n: nat)
    requires EOk(fs, e, start, n)
    ensures var (fs1, e1) := DischargeVars(fs, e);
      && EOk(fs1, e1, start, n) && Evolves(fs, {}, fs1, {}) && Discharged(e1.k)
      && e1.t == e.t && e1.f == e.f && e1.k.VJmp? == e.k.VJmp? && (Discharged(e.k) ==> (fs1, e1) == (fs, e))
      && forall r :: ERun(sem, fs1, e1, start, r) == ERun(sem, fs, e, start, r)
  {
    hide Ok, Evolves, ListsOk, Arr, Relocatable;
    Unchanged(fs, {});
    match e.k
    case VUpval(i) =>
      RelocatableOk(sem, fs, e, start, n, GetUpval(0, i));
      RelocatableShape(fs, e, GetUpval(0, i));
    case VGlobal(name) =>
      RelocatableOk(sem, fs, e, start, n, GetGlobal(0, name));
      RelocatableShape(fs, e, GetGlobal(0, name));
    case VIndexed(t, key) =>
      var fs0 := fs.(freereg := n);
      assert FreeReg(FreeRK(fs, key), t) == fs0;
      RegsMoved(sem, fs, start, n, e);
      RelocatableOk(sem, fs0, e, start, n, GetTable(0, t, key));
      RelocatableShape(fs0, e, GetTable(0, t, key));
      EvolvesRegs(fs, n, Relocatable(fs0, e, GetTable(0, t, key)).0, {}, {});
    case _ => SameLists(fs, e);
  }

  lemma SameLists(fs: FS, e: Exp)
    ensures forall k :: ListsOk(fs, e.(k := k)) == ListsOk(fs, e)
  {
  }

  lemma RelocatableShape(fs: FS, e: Exp, i: Instr)
    ensures var (fs1, e1) := Relocatable(fs, e, i);
      e1.k.VReloc? && e1.t == e.t && e1.f == e.f
  {
  }

  // ---- discharge2reg --------------------------------------------------------

  /** The value goes to a register. */
  function PutIn(o: Res, reg: nat): Outcome {
    match o
    case RErr => Error
    case ROut(j, x) => Exit(j, x)
    case RVal(v, x) => Fall(Set(x, reg, v))
  }

  lemma CodeValue(sem: Sem, fs: FS, start: nat, i: Instr, reg: nat)
    requires Ok(fs, start) && SetsTo(i, reg)
    ensures var c := Code(fs, i);
      && Ok(c, start) && Evolves(fs, {}, c, {}) && c == fs.(code := c.code, jpc := [])
      && forall r :: Arr(sem, c, start, r) ==
           var o := Arr(sem, fs, start, r);
           if o.Fall? then
             var v := InstrValue(sem, i, o.regs);
             if v.None? then Error else Fall(Set(o.regs, reg, v.value))
           else o
  {
    hide Ok, Evolves, Arr, Code;
    CodeOk(sem, fs, start, i);
    CodeShape(fs, i);
  }

  lemma CodeShape(fs: FS, i: Instr)
    ensures Code(fs, i) == fs.(code := Code(fs, i).code, jpc := [])
  {
  }

  predicate SetsTo(i: Instr, reg: nat) {
    match i
    case LoadK(a, _) => a == reg
    case LoadBool(a, _, skip) => a == reg && !skip
    case Move(a, _) => a == reg
    case _ => IsSetter(i) && i.a == reg
  }

  lemma ToRegOk(sem: Sem, fs: FS, e: Exp, start: nat, reg: nat)
    requires Shaped(fs, e, start) && Discharged(e.k) && !e.k.VJmp? && reg >= fs.nactvar
    ensures var (fs1, e1) := ToReg(fs, e, reg);
      && Ok(fs1, start) && Evolves(fs, {}, fs1, {}) && fs1.freereg == fs.freereg && e1 == e.(k := VNonReloc(reg))
      && forall r :: Init(fs, start, r) ==> Arr(sem, fs1, start, r) == PutIn(ERun(sem, fs, e, start, r), reg)
  {
    hide Ok, Evolves, ListsOk, Arr, Nil1, Code, Init;
    Unchanged(fs, {});
    match e.k
    case VNil => NilOk(sem, fs, start, reg);
    case VFalse => CodeValue(sem, fs, start, LoadBool(reg, false, false), reg);
    case VTrue => CodeValue(sem, fs, start, LoadBool(reg, true, false), reg);
    case VK(v) => CodeValue(sem, fs, start, LoadK(reg, v), reg);
    case VKNum(x) =>
      AddKSame(sem, fs, start, Number(x));
      CodeValue(sem, AddK(fs, Number(x)), start, LoadK(reg, Number(x)), reg);
    case VNonReloc(x) => if x != reg { CodeValue(sem, fs, start, Move(reg, x), reg); }
    case VReloc(p) => RelocToReg(sem, fs, e, start, reg);
  }

  lemma AddKSame(sem: Sem, fs: FS, start: nat, v: Value)
    ensures var fs1 := AddK(fs, v);
      && fs1 == fs.(k := fs1.k) && Ok(fs1, start) == Ok(fs, start)
      && (forall r :: Arr(sem, fs1, start, r) == Arr(sem, fs, start, r))
      && (forall fs2 :: Evolves(fs1, {}, fs2, {}) ==> Evolves(fs, {}, fs2, {}))
      && forall e :: ListsOk(fs1, e) == ListsOk(fs, e)
  {
  }

  lemma RelocToReg(sem: Sem, fs: FS, e: Exp, start: nat, reg: nat)
    requires Shaped(fs, e, start) && e.k.VReloc?
    ensures var (fs1, e1) := ToReg(fs, e, reg);
      && Ok(fs1, start) && Evolves(fs, {}, fs1, {}) && fs1.freereg == fs.freereg
      && forall r :: Arr(sem, fs1, start, r) == PutIn(ERun(sem, fs, e, start, r), reg)
  {
    var (fs1, _) := ToReg(fs, e, reg);
    var p, b := e.k.pc, Base(fs, e);
    var i := SetA(fs.code[p], reg);
    assert fs1.code == b.code + [i];
    assert fs1 == Code(b, i);
    CodeValue(sem, b, start, i, reg);
    SetAEvolves(fs, fs1, p, reg);
    assert forall r :: InstrValue(sem, i, r) == InstrValue(sem, fs.code[p], r);
  }

  lemma SetAEvolves(fs: FS, fs1: FS, p: nat, reg: nat)
    requires p + 1 == |fs.code| && IsSetter(fs.code[p])
    requires fs1 == fs.(code := fs.code[p := SetA(fs.code[p], reg)])
    ensures Evolves(fs, {}, fs1, {})
  {
  }

  // ---- exp2reg: giving the jumps of an expression their targets ---------------

  /** What a jump of the lists leaves in the register: what its TESTSET tests, else the truth of its list. */
  function Carried(code: seq<Instr>, j: nat, truth: bool, r: Regs): Value {
    if IsTestSet(code, j) then Get(r, code[Control(code, j)].b) else Boolean(truth)
  }

  /** The result of an expression once the jumps of its lists count as the values they bring. */
  function Settled(o: Res, code: seq<Instr>, e: Exp): Res {
    match o
    case ROut(j, x) =>
      if j in e.t then RVal(Carried(code, j, true, x), x)
      else if j in e.f then RVal(Carried(code, j, false, x), x)
      else o
    case _ => o
  }

  /** The outcome once the value, by whichever way it comes, is in `reg`. */
  function Settle(o: Res, code: seq<Instr>, e: Exp, reg: nat): Outcome { PutIn(Settled(o, code, e), reg) }

  /** The same, for the value already being in place. */
  function Close(o: Outcome, code: seq<Instr>, e: Exp, reg: nat): Outcome {
    match o
    case Exit(j, x) => Settle(ROut(j, x), code, e, reg)
    case Fall(x) => if e.k.VJmp? then Fall(Set(x, reg, Boolean(false))) else o
    case Error => Error
  }

  /** Patching one list: where its jumps go, and what that leaves. */
  lemma PatchListOk(sem: Sem, fs: FS, start: nat, list: seq<nat>, vt: nat, reg: nat, dt: nat)
    requires Ok(fs, start) && Waiting(fs.code, list)
    requires forall j :: j in list ==> j !in fs.jpc && j < vt && j < dt
    requires vt == |fs.code| == fs.lasttarget && Boundary(fs.code, vt)
    requires (forall j :: j in list ==> IsTestSet(fs.code, j)) || (dt <= |fs.code| && Boundary(fs.code, dt))
    ensures var c := fs.(code := PatchListAux(fs.code, list, vt, reg, dt));
      && Ok(c, start) && Evolves(fs, Elems(list), c, {})
      && Patched(fs.code, c.code, Elems(list), vt, reg, dt)
      && (forall r :: Run(sem, c.code, start, |c.code|, r) ==
           Resumed(sem, Run(sem, fs.code, start, |fs.code|, r), fs.code, c.code, Elems(list), vt, reg, dt, |c.code|))
  {
    var c := fs.(code := PatchListAux(fs.code, list, vt, reg, dt));
    var js := Elems(list);
    PatchListExact(fs.code, list, vt, reg, dt);
    if dt <= |fs.code| && Boundary(fs.code, dt) {
      PatchedWF(fs.code, c.code, start, js, vt, reg, dt);
    } else {
      assert Patched(fs.code, c.code, js, vt, reg, vt) by {
        forall p | 0 <= p < |fs.code| ensures c.code[p] == PatchedAt(fs.code, js, vt, reg, vt, p) {
          assert c.code[p] == PatchedAt(fs.code, js, vt, reg, dt, p);
        }
      }
      PatchedWF(fs.code, c.code, start, js, vt, reg, vt);
    }
    forall j | IsWaiting(fs.code, j) && j !in js ensures Kept(fs.code, c.code, j) {
      PatchedKept(fs.code, c.code, js, vt, reg, dt, j);
    }
    WaitingKept(fs.code, c.code, fs.jpc);
    if start > 0 { assert c.code[start - 1] == PatchedAt(fs.code, js, vt, reg, dt, start - 1); }
    forall r ensures Run(sem, c.code, start, |c.code|, r) ==
      Resumed(sem, Run(sem, fs.code, start, |fs.code|, r), fs.code, c.code, js, vt, reg, dt, |c.code|)
    {
      RunPatched(sem, fs.code, c.code, start, js, vt, reg, dt, start, |fs.code|, r);
    }
  }

  lemma EndBoundary(code: seq<Instr>, start: nat)
    requires WF(code, start)
    ensures Boundary(code, |code|)
  {
    if |code| > start { assert WfAt(code, |code| - 1); }
  }

  /** The two loads of a boolean that jumps without a value go to, and the jump around them. */
  function Labelled(fs: FS, falls: bool, reg: nat): FS {
    var (fs1, fj) := if falls then (fs, []) else Jump(fs);
    GetLabel(PatchToHere(CodeLabel(CodeLabel(fs1, reg, false, true), reg, true, false), fj))
  }

  lemma LabelledShape(fs: FS, falls: bool, reg: nat)
    requires falls ==> fs.jpc == []
    ensures var fs1 := if falls then fs else Jump(fs).0;
      var c := Labelled(fs, falls, reg);
      && c.code == fs1.code + [LoadBool(reg, false, true), LoadBool(reg, true, false)]
      && c == fs.(code := c.code, jpc := if falls then [] else Jump(fs).1, lasttarget := |c.code|)
      && fs1.code == if falls then fs.code else fs.code + [Jmp(None)]
  {
    var fs1 := if falls then fs else Jump(fs).0;
    if !falls { assert Jump(fs).0.code == fs.code + [Jmp(None)]; }
    assert CodeLabel(fs1, reg, false, true).code == fs1.code + [LoadBool(reg, false, true)];
  }

  lemma LabelledOk(sem: Sem, fs: FS, start: nat, falls: bool, reg: nat)
    requires Ok(fs, start) && (falls ==> fs.jpc == [])
    ensures var c := Labelled(fs, falls, reg);
      && Ok(c, start) && Evolves(fs, {}, c, {}) && Boundary(c.code, |c.code| - 2) && Boundary(c.code, |c.code| - 1)
      && forall r :: Arr(sem, c, start, r) ==
           var o := Arr(sem, fs, start, r);
           if o.Fall? && falls then Fall(Set(o.regs, reg, Boolean(false))) else o
  {
    hide Labelled, Boundary, Evolves, Jump;
    var c := Labelled(fs, falls, reg);
    LabelledShape(fs, falls, reg);
    LabelledInv(sem, fs, start, falls, reg);
    var fs1 := if falls then fs else Jump(fs).0;
    var tail := [LoadBool(reg, false, true), LoadBool(reg, true, false)];
    if !falls { JumpOk(sem, fs, start); }
    LabelledEvolves(fs, c, falls, reg);
    forall r ensures Arr(sem, c, start, r) ==
      var o := Arr(sem, fs, start, r);
      if o.Fall? && falls then Fall(Set(o.regs, reg, Boolean(false))) else o
    {
      var o := Arr(sem, fs, start, r);
      RunExtend(sem, fs1.code, c.code, start, start, |c.code|, r);
      var o1 := Run(sem, fs1.code, start, |fs1.code|, r);
      if falls && o1.Fall? { LoadsRun(sem, c.code, reg, o1.regs); }
    }
  }

  lemma LabelledInv(sem: Sem, fs: FS, start: nat, falls: bool, reg: nat)
    requires Ok(fs, start) && (falls ==> fs.jpc == [])
    ensures var c := Labelled(fs, falls, reg);
      Ok(c, start) && Boundary(c.code, |c.code| - 2) && Boundary(c.code, |c.code| - 1)
    ensures !falls ==> Ok(Jump(fs).0, start)
  {
    hide Labelled, Jump, Evolves, Run;
    LabelledShape(fs, falls, reg);
    var fs1 := if falls then fs else Jump(fs).0;
    if !falls { JumpOk(sem, fs, start); }
    EndBoundary(fs1.code, start);
    AppendWF(fs1.code, start, [LoadBool(reg, false, true), LoadBool(reg, true, false)]);
  }

  lemma LabelledEvolves(fs: FS, c: FS, falls: bool, reg: nat)
    requires falls ==> fs.jpc == []
    requires c == Labelled(fs, falls, reg)
    ensures Evolves(fs, {}, c, {})
  {
    LabelledShape(fs, falls, reg);
  }

  /** Either load of a boolean ends at the end. */
  lemma LoadsRun(sem: Sem, code: seq<Instr>, reg: nat, r: Regs)
    requires |code| >= 2 && code[|code| - 2] == LoadBool(reg, false, true)
    requires code[|code| - 1] == LoadBool(reg, true, false)
    ensures Run(sem, code, |code| - 2, |code|, r) == Fall(Set(r, reg, Boolean(false)))
    ensures Run(sem, code, |code| - 1, |code|, r) == Fall(Set(r, reg, Boolean(true)))
  {
    assert forall x :: Run(sem, code, |code|, |code|, x) == Fall(x);
  }

  /** Either every jump of the lists brings its value, or the two loads are there for those that do not. */
  ghost predicate Served(code: seq<Instr>, e: Exp, reg: nat, pf: nat, labels: bool) {
    && (forall j :: j in e.t || j in e.f ==> j < pf)
    && if labels then
         && pf + 2 == |code| && Boundary(code, pf) && Boundary(code, pf + 1)
         && code[pf] == LoadBool(reg, false, true) && code[pf + 1] == LoadBool(reg, true, false)
       else pf == |code| && forall j :: j in e.t || j in e.f ==> IsTestSet(code, j)
  }

  lemma FirstReady(fs: FS, start: nat, e: Exp, reg: nat, pf: nat, labels: bool)
    requires Ok(fs, start) && ListsOk(fs, e) && Served(fs.code, e, reg, pf, labels)
    ensures Boundary(fs.code, |fs.code|)
    ensures forall j :: j in e.f ==> j !in fs.jpc && j < |fs.code| && j < pf
    ensures (forall j :: j in e.f ==> IsTestSet(fs.code, j)) || (pf <= |fs.code| && Boundary(fs.code, pf))
    ensures forall j :: j in Elems(e.t) ==> IsWaiting(fs.code, j) && j !in fs.jpc && j !in Elems(e.f)
  {
    EndBoundary(fs.code, start);
  }

  lemma SecondReady(fs: FS, c1: FS, start: nat, e: Exp, reg: nat, pf: nat, labels: bool)
    requires ListsOk(fs, e) && Served(fs.code, e, reg, pf, labels)
    requires Ok(c1, start) && c1.jpc == fs.jpc && Patched(fs.code, c1.code, Elems(e.f), |fs.code|, reg, pf)
    requires forall j :: j in Elems(e.t) ==> Kept(fs.code, c1.code, j)
    ensures Boundary(c1.code, |c1.code|) && Waiting(c1.code, e.t)
    ensures forall j :: j in e.t ==> j !in c1.jpc && j < |c1.code| && j < pf + 1
    ensures (forall j :: j in e.t ==> IsTestSet(c1.code, j)) || (pf + 1 <= |c1.code| && Boundary(c1.code, pf + 1))
    ensures labels ==> c1.code[pf] == LoadBool(reg, false, true) && c1.code[pf + 1] == LoadBool(reg, true, false)
  {
    EndBoundary(c1.code, start);
    WaitingKept(fs.code, c1.code, e.t);
    if labels {
      assert c1.code[pf] == PatchedAt(fs.code, Elems(e.f), |fs.code|, reg, pf, pf);
      assert c1.code[pf + 1] == PatchedAt(fs.code, Elems(e.f), |fs.code|, reg, pf, pf + 1);
    }
  }

  lemma SecondDone(fs: FS, c1: FS, c: FS, e: Exp, reg: nat, pf: nat)
    requires pf + 2 == |c1.code| && forall j :: j in e.t ==> j < pf
    requires c1.code[pf] == LoadBool(reg, false, true) && c1.code[pf + 1] == LoadBool(reg, true, false)
    requires Patched(c1.code, c.code, Elems(e.t), |c1.code|, reg, pf + 1)
    ensures c.code[pf + 1] == LoadBool(reg, true, false) && c.code[pf] == LoadBool(reg, false, true)
  {
    assert c.code[pf] == PatchedAt(c1.code, Elems(e.t), |c1.code|, reg, pf + 1, pf);
    assert c.code[pf + 1] == PatchedAt(c1.code, Elems(e.t), |c1.code|, reg, pf + 1, pf + 1);
  }

  /** Where a run goes once both lists are patched. */
  lemma PatchedRun(sem: Sem, fs: FS, c1: FS, c: FS, e: Exp, reg: nat, pf: nat, labels: bool, o: Outcome)
    requires ListsOk(fs, e) && reg != NO_REG && |c1.code| == |fs.code| == |c.code|
    requires Served(fs.code, e, reg, pf, labels)
    requires forall i :: i in Elems(e.t) ==> Kept(fs.code, c1.code, i)
    requires labels ==> c1.code[pf] == LoadBool(reg, false, true) && c1.code[pf + 1] == LoadBool(reg, true, false)
    requires labels ==> c.code[pf] == LoadBool(reg, false, true) && c.code[pf + 1] == LoadBool(reg, true, false)
    ensures
      var n := |fs.code|;
      var o1 := Resumed(sem, o, fs.code, c1.code, Elems(e.f), n, reg, pf, n);
      var o2 := Resumed(sem, o1, c1.code, c.code, Elems(e.t), n, reg, pf + 1, n);
      var a := Arrived(o, fs.jpc);
      Arrived(o2, fs.jpc) == if a.Exit? then Settle(ROut(a.j, a.regs), fs.code, e, reg) else a
  {
    if labels {
      forall r ensures Run(sem, c1.code, pf, |fs.code|, r) == Fall(Set(r, reg, Boolean(false)))
                    && Run(sem, c.code, pf + 1, |fs.code|, r) == Fall(Set(r, reg, Boolean(true)))
      {
        LoadsRun(sem, c1.code, reg, r);
        LoadsRun(sem, c.code, reg, r);
      }
    }
  }

  /** CloseJumps once the labels are there. */
  lemma PatchBoth(sem: Sem, fs: FS, start: nat, e: Exp, reg: nat, pf: nat, labels: bool)
    requires Ok(fs, start) && ListsOk(fs, e) && fs.lasttarget == |fs.code| && reg != NO_REG
    requires Served(fs.code, e, reg, pf, labels)
    ensures var n := |fs.code|;
      var code1 := PatchListAux(fs.code, e.f, n, reg, pf);
      var c := fs.(code := PatchListAux(code1, e.t, n, reg, pf + 1));
      && Ok(c, start) && Evolves(fs, Elems(e.t) + Elems(e.f), c, {})
      && forall r :: Arr(sem, c, start, r) ==
           var o := Arr(sem, fs, start, r);
           if o.Exit? then Settle(ROut(o.j, o.regs), fs.code, e, reg) else o
  {
    hide Ok, Evolves, Kept, Patched, Boundary, Settle, PatchListAux, Run, IsTestSet, Resumed, Arrived;
    var n := |fs.code|;
    var c1 := fs.(code := PatchListAux(fs.code, e.f, n, reg, pf));
    var c := c1.(code := PatchListAux(c1.code, e.t, n, reg, pf + 1));
    FirstReady(fs, start, e, reg, pf, labels);
    PatchListOk(sem, fs, start, e.f, n, reg, pf);
    EvolvesBeside(fs, Elems(e.f), c1, {}, Elems(e.t));
    SecondReady(fs, c1, start, e, reg, pf, labels);
    PatchListOk(sem, c1, start, e.t, n, reg, pf + 1);
    if labels { SecondDone(fs, c1, c, e, reg, pf); }
    assert Elems(e.f) + Elems(e.t) == Elems(e.t) + Elems(e.f) && {} + Elems(e.t) == Elems(e.t);
    EvolvesTrans(fs, Elems(e.f) + Elems(e.t), c1, Elems(e.t), c, {});
    forall r ensures Arr(sem, c, start, r) ==
      var o := Arr(sem, fs, start, r);
      if o.Exit? then Settle(ROut(o.j, o.regs), fs.code, e, reg) else o
    {
      PatchedRun(sem, fs, c1, c, e, reg, pf, labels, Run(sem, fs.code, start, n, r));
    }
  }
}
