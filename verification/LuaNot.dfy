/** Negation: `not` exchanges the lists and takes the values away from their jumps. */
module LuaNot {
  import opened Basics
  import opened LuaVm
  import opened LuaGen
  import opened LuaRun
  import opened LuaState
  import opened LuaExp
  import opened LuaReg
  import opened LuaCond

  /** The instruction at `p` once the jumps of `js` bring no values. */
  function RemovedAt(code: seq<Instr>, js: set<nat>, p: nat): Instr
    requires p < |code|
  {
    if p + 1 in js && code[p].TestSet? then Test(code[p].b, code[p].c) else code[p]
  }

  ghost predicate Removed(code: seq<Instr>, done: seq<Instr>, js: set<nat>) {
    |done| == |code| && forall p :: 0 <= p < |code| ==> done[p] == RemovedAt(code, js, p)
  }

  /** removevalues turns exactly the TESTSETs of the listed jumps into TESTs. */
  lemma {:induction false} RemoveExact(code: seq<Instr>, list: seq<nat>)
    requires forall j :: j in list ==> IsWaiting(code, j)
    ensures Removed(code, RemoveValues(code, list), Elems(list))
    decreases |list|
  {
    if list != [] {
      var j, rest := list[0], list[1..];
      assert Elems(list) == Elems(rest) + {j};
      var c := Control(code, j);
      var one := if code[c].TestSet? then code[c := Test(code[c].b, code[c].c)] else code;
      assert IsWaiting(code, j);
      forall x | x in rest ensures IsWaiting(one, x) { assert x in list && IsWaiting(code, x); }
      RemoveExact(one, rest);
      var done := RemoveValues(code, list);
      forall p | 0 <= p < |code| ensures done[p] == RemovedAt(code, Elems(list), p) {
        assert done[p] == RemovedAt(one, Elems(rest), p);
      }
    }
  }

  /** A test whose jump waits does not write, so a run does not see the difference. */
  lemma {:induction false} RunRemoved(sem: Sem, code: seq<Instr>, done: seq<Instr>, start: nat, js: set<nat>, pc: nat,
                                      hi: nat, r: Regs)
    requires WF(code, start) && Removed(code, done, js) && start <= pc <= |code|
    requires forall j :: j in js ==> IsWaiting(code, j)
    ensures Run(sem, done, pc, hi, r) == Run(sem, code, pc, hi, r)
    decreases |code| - pc
  {
    if pc < |code| && pc < hi {
      var i := code[pc];
      assert WfAt(code, pc) && done[pc] == RemovedAt(code, js, pc);
      if IsTest(i) {
        var jumps := Jumps(sem, i, r);
        assert WfAt(code, pc + 1) && done[pc + 1] == RemovedAt(code, js, pc + 1);
        assert jumps == Jumps(sem, done[pc], r);
        if jumps == Some(true) && code[pc + 1].dest.Some? {
          assert !IsWaiting(code, pc + 1) && done[pc] == i;
          RunRemoved(sem, code, done, start, js, code[pc + 1].dest.value, hi, if i.TestSet? then
              Set(r, i.a, Get(r, i.b)) else r);
        } else if jumps == Some(false) {
          RunRemoved(sem, code, done, start, js, pc + 2, hi, r);
        }
      } else if i.Jmp? {
        if i.dest.Some? { RunRemoved(sem, code, done, start, js, i.dest.value, hi, r); }
      } else if i.LoadNil? {
        RunRemoved(sem, code, done, start, js, pc + 1, hi, SetNils(r, i.a, i.b));
      } else {
        var v := InstrValue(sem, i, r);
        if v.Some? {
          RunRemoved(sem, code, done, start, js, if i.LoadBool? && i.skip then pc + 2
              else pc + 1, hi, Set(r, i.a, v.value));
        }
      }
    }
  }

  lemma RemovedOk(sem: Sem, fs: FS, c: FS, start: nat, js: set<nat>)
    requires Ok(fs, start) && c == fs.(code := c.code) && Removed(fs.code, c.code, js)
    requires forall j :: j in js ==> IsWaiting(fs.code, j)
    ensures Ok(c, start) && forall r :: Arr(sem, c, start, r) == Arr(sem, fs, start, r)
  {
    forall p | 0 <= p < |fs.code|
      ensures IsTest(c.code[p]) == IsTest(fs.code[p])
      ensures c.code[p].LoadNil? == fs.code[p].LoadNil? && IsWaiting(c.code, p) == IsWaiting(fs.code, p)
      ensures forall to :: Lands(c.code, p, to) == Lands(fs.code, p, to)
    {
      assert c.code[p] == RemovedAt(fs.code, js, p);
    }
    forall p | start <= p < |fs.code| ensures WfAt(c.code, p) { assert WfAt(fs.code, p); }
    forall r ensures Arr(sem, c, start, r) == Arr(sem, fs, start, r) {
      RunRemoved(sem, fs.code, c.code, start, js, start, |fs.code|, r);
    }
  }

  lemma RemovedKept(fs: FS, c: FS, js: set<nat>)
    requires c == fs.(code := c.code) && Removed(fs.code, c.code, js)
    requires forall j :: j in js ==> IsWaiting(fs.code, j)
    ensures Evolves(fs, js, c, js)
    ensures forall j :: IsWaiting(fs.code, j) ==> IsWaiting(c.code, j)
    ensures forall j :: j in js ==> !IsTestSet(c.code, j)
  {
    forall j: nat | IsWaiting(fs.code, j)
      ensures IsWaiting(c.code, j) && (j in js ==> !IsTestSet(c.code, j)) && (j !in js ==> Kept(fs.code, c.code, j))
    {
      assert c.code[j] == RemovedAt(fs.code, js, j);
      if j > 0 { assert c.code[j - 1] == RemovedAt(fs.code, js, j - 1); }
    }
  }

  /** The part of codenot that takes the values away. */
  function Stripped(fs: FS, e: Exp): FS {
    fs.(code := RemoveValues(RemoveValues(fs.code, e.t), e.f))
  }

  function ListElems(e: Exp): set<nat> { Elems(e.t) + Elems(e.f) }

  lemma StrippedExact(fs: FS, e: Exp)
    requires ListsOk(fs, e)
    ensures Removed(fs.code, Stripped(fs, e).code, ListElems(e))
  {
    RemoveExact(fs.code, e.t);
    var one := RemoveValues(fs.code, e.t);
    forall j | j in e.f ensures IsWaiting(one, j) {
      assert IsWaiting(fs.code, j);
      assert one[j] == RemovedAt(fs.code, Elems(e.t), j);
    }
    RemoveExact(one, e.f);
    var done := RemoveValues(one, e.f);
    forall p | 0 <= p < |fs.code| ensures done[p] == RemovedAt(fs.code, ListElems(e), p) {
      assert one[p] == RemovedAt(fs.code, Elems(e.t), p);
      assert done[p] == RemovedAt(one, Elems(e.f), p);
    }
  }

  /** Without values the descriptor still computes what it did. */
  lemma StrippedOk(sem: Sem, fs: FS, e: Exp, start: nat, n: nat)
    requires EOk(fs, e, start, n)
    ensures var c := Stripped(fs, e);
      && EOk(c, e, start, n) && Evolves(fs, Owned(e), c, Owned(e))
      && (forall j :: j in e.t || j in e.f ==> !IsTestSet(c.code, j))
      && forall r :: ERun(sem, c, e, start, r) == ERun(sem, fs, e, start, r)
  {
    hide Ok, Arr, Run, Removed, ListsOk, KindOk, Evolves, RemoveValues;
    var c, js := Stripped(fs, e), ListElems(e);
    StrippedExact(fs, e);
    StrippedBase(fs, e, start, c);
    RemovedKept(fs, c, js);
    RemovedOk(sem, Base(fs, e), Base(c, e), start, js);
    Withheld(fs, c, e, js);
    StrippedWaiting(fs, e, c);
    EvolvesMoreBoth(fs, js, c, Owned(e));
    forall r ensures ERun(sem, c, e, start, r) == ERun(sem, fs, e, start, r) {
      var o := Arr(sem, Base(fs, e), start, r);
      assert o.Fall? ==> Fin(sem, c.code, e.k, o.regs) == Fin(sem, fs.code, e.k, o.regs);
    }
  }

  lemma StrippedBase(fs: FS, e: Exp, start: nat, c: FS)
    requires ListsOk(fs, e) && KindOk(fs, e) && c == fs.(code := c.code) && Removed(fs.code, c.code, ListElems(e))
    ensures var b := Base(fs, e);
      Removed(b.code, Base(c, e).code, ListElems(e)) && Base(c, e) == b.(code := Base(c, e).code)
    ensures forall j :: j in ListElems(e) ==> IsWaiting(fs.code, j) && IsWaiting(Base(fs, e).code, j)
    ensures e.k.VJmp? ==> e.k.pc !in ListElems(e)
  {
    forall j | j in ListElems(e) ensures IsWaiting(fs.code, j) && IsWaiting(Base(fs, e).code, j) {
      assert j in e.t || j in e.f;
    }
    forall p | 0 <= p < |Base(fs, e).code| ensures Base(c, e).code[p] == RemovedAt(Base(fs, e).code, ListElems(e), p) {
      assert c.code[p] == RemovedAt(fs.code, ListElems(e), p);
    }
  }

  lemma StrippedWaiting(fs: FS, e: Exp, c: FS)
    requires ListsOk(fs, e) && c == fs.(code := c.code)
    requires forall j :: IsWaiting(fs.code, j) ==> IsWaiting(c.code, j)
    ensures ListsOk(c, e) && ListElems(e) <= Owned(e)
    ensures forall j :: j in e.t || j in e.f ==> j in ListElems(e)
  {
    forall j | j in e.t || j in e.f ensures IsWaiting(c.code, j) { assert IsWaiting(fs.code, j); }
  }

  lemma EvolvesMoreBoth(fs: FS, js: set<nat>, c: FS, o: set<nat>)
    requires Evolves(fs, js, c, js) && js <= o
    ensures Evolves(fs, o, c, o)
  {
  }

  /** The instructions a descriptor holds back are not touched. */
  lemma Withheld(fs: FS, c: FS, e: Exp, js: set<nat>)
    requires KindOk(fs, e) && Removed(fs.code, c.code, js) && forall j :: j in js ==> IsWaiting(fs.code, j)
    requires c == fs.(code := c.code) && (e.k.VJmp? ==> e.k.pc !in js)
    ensures KindOk(c, e)
    ensures e.k.VReloc? ==> c.code[e.k.pc] == fs.code[e.k.pc]
    ensures e.k.VJmp? ==> c.code[e.k.pc - 1] == fs.code[e.k.pc - 1]
  {
    match e.k
    case VReloc(p) => assert c.code[p] == RemovedAt(fs.code, js, p);
    case VJmp(p) =>
      assert c.code[p] == RemovedAt(fs.code, js, p);
      assert c.code[p - 1] == RemovedAt(fs.code, js, p - 1);
    case _ =>
  }

  // ---- codenot --------------------------------------------------------------

  ghost predicate Negated(got: Res, was: Res, n: nat) {
    match was
    case RVal(v, x) => got.RVal? && got.v == Boolean(!Truthy(v)) && Agree(got.regs, x, n)
    case _ => got == was
  }

  /** codenot before it turns to the lists */
  function NotValue(fs: FS, e: Exp): (FS, Kind) {
    match e.k
    case VNil => (fs, VTrue)
    case VFalse => (fs, VTrue)
    case VK(_) => (fs, VFalse)
    case VKNum(_) => (fs, VFalse)
    case VTrue => (fs, VFalse)
    case VJmp(p) => (InvertJump(fs, p), e.k)
    case _ =>
      var (fs2, e2) := Discharge2AnyReg(fs, e);
      var fs3 := FreeExp(fs2, e2);
      (Code(fs3, Not(0, if e2.k.VNonReloc? then e2.k.reg else 0)), VReloc(|fs3.code|))
  }

  lemma NotShape(fs: FS, e: Exp)
    ensures var (fs1, e1) := DischargeVars(fs, e);
      Discharged(e1.k) ==>
        var (fs2, k2) := NotValue(fs1, e1);
        CodeNot(fs, e) == (Stripped(fs2, e1), Exp(k2, e1.f, e1.t))
  {
  }

  lemma NotValueOk(sem: Sem, fs: FS, e: Exp, start: nat, n: nat)
    requires EOk(fs, e, start, n) && Discharged(e.k) && Proper(e.k)
    ensures var (c, k) := NotValue(fs, e);
      && EOk(c, e.(k := k), start, n) && Evolves(fs, Pending(e), c, Pending(e)) && Proper(k)
      && (k.VJmp? == e.k.VJmp?) && (k.VJmp? ==> k == e.k) && Discharged(k)
      && forall r :: Init(fs, start, r) ==>
           Negated(ERun(sem, c, e.(k := k), start, r), ERun(sem, fs, e, start, r), n)
  {
    hide Ok, Arr, Init, Evolves, ListsOk, InvertJump, Discharge2AnyReg, Run;
    var (c, k) := NotValue(fs, e);
    if e.k.VJmp? {
      InvertOk(sem, fs, e, start, n);
      forall r { PendingBool(sem, fs, e, start, r); }
    } else if e.k.VReloc? || e.k.VNonReloc? {
      NotInReg(sem, fs, e, start, n);
    } else {
      Unchanged(fs, {});
      SameLists(fs, e);
    }
  }

  lemma NotInReg(sem: Sem, fs: FS, e: Exp, start: nat, n: nat)
    requires EOk(fs, e, start, n) && (e.k.VReloc? || e.k.VNonReloc?)
    ensures var (c, k) := NotValue(fs, e);
      && EOk(c, e.(k := k), start, n) && Evolves(fs, {}, c, {}) && k.VReloc?
      && forall r :: Init(fs, start, r) ==>
           Negated(ERun(sem, c, e.(k := k), start, r), ERun(sem, fs, e, start, r), n)
  {
    hide Shaped, Ok, Arr, Init, Evolves, ListsOk, ERun, Relocatable, Discharge2AnyReg, Run, Agree;
    var (fs2, e2) := Discharge2AnyReg(fs, e);
    var fs3 := FreeExp(fs2, e2);
    ToAnyRegOk(sem, fs, e, start, n);
    ShapedParts(fs, e, start);
    AfterToReg(fs, fs3, e);
    var i := Not(0, e2.k.reg);
    var plain := e.(k := VNil);
    SameLists(fs3, e);
    RelocatableOk(sem, fs3, plain, start, n, i);
    RelocatableCode(fs3, plain, i);
    var (c, k) := NotValue(fs, e);
    assert Relocatable(fs3, plain, i) == (c, e.(k := k));
    EvolvesTrans(fs, {}, fs3, {}, c, {});
    EvolvesInit(fs, {}, fs3, {}, start);
    EvolvesInit(fs3, {}, c, {}, start);
  }

  lemma RelocatableCode(fs: FS, e: Exp, i: Instr)
    ensures Relocatable(fs, e, i) == (Code(fs, i), e.(k := VReloc(|fs.code|)))
  {
  }

  /** codenot: the value is negated, and a jump of either list now leaves by the other. */
  lemma CodeNotOk(sem: Sem, fs: FS, e: Exp, start: nat, n: nat)
    requires EOk(fs, e, start, n) && Proper(e.k)
    ensures var (c, e1) := CodeNot(fs, e);
      && EOk(c, e1, start, n) && Evolves(fs, Owned(e), c, Owned(e1)) && Proper(e1.k)
      && e1.t == e.f && e1.f == e.t
      && (forall j :: j in e1.t || j in e1.f ==> !IsTestSet(c.code, j))
      && forall r :: Init(fs, start, r) ==>
           Negated(ERun(sem, c, e1, start, r), ERun(sem, fs, e, start, r), n)
  {
    hide Shaped, Ok, Arr, Init, Evolves, ListsOk, ERun, NotValue, Stripped, DischargeVars, CodeNot, IsTestSet, Run;
    var (fs1, e1) := DischargeVars(fs, e);
    DischargeVarsOk(sem, fs, e, start, n);
    EvolvesInit(fs, {}, fs1, {}, start);
    ProperStays(fs, e);
    NotShape(fs, e);
    NotValueOk(sem, fs1, e1, start, n);
    var (fs2, k2) := NotValue(fs1, e1);
    var e2 := e1.(k := k2);
    StrippedOk(sem, fs2, e2, start, n);
    StrippedLists(fs2, e1, e2);
    var c := Stripped(fs2, e1);
    Swap(sem, c, e2, start, n);
    ShapedParts(fs, e, start);
    ShapedParts(fs1, e1, start);
    NotEvolves(fs, e, fs1, e1, fs2, e2, c);
  }

  lemma StrippedLists(fs: FS, e: Exp, e1: Exp)
    requires e1.t == e.t && e1.f == e.f
    ensures Stripped(fs, e1) == Stripped(fs, e)
  {
  }

  lemma Swap(sem: Sem, fs: FS, e: Exp, start: nat, n: nat)
    requires EOk(fs, e, start, n)
    ensures var s := Exp(e.k, e.f, e.t);
      && EOk(fs, s, start, n) && Owned(s) == Owned(e)
      && forall r :: ERun(sem, fs, s, start, r) == ERun(sem, fs, e, start, r)
  {
    hide Ok;
    var s := Exp(e.k, e.f, e.t);
    assert Base(fs, s) == Base(fs, e);
    assert Owned(s) == Owned(e);
  }

  lemma NotEvolves(fs: FS, e: Exp, fs1: FS, e1: Exp, fs2: FS, e2: Exp, c: FS)
    requires ListsOk(fs, e) && e1.t == e.t && e1.f == e.f && e2 == e1.(k := e2.k) && KindOk(fs1, e1)
    requires e1.k.VJmp? == e.k.VJmp? && (e.k.VJmp? ==> (fs1, e1) == (fs, e)) && (e2.k.VJmp? == e1.k.VJmp?)
    requires (e2.k.VJmp? ==> e2.k == e1.k)
    requires Evolves(fs, {}, fs1, {}) && Evolves(fs1, Pending(e1), fs2, Pending(e1))
    requires Evolves(fs2, Owned(e2), c, Owned(e2))
    requires ListsOk(fs1, e1)
    ensures Evolves(fs, Owned(e), c, Owned(e2))
  {
    var ls := ListElems(e1);
    forall j | j in ls ensures IsWaiting(fs1.code, j) && j !in fs1.jpc && j !in Pending(e1) {
      assert j in e1.t || j in e1.f;
    }
    EvolvesBeside(fs1, Pending(e1), fs2, Pending(e1), ls);
    assert Pending(e1) + ls == Owned(e1) == Owned(e2);
    EvolvesTrans(fs1, Owned(e1), fs2, Owned(e1), c, Owned(e2));
    if !e.k.VJmp? {
      AfterToReg(fs, fs1, e);
      forall j | j in ls ensures IsWaiting(fs.code, j) && j !in fs.jpc { assert j in e.t || j in e.f; }
      EvolvesBeside(fs, {}, fs1, {}, ls);
      assert {} + ls == ls == Owned(e1) == Owned(e);
      EvolvesTrans(fs, ls, fs1, ls, c, Owned(e2));
    }
  }
}
