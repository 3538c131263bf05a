/** Conditions: the two ways to branch on an expression, and its negation. */
module LuaCond {
  import opened Basics
  import opened LuaVm
  import opened LuaGen
  import opened LuaRun
  import opened LuaState
  import opened LuaExp
  import opened LuaReg

  /** A run continues when the value's truth is `sense`, and leaves by a jump of `list` otherwise. */
  ghost predicate Forks(o: Outcome, res: Res, code: seq<Instr>, list: seq<nat>, sense: bool, exact: bool, n: nat) {
    match res
    case RErr => o == Error
    case ROut(j, x) => o == Exit(j, x)
    case RVal(v, x) =>
      if Truthy(v) == sense then o.Fall? && Agree(o.regs, x, n)
      else
        && o.Exit? && o.j in list && Agree(o.regs, x, n)
        && (exact ==> Carried(code, o.j, !sense, o.regs) == v)
  }

  /** A constant that the parser reads is a string; the nil and boolean constants have kinds of their own. */
  predicate Proper(k: Kind) { k.VK? ==> Truthy(k.value) }

  function Pending(e: Exp): set<nat> { if e.k.VJmp? then {e.k.pc} else {} }

  /** The state after a branch: the new jumps wait, and nothing else waits for them. */
  ghost predicate Forked(fs: FS, o: set<nat>, c: FS, list: seq<nat>, start: nat, n: nat) {
    && Ok(c, start) && c.freereg == n && Waiting(c.code, list) && (forall j :: j in list ==> j !in c.jpc)
    && Evolves(fs, o, c, Elems(list))
  }

  // ---- jumponcond -----------------------------------------------------------

  lemma TestForks(sem: Sem, fs: FS, start: nat, test: Instr, b: nat, cond: bool)
    requires Ok(fs, start)
    requires test == Test(b, cond) || test == TestSet(NO_REG, b, cond)
    ensures var (c, list) := CondJump(fs, test);
      && list == [|fs.code| + 1] && Forked(fs, {}, c, list, start, fs.freereg) && c.nactvar == fs.nactvar
      && IsTestSet(c.code, |fs.code| + 1) == test.TestSet?
      && (test.TestSet? ==> c.code[Control(c.code, |fs.code| + 1)].b == b)
      && forall r :: Arr(sem, c, start, r) ==
           var o := Arr(sem, fs, start, r);
           if o.Fall? && Truthy(Get(o.regs, b)) == cond then Exit(|fs.code| + 1, o.regs) else o
  {
    hide Ok, Evolves, Arr, Run;
    CondJumpOk(sem, fs, start, test);
    var (c, list) := CondJump(fs, test);
    CondJumpShape(fs, test);
  }

  lemma CondJumpShape(fs: FS, test: Instr)
    ensures var (c, list) := CondJump(fs, test);
      && c == fs.(code := c.code, jpc := []) && |c.code| == |fs.code| + 2
      && c.code[|fs.code|] == test && c.code[|fs.code| + 1] == Jmp(None)
  {
  }

  /** The operand of the test is put in a register first. */
  lemma ToAnyRegOk(sem: Sem, fs: FS, e: Exp, start: nat, n: nat)
    requires EOk(fs, e, start, n) && Discharged(e.k) && !e.k.VJmp?
    ensures var (fs1, e1) := Discharge2AnyReg(fs, e);
      var c := FreeExp(fs1, e1);
      && e1.k.VNonReloc? && Ok(c, start) && Evolves(fs, {}, c, {}) && c.freereg == n
      && forall r :: Init(fs, start, r) ==>
           Loads(Arr(sem, c, start, r), ERun(sem, fs, e, start, r), R(e1.k.reg), n)
  {
    hide Shaped, Ok, Evolves, Arr, ERun, Init, ToReg, Loads, PutIn;
    var (fs1, e1) := Discharge2AnyReg(fs, e);
    var c := FreeExp(fs1, e1);
    if e.k.VNonReloc? {
      Unchanged(fs, {});
      var p := Plain(e.k);
      InRegRes(sem, fs, e, start, n);
      RegsFreed(sem, fs, start, n);
    } else {
      var fs0 := fs.(freereg := n + 1);
      ShapedRegs(sem, fs, e, start, n + 1);
      ToRegOk(sem, fs0, e, start, n);
      EvolvesRegs(fs, n + 1, fs1, {}, {});
      EvolvesInit(fs, {}, fs1, {}, start);
      RegsFreed(sem, fs1, start, n);
      forall res { PutInLoads(res, n); }
      EvolvesTrans(fs, {}, fs1, {}, c, {});
    }
  }

  lemma InRegRes(sem: Sem, fs: FS, e: Exp, start: nat, n: nat)
    requires EOk(fs, e, start, n) && e.k.VNonReloc?
    ensures Ok(fs, start)
    ensures forall r :: Loads(Arr(sem, fs, start, r), ERun(sem, fs, e, start, r), R(e.k.reg), n)
  {
  }

  lemma RegsFreed(sem: Sem, fs: FS, start: nat, n: nat)
    requires Ok(fs, start) && n >= fs.nactvar
    ensures var c := fs.(freereg := n);
      Ok(c, start) && Evolves(fs, {}, c, {}) && forall r :: Arr(sem, c, start, r) == Arr(sem, fs, start, r)
  {
  }

  lemma JumpOnCondOk(sem: Sem, fs: FS, e: Exp, start: nat, n: nat, cond: bool)
    requires EOk(fs, e, start, n) && Discharged(e.k) && !e.k.VJmp?
    ensures var (c, list) := JumpOnCond(fs, e, cond);
      && Forked(fs, {}, c, list, start, n) && (forall j :: j in list ==> j >= |fs.code|)
      && forall r :: Init(fs, start, r) ==>
           Forks(Arr(sem, c, start, r), ERun(sem, fs, e, start, r), c.code, list, !cond, true, n)
  {
    hide Shaped, Ok, Evolves, Arr, Init, Discharge2AnyReg, CondJump, IsTestSet, Control, Waiting, Run;
    var (c, list) := JumpOnCond(fs, e, cond);
    if e.k.VReloc? && |fs.code| > 0 && fs.code[|fs.code| - 1].Not? {
      NotRemoved(sem, fs, e, start, n, cond);
    } else {
      ToAnyRegOk(sem, fs, e, start, n);
      var (fs1, e1) := Discharge2AnyReg(fs, e);
      var fs2 := FreeExp(fs1, e1);
      TestForks(sem, fs2, start, TestSet(NO_REG, e1.k.reg, cond), e1.k.reg, cond);
      EvolvesTrans(fs, {}, fs2, {}, c, Elems(list));
      Longer(fs, {}, fs2, {});
    }
  }

  lemma Longer(fs: FS, o: set<nat>, c: FS, o': set<nat>)
    requires Evolves(fs, o, c, o')
    ensures |fs.code| <= |c.code|
  {
  }

  /** The OP_NOT goes, and the test is reversed. */
  lemma NotRemoved(sem: Sem, fs: FS, e: Exp, start: nat, n: nat, cond: bool)
    requires EOk(fs, e, start, n) && e.k.VReloc? && |fs.code| > 0 && fs.code[|fs.code| - 1].Not?
    ensures var (c, list) := JumpOnCond(fs, e, cond);
      && Forked(fs, {}, c, list, start, n) && (forall j :: j in list ==> j >= |fs.code|)
      && forall r :: Forks(Arr(sem, c, start, r), ERun(sem, fs, e, start, r), c.code, list, !cond, true, n)
  {
    hide Ok, Arr, CondJump, Run;
    var b, p := Base(fs, e), e.k.pc;
    var reg := fs.code[p].b;
    TestForks(sem, b, start, Test(reg, !cond), reg, !cond);
    var (c, list) := CondJump(b, Test(reg, !cond));
    assert JumpOnCond(fs, e, cond) == (c, list);
    CondJumpShape(b, Test(reg, !cond));
    forall j | IsWaiting(fs.code, j) && j !in fs.jpc ensures Kept(fs.code, c.code, j) {
      assert IsWaiting(b.code, j);
      assert Kept(b.code, c.code, j);
    }
    forall r ensures Forks(Arr(sem, c, start, r), ERun(sem, fs, e, start, r), c.code, list, !cond, true, n) {
      var o := Arr(sem, b, start, r);
      if o.Fall? { assert InstrValue(sem, fs.code[p], o.regs) == Some(Boolean(!Truthy(Get(o.regs, reg)))); }
    }
  }

  // ---- invertjump -----------------------------------------------------------

  /** Inverting a pending comparison negates it. */
  lemma InvertOk(sem: Sem, fs: FS, e: Exp, start: nat, n: nat)
    requires EOk(fs, e, start, n) && e.k.VJmp?
    ensures var c := InvertJump(fs, e.k.pc);
      && EOk(c, e, start, n) && Evolves(fs, Pending(e), c, Pending(e))
      && (forall j :: j in e.t || j in e.f ==> Kept(fs.code, c.code, j))
      && forall r :: ERun(sem, c, e, start, r) ==
           var o := ERun(sem, fs, e, start, r);
           if o.RVal? then RVal(Boolean(!Truthy(o.v)), o.regs) else o
  {
    hide Ok, Run;
    var p := e.k.pc;
    var c := InvertJump(fs, p);
    assert c.code == fs.code[p - 1 := Inverted(fs.code[p - 1])];
    assert Base(c, e) == Base(fs, e) by { assert c.code[..p - 1] == fs.code[..p - 1]; }
    forall j | IsWaiting(fs.code, j) && j != p ensures Kept(fs.code, c.code, j) {}
    forall r ensures ERun(sem, c, e, start, r) ==
      var o := ERun(sem, fs, e, start, r);
      if o.RVal? then RVal(Boolean(!Truthy(o.v)), o.regs) else o
    {
      var o := Arr(sem, Base(fs, e), start, r);
      if o.Fall? { InvertedJumps(sem, fs.code[p - 1], o.regs); }
    }
  }

  function NotOf(b: Option<bool>): Option<bool> { if b.Some? then Some(!b.value) else None }

  lemma InvertedJumps(sem: Sem, i: Instr, r: Regs)
    requires IsComp(i)
    ensures Jumps(sem, Inverted(i), r) == NotOf(Jumps(sem, i, r))
  {
  }

  // ---- luaK_goiftrue and luaK_goiffalse ---------------------------------------

  /** The jump that luaK_goiftrue (`sense`) or luaK_goiffalse adds. */
  function Branch(fs: FS, e: Exp, sense: bool): (FS, seq<nat>) {
    match e.k
    case VJmp(p) => (if sense then InvertJump(fs, p) else fs, [p])
    case VTrue => if sense then (fs, []) else Jump(fs)
    case VFalse => if sense then Jump(fs) else (fs, [])
    case VNil => if sense then JumpOnCond(fs, e, false) else (fs, [])
    case VK(_) => if sense then (fs, []) else JumpOnCond(fs, e, true)
    case VKNum(_) => if sense then (fs, []) else JumpOnCond(fs, e, true)
    case _ => JumpOnCond(fs, e, !sense)
  }

  function Go(fs: FS, e: Exp, sense: bool): (FS, Exp) { if sense then GoIfTrue(fs, e) else GoIfFalse(fs, e) }

  /** The list of jumps taken when the value's truth is not `sense`. */
  function OutList(e: Exp, sense: bool): seq<nat> { if sense then e.f else e.t }

  lemma GoShape(fs: FS, e: Exp, sense: bool)
    ensures var (fs1, e1) := DischargeVars(fs, e);
      Discharged(e1.k) ==>
        var (fs2, list) := Branch(fs1, e1, sense);
        && Go(fs, e, sense).0 == PatchToHere(fs2, OutList(e1, !sense))
        && OutList(Go(fs, e, sense).1, sense) == OutList(e1, sense) + list
        && OutList(Go(fs, e, sense).1, !sense) == []
  {
  }

  /**
   The bare jump for a constant that always leaves: the jumps pending to here
   leave with it. When one of them has a TESTSET, it brings its own value.
   */
  predicate Merges(fs: FS, e: Exp, sense: bool) {
    (if sense then e.k.VFalse? else e.k.VTrue?) && exists j :: j in fs.jpc && IsTestSet(fs.code, j)
  }

  lemma BareJump(sem: Sem, fs: FS, e: Exp, start: nat, n: nat, sense: bool)
    requires EOk(fs, e, start, n) && (if sense then e.k.VFalse? else e.k.VTrue?)
    ensures var (c, list) := Jump(fs);
      && Forked(fs, {}, c, list, start, n)
      && (forall j :: j in list ==> j in fs.jpc || j >= |fs.code|)
      && (forall r :: Forks(Arr(sem, c, start, r), ERun(sem, fs, e, start, r), c.code, list, sense, !Merges(fs, e,
          sense), n))
  {
    hide Ok, Run, Jump, Boundary;
    OkWF(fs, start);
    JumpOk(sem, fs, start);
    var (c, list) := Jump(fs);
    assert Waiting(fs.code, fs.jpc) && Boundary(fs.code, |fs.code|) by { EndBoundary(fs.code, start); }
    JumpLists(fs);
    forall r ensures Forks(Arr(sem, c, start, r), ERun(sem, fs, e, start, r), c.code, list, sense, !Merges(fs, e,
        sense), n) {
      var o := Arr(sem, fs, start, r);
      if o.Fall? {
        var j :| j in list && Run(sem, c.code, start, |c.code|, r) == Exit(j, o.regs);
        assert Arr(sem, c, start, r) == Exit(j, o.regs);
      }
    }
  }

  lemma OkWF(fs: FS, start: nat)
    requires Ok(fs, start)
    ensures WF(fs.code, start) && Waiting(fs.code, fs.jpc)
  {
  }

  lemma JumpLists(fs: FS)
    requires Waiting(fs.code, fs.jpc) && Boundary(fs.code, |fs.code|)
    ensures var (c, list) := Jump(fs);
      forall j :: j in list ==>
        && (j in fs.jpc || j >= |fs.code|)
        && (IsTestSet(c.code, j) ==> j in fs.jpc && IsTestSet(fs.code, j))
  {
    assert Jump(fs).0.code == fs.code + [Jmp(None)];
  }

  lemma PendingForks(sem: Sem, fs: FS, e: Exp, start: nat, n: nat)
    requires EOk(fs, e, start, n) && e.k.VJmp?
    ensures Forked(fs, Pending(e), fs, [e.k.pc], start, n)
    ensures forall r :: Forks(Arr(sem, fs, start, r), ERun(sem, fs, e, start, r), fs.code, [e.k.pc], false, true, n)
  {
    hide Ok, Arr, ERun;
    PendingJump(sem, fs, e, start);
    Unchanged(fs, Pending(e));
  }

  lemma InvertForks(sem: Sem, fs: FS, e: Exp, start: nat, n: nat)
    requires EOk(fs, e, start, n) && e.k.VJmp?
    ensures var c := InvertJump(fs, e.k.pc);
      && Forked(fs, Pending(e), c, [e.k.pc], start, n)
      && (forall j :: j in e.t || j in e.f ==> Kept(fs.code, c.code, j))
      && forall r :: Forks(Arr(sem, c, start, r), ERun(sem, fs, e, start, r), c.code, [e.k.pc], true, true, n)
  {
    hide Ok, Arr, ERun, EOk, Kept;
    var c := InvertJump(fs, e.k.pc);
    InvertOk(sem, fs, e, start, n);
    PendingForks(sem, c, e, start, n);
    EvolvesTrans(fs, Pending(e), c, Pending(e), c, Pending(e));
    PendingPlain(c, e, start, n);
    forall r ensures Forks(Arr(sem, c, start, r), ERun(sem, fs, e, start, r), c.code, [e.k.pc], true, true, n) {
      PendingBool(sem, fs, e, start, r);
    }
  }

  lemma PendingBool(sem: Sem, fs: FS, e: Exp, start: nat, r: Regs)
    requires e.k.VJmp?
    ensures ERun(sem, fs, e, start, r).RVal? ==> ERun(sem, fs, e, start, r).v.Boolean?
  {
  }

  lemma PendingPlain(fs: FS, e: Exp, start: nat, n: nat)
    requires EOk(fs, e, start, n) && e.k.VJmp?
    ensures !IsTestSet(fs.code, e.k.pc)
  {
  }

  /** The jumps of the lists, and a pending comparison's, are no others' */
  lemma ListsApart(fs: FS, e: Exp, list: seq<nat>)
    requires ListsOk(fs, e) && KindOk(fs, e)
    requires forall j :: j in list ==> j in fs.jpc || j >= |fs.code| || j in Pending(e)
    ensures forall j :: j in list ==> j !in e.t && j !in e.f
  {
  }

  lemma BranchOk(sem: Sem, fs: FS, e: Exp, start: nat, n: nat, sense: bool)
    requires EOk(fs, e, start, n) && Discharged(e.k) && Proper(e.k)
    ensures var (c, list) := Branch(fs, e, sense);
      && Forked(fs, Pending(e), c, list, start, n)
      && (forall j :: j in list ==> j !in e.t && j !in e.f)
      && (forall j :: j in e.t || j in e.f ==> Kept(fs.code, c.code, j) && j !in c.jpc)
      && forall r :: Init(fs, start, r) ==>
           Forks(Arr(sem, c, start, r), ERun(sem, fs, e, start, r), c.code, list, sense, !Merges(fs, e, sense), n)
  {
    hide Ok, Arr, ERun, Init, Kept, Evolves, ListsOk, Run, JumpOnCond, InvertJump, IsTestSet, Jump, Forks;
    var (c, list) := Branch(fs, e, sense);
    Unchanged(fs, {});
    if e.k.VJmp? {
      if sense { InvertForks(sem, fs, e, start, n); } else { PendingForks(sem, fs, e, start, n); }
      BesideLists(fs, e, Pending(e), c, list);
    } else {
      if e.k.VTrue? || e.k.VFalse? {
        if e.k.VFalse? == sense { BareJump(sem, fs, e, start, n, sense); } else {
          ConstForks(sem, fs, e, start, n, sense);
        }
      } else if e.k.VNil? || e.k.VK? || e.k.VKNum? {
        if e.k.VNil? == sense { JumpOnCondOk(sem, fs, e, start, n, !sense); } else {
          ConstForks(sem, fs, e, start, n, sense);
        }
      } else {
        JumpOnCondOk(sem, fs, e, start, n, !sense);
      }
      BesideLists(fs, e, {}, c, list);
    }
    ListsApart(fs, e, list);
  }

  /** A constant of the right truth needs no jump. */
  lemma ConstForks(sem: Sem, fs: FS, e: Exp, start: nat, n: nat, sense: bool)
    requires EOk(fs, e, start, n) && ConstOf(e.k).Some?
    requires Proper(e.k) && Truthy(ConstOf(e.k).value) == sense
    ensures Forked(fs, {}, fs, [], start, n)
    ensures forall r :: Forks(Arr(sem, fs, start, r), ERun(sem, fs, e, start, r), fs.code, [], sense, true, n)
  {
  }

  lemma BesideLists(fs: FS, e: Exp, o: set<nat>, c: FS, list: seq<nat>)
    requires ListsOk(fs, e) && Evolves(fs, o, c, Elems(list)) && o == Pending(e) && KindOk(fs, e)
    ensures forall j :: j in e.t || j in e.f ==> Kept(fs.code, c.code, j) && j !in c.jpc
    ensures forall j :: j in list ==> j in fs.jpc || j in o || j >= |fs.code|
  {
    forall j | j in e.t || j in e.f ensures Kept(fs.code, c.code, j) && j !in c.jpc { assert IsWaiting(fs.code, j); }
    forall j | j in list ensures j in fs.jpc || j in o || j >= |fs.code| { assert j in Elems(list); }
  }

  /** luaK_patchtohere: the jumps of the list arrive at the next instruction. */
  lemma PatchToHereOk(sem: Sem, fs: FS, start: nat, list: seq<nat>)
    requires Ok(fs, start) && Waiting(fs.code, list) && forall j :: j in list ==> j !in fs.jpc
    ensures var c := PatchToHere(fs, list);
      && Ok(c, start) && Evolves(fs, Elems(list), c, {}) && c == fs.(jpc := c.jpc, lasttarget := c.lasttarget)
      && (forall j :: j in c.jpc <==> j in fs.jpc || j in list)
      && (forall r :: Arr(sem, c, start, r) == Arrived(Arr(sem, fs, start, r), list))
  {
    hide Run;
    var c := PatchToHere(fs, list);
    forall a, b | 0 <= a < b < |c.jpc| ensures c.jpc[a] != c.jpc[b] {
      if a < |fs.jpc| <= b { assert fs.jpc[a] in fs.jpc && list[b - |fs.jpc|] in list; }
    }
  }

  /**
   What a branch on `e` does, where `res` is what `e` computes: it continues when
   the truth of `e` is `sense`, by whichever way that is known, and leaves by a jump of
   `out` when not.
   */
  ghost predicate Branches(o: Outcome, res: Res, code: seq<Instr>, e: Exp, out: seq<nat>, sense: bool, exact: bool,
                           n: nat) {
    match res
    case RErr => o == Error
    case ROut(j, x) =>
      if j in OutList(e, !sense) then o == Fall(x)
      else o == Exit(j, x) && (j in OutList(e, sense) ==> j in out)
    case RVal(v, x) =>
      if Truthy(v) == sense then o.Fall? && Agree(o.regs, x, n)
      else
        && o.Exit? && o.j in out && Agree(o.regs, x, n)
        && (exact ==> Carried(code, o.j, !sense, o.regs) == v)
  }

  lemma GoOk(sem: Sem, fs: FS, e: Exp, start: nat, n: nat, sense: bool)
    requires EOk(fs, e, start, n) && Proper(e.k)
    ensures var (c, e1) := Go(fs, e, sense);
      var out := OutList(e1, sense);
      && Forked(fs, Owned(e), c, out, start, n) && OutList(e1, !sense) == []
      && (forall j :: j in OutList(e, sense) ==> Kept(fs.code, c.code, j))
      && forall r :: Init(fs, start, r) ==>
           Branches(Arr(sem, c, start, r), ERun(sem, fs, e, start, r), c.code, e, out, sense,
                    Discharged(e.k) ==> !Merges(fs, e, sense), n)
  {
    hide Ok, Arr, ERun, Init, Kept, Evolves, ListsOk, Shaped, Branch, Forks, Branches, IsTestSet, PatchToHere,
         DischargeVars, Go;
    var (fs1, e1) := DischargeVars(fs, e);
    DischargeVarsOk(sem, fs, e, start, n);
    EvolvesInit(fs, {}, fs1, {}, start);
    ShapedParts(fs, e, start);
    ShapedParts(fs1, e1, start);
    ProperStays(fs, e);
    BranchOk(sem, fs1, e1, start, n, sense);
    var (fs2, list) := Branch(fs1, e1, sense);
    var here := OutList(e1, !sense);
    GoShape(fs, e, sense);
    assert here == OutList(e, !sense);
    StillWaiting(fs1, fs2, e1, here);
    PatchToHereOk(sem, fs2, start, here);
    var c := PatchToHere(fs2, here);
    GoFrame(fs, e, fs1, e1, fs2, list, c, start, n, sense);
    forall r | Init(fs, start, r)
      ensures Branches(Arr(sem, c, start, r), ERun(sem, fs, e, start, r), c.code, e, OutList(e, sense) + list, sense,
                       Discharged(e.k) ==> !Merges(fs, e, sense), n)
    {
      ForksBranch(Arr(sem, fs2, start, r), ERun(sem, fs, e, start, r), c.code, e, list, sense, !Merges(fs1, e1,
          sense), n);
    }
  }

  lemma ProperStays(fs: FS, e: Exp)
    requires Proper(e.k)
    ensures Proper(DischargeVars(fs, e).1.k)
    ensures !Discharged(e.k) ==> forall s :: !Merges(DischargeVars(fs, e).0, DischargeVars(fs, e).1, s)
  {
  }

  lemma StillWaiting(fs: FS, fs2: FS, e: Exp, list: seq<nat>)
    requires ListsOk(fs, e) && (list == e.t || list == e.f)
    requires forall j :: j in e.t || j in e.f ==> Kept(fs.code, fs2.code, j) && j !in fs2.jpc
    ensures Waiting(fs2.code, list) && forall j :: j in list ==> j !in fs2.jpc
  {
    WaitingKept(fs.code, fs2.code, list);
  }

  lemma ForksBranch(o: Outcome, res: Res, code: seq<Instr>, e: Exp, list: seq<nat>, sense: bool, exact: bool, n: nat)
    requires Forks(o, res, code, list, sense, exact, n)
    requires forall j :: j in list ==> j !in e.t && j !in e.f
    ensures Branches(Arrived(o, OutList(e, !sense)), res, code, e, OutList(e, sense) + list, sense, exact, n)
  {
  }

  lemma GoFrame(fs: FS, e: Exp, fs1: FS, e1: Exp, fs2: FS, list: seq<nat>, c: FS, start: nat, n: nat, sense: bool)
    requires ListsOk(fs, e) && KindOk(fs, e) && e1.t == e.t && e1.f == e.f && e1.k.VJmp? == e.k.VJmp?
    requires e.k.VJmp? ==> (fs1, e1) == (fs, e)
    requires Evolves(fs, {}, fs1, {}) && ListsOk(fs1, e1) && KindOk(fs1, e1)
    requires Forked(fs1, Pending(e1), fs2, list, start, n)
    requires forall j :: j in list ==> j !in e.t && j !in e.f
    requires forall j :: j in e.t || j in e.f ==> Kept(fs1.code, fs2.code, j) && j !in fs2.jpc
    requires Evolves(fs2, Elems(OutList(e, !sense)), c, {}) && Ok(c, start) && c.freereg == n
    requires c == fs2.(jpc := c.jpc, lasttarget := c.lasttarget)
    requires forall j :: j in c.jpc <==> j in fs2.jpc || j in OutList(e, !sense)
    ensures Forked(fs, Owned(e), c, OutList(e, sense) + list, start, n)
    ensures forall j :: j in OutList(e, sense) ==> Kept(fs.code, c.code, j)
  {
    var out := OutList(e, sense) + list;
    AfterToReg(fs, fs1, e);
    forall j | j in e.t || j in e.f ensures Kept(fs.code, c.code, j) {
      assert Kept(fs.code, fs1.code, j) && Kept(fs1.code, fs2.code, j);
    }
    forall a, b | 0 <= a < b < |out| ensures out[a] != out[b] {
      if a < |OutList(e, sense)| <= b {
        assert out[a] in OutList(e, sense) && out[b] == list[b - |OutList(e, sense)|] && out[b] in list;
      }
    }
    forall j | j in out ensures IsWaiting(c.code, j) && j !in c.jpc {
      if j in OutList(e, sense) { assert Kept(fs.code, c.code, j); }
    }
    GoEvolves(fs, e, fs1, e1, fs2, list, c, sense);
  }

  lemma GoEvolves(fs: FS, e: Exp, fs1: FS, e1: Exp, fs2: FS, list: seq<nat>, c: FS, sense: bool)
    requires ListsOk(fs, e) && KindOk(fs, e) && e1.t == e.t && e1.f == e.f && e1.k.VJmp? == e.k.VJmp?
    requires e.k.VJmp? ==> (fs1, e1) == (fs, e)
    requires Evolves(fs, {}, fs1, {}) && Evolves(fs1, Pending(e1), fs2, Elems(list))
    requires c == fs2.(jpc := c.jpc, lasttarget := c.lasttarget)
    requires forall j :: j in c.jpc <==> j in fs2.jpc || j in OutList(e, !sense)
    ensures Evolves(fs, Owned(e), c, Elems(OutList(e, sense) + list))
  {
    forall j | IsWaiting(fs.code, j) && j !in fs.jpc && j !in Owned(e) ensures Kept(fs.code, c.code, j) {
      assert Kept(fs.code, fs1.code, j);
      assert j !in Pending(e1);
      assert Kept(fs1.code, fs2.code, j);
    }
    forall j | j in c.jpc || j in Elems(OutList(e, sense) + list)
      ensures j in fs.jpc || j in Owned(e) || j >= |fs.code| {
      if j !in e.t && j !in e.f { assert j in fs2.jpc || j in Elems(list); }
    }
  }
}
