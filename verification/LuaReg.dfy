/** exp2reg and the functions over it: a value arrives in the one register its caller expects. */
module LuaReg {
  import opened Basics
  import opened LuaVm
  import opened LuaGen
  import opened LuaRun
  import opened LuaState
  import opened LuaExp

  predicate Needs(fs: FS, e: Exp) { NeedValue(fs.code, e.t) || NeedValue(fs.code, e.f) }

  /** The state in which exp2reg patches its lists. */
  function BeforePatch(fs: FS, e: Exp, reg: nat): FS {
    if Needs(fs, e) then Labelled(fs, e.k.VJmp?, reg) else GetLabel(fs)
  }

  lemma CloseJumpsShape(fs: FS, e: Exp, reg: nat)
    requires e.k.VJmp? ==> fs.jpc == []
    ensures var b := BeforePatch(fs, e, reg);
      var n, pf := |b.code|, |b.code| - (if Needs(fs, e) then 2 else 0);
      && pf >= |fs.code|
      && CloseJumps(fs, e, reg) == b.(code := PatchListAux(PatchListAux(b.code, e.f, n, reg, pf), e.t, n, reg, pf + 1))
  {
    if Needs(fs, e) { LabelledShape(fs, e.k.VJmp?, reg); }
  }

  lemma LabelOnly(sem: Sem, fs: FS, start: nat)
    requires Ok(fs, start)
    ensures Ok(GetLabel(fs), start) && Evolves(fs, {}, GetLabel(fs), {})
    ensures forall r :: Arr(sem, GetLabel(fs), start, r) == Arr(sem, fs, start, r)
  {
  }

  lemma ServedBefore(fs: FS, e: Exp, reg: nat, b: FS)
    requires ListsOk(fs, e) && (e.k.VJmp? ==> fs.jpc == []) && b == BeforePatch(fs, e, reg)
    requires Needs(fs, e) ==> Boundary(b.code, |b.code| - 2) && Boundary(b.code, |b.code| - 1)
    ensures Served(b.code, e, reg, |b.code| - (if Needs(fs, e) then 2 else 0), Needs(fs, e))
  {
    if Needs(fs, e) { LabelledShape(fs, e.k.VJmp?, reg); }
  }

  lemma BeforePatchOk(sem: Sem, fs: FS, e: Exp, start: nat, reg: nat)
    requires Ok(fs, start) && ListsOk(fs, e) && (e.k.VJmp? ==> fs.jpc == [] && Needs(fs, e))
    ensures var b := BeforePatch(fs, e, reg);
      && Ok(b, start) && ListsOk(b, e) && b.lasttarget == |b.code| && Evolves(fs, {}, b, {})
      && Served(b.code, e, reg, |b.code| - (if Needs(fs, e) then 2 else 0), Needs(fs, e))
      && (forall j :: j in e.t || j in e.f ==> Kept(fs.code, b.code, j))
      && forall r :: Arr(sem, b, start, r) ==
           var o := Arr(sem, fs, start, r);
           if o.Fall? && e.k.VJmp? then Fall(Set(o.regs, reg, Boolean(false))) else o
  {
    hide Evolves, Kept, Waiting, Arr, Labelled, Served, Ok;
    var b := BeforePatch(fs, e, reg);
    if Needs(fs, e) {
      LabelledShape(fs, e.k.VJmp?, reg);
      LabelledOk(sem, fs, start, e.k.VJmp?, reg);
    } else { LabelOnly(sem, fs, start); }
    WaitingStays(fs, b, e.t);
    WaitingStays(fs, b, e.f);
    ServedBefore(fs, e, reg, b);
  }

  lemma KeptCarries(fs: FS, b: FS, e: Exp)
    requires forall j :: j in e.t || j in e.f ==> Kept(fs.code, b.code, j)
    ensures forall o: Res, reg :: Settle(o, b.code, e, reg) == Settle(o, fs.code, e, reg)
  {
    forall o: Res, reg ensures Settle(o, b.code, e, reg) == Settle(o, fs.code, e, reg) {
      if o.ROut? && (o.j in e.t || o.j in e.f) { assert Kept(fs.code, b.code, o.j); }
    }
  }

  lemma CloseJumpsOk(sem: Sem, fs: FS, e: Exp, start: nat, reg: nat)
    requires Ok(fs, start) && ListsOk(fs, e) && (e.k.VJmp? ==> fs.jpc == [] && Needs(fs, e)) && reg != NO_REG
    ensures var c := CloseJumps(fs, e, reg);
      && Ok(c, start) && Evolves(fs, Elems(e.t) + Elems(e.f), c, {}) && c.freereg == fs.freereg
      && forall r :: Arr(sem, c, start, r) == Close(Arr(sem, fs, start, r), fs.code, e, reg)
  {
    hide Ok, Evolves, ListsOk, Served, BeforePatch, Needs, Arr, Kept, PatchListAux, CloseJumps, Settle;
    var b := BeforePatch(fs, e, reg);
    BeforePatchOk(sem, fs, e, start, reg);
    CloseJumpsShape(fs, e, reg);
    BeforePatchRegs(fs, e, reg);
    PatchBoth(sem, b, start, e, reg, |b.code| - (if Needs(fs, e) then 2 else 0), Needs(fs, e));
    var c := CloseJumps(fs, e, reg);
    Beside(fs, b, c, e);
    KeptCarries(fs, b, e);
  }

  lemma BeforePatchRegs(fs: FS, e: Exp, reg: nat)
    ensures BeforePatch(fs, e, reg).freereg == fs.freereg
  {
  }

  lemma Beside(fs: FS, b: FS, c: FS, e: Exp)
    requires ListsOk(fs, e) && Evolves(fs, {}, b, {}) && Evolves(b, Elems(e.t) + Elems(e.f), c, {})
    ensures Evolves(fs, Elems(e.t) + Elems(e.f), c, {})
  {
    var x := Elems(e.t) + Elems(e.f);
    forall j | j in x ensures IsWaiting(fs.code, j) && j !in fs.jpc { assert j in e.t || j in e.f; }
    EvolvesBeside(fs, {}, b, {}, x);
    assert {} + x == x;
    EvolvesTrans(fs, x, b, x, c, {});
  }

  /** The lists exp2reg closes: a pending comparison counts as a jump when true. */
  function Closing(e: Exp): Exp { if e.k.VJmp? then e.(t := e.t + [e.k.pc]) else e }

  /** The code of a pending comparison, its jump included, in terms of the comparison's value. */
  function AsJump(o: Res, p: nat): Outcome {
    match o
    case RErr => Error
    case ROut(j, x) => Exit(j, x)
    case RVal(v, x) => if Truthy(v) then Exit(p, x) else Fall(x)
  }

  lemma PendingJump(sem: Sem, fs: FS, e: Exp, start: nat)
    requires Shaped(fs, e, start) && e.k.VJmp?
    ensures Ok(fs, start) && fs.jpc == []
    ensures forall r :: Arr(sem, fs, start, r) == AsJump(ERun(sem, fs, e, start, r), e.k.pc)
    ensures forall r :: var o := ERun(sem, fs, e, start, r);
      (o.RVal? ==> o.v.Boolean?) && (o.ROut? ==> o.j < e.k.pc - 1)
  {
    hide Run, CondJump;
    var b := Base(fs, e);
    WholeOk(sem, fs, e, start);
    CondJumpOk(sem, b, start, fs.code[e.k.pc - 1]);
    forall r ensures var o := ERun(sem, fs, e, start, r);
      (o.RVal? ==> o.v.Boolean?) && (o.ROut? ==> o.j < e.k.pc - 1)
    {
      ExitsWaiting(sem, b.code, start, start, |b.code|, r);
    }
  }

  lemma ClosingLists(fs: FS, e: Exp, start: nat)
    requires Shaped(fs, e, start) && e.k.VJmp?
    ensures ListsOk(fs, Closing(e)) && Needs(fs, Closing(e)) && HasJumps(Closing(e))
    ensures Owned(e) == Elems(Closing(e).t) + Elems(Closing(e).f)
    ensures forall o: Res, reg :: (o.RVal? ==> o.v.Boolean?) && (o.ROut? ==> o.j < e.k.pc - 1) ==>
      Close(AsJump(o, e.k.pc), fs.code, Closing(e), reg) == Settle(o, fs.code, e, reg)
  {
    var c, p := Closing(e), e.k.pc;
    assert c.t[|e.t|] == p;
    assert p in c.t && !IsTestSet(fs.code, p);
  }

  lemma JumpToReg(sem: Sem, fs: FS, e: Exp, start: nat, reg: nat)
    requires Shaped(fs, e, start) && e.k.VJmp? && reg != NO_REG
    ensures var (c, e1) := Exp2Reg(fs, e, reg);
      && Ok(c, start) && Evolves(fs, Owned(e), c, {}) && c.freereg == fs.freereg && e1 == Plain(VNonReloc(reg))
      && forall r :: Arr(sem, c, start, r) == Settle(ERun(sem, fs, e, start, r), fs.code, e, reg)
  {
    hide Ok, Evolves, ListsOk, Arr, CloseJumps, Settle, ERun, Needs, Close;
    PendingJump(sem, fs, e, start);
    ClosingLists(fs, e, start);
    CloseJumpsOk(sem, fs, Closing(e), start, reg);
    assert Exp2Reg(fs, e, reg).0 == CloseJumps(fs, Closing(e), reg);
    forall r ensures Arr(sem, Exp2Reg(fs, e, reg).0, start, r) == Settle(ERun(sem, fs, e, start, r), fs.code, e, reg) {
      var o := ERun(sem, fs, e, start, r);
      assert Close(AsJump(o, e.k.pc), fs.code, Closing(e), reg) == Settle(o, fs.code, e, reg);
    }
  }

  /** exp2reg: whichever way the value comes about, it ends up in `reg`, and nothing else changes there. */
  lemma Exp2RegOk(sem: Sem, fs: FS, e: Exp, start: nat, reg: nat)
    requires Shaped(fs, e, start) && Discharged(e.k) && fs.nactvar <= reg != NO_REG
    ensures var (c, e1) := Exp2Reg(fs, e, reg);
      && Ok(c, start) && Evolves(fs, Owned(e), c, {}) && c.freereg == fs.freereg && e1 == Plain(VNonReloc(reg))
      && forall r :: Init(fs, start, r) ==>
           Arr(sem, c, start, r) == Settle(ERun(sem, fs, e, start, r), fs.code, e, reg)
  {
    hide Ok, Evolves, ListsOk, Arr, ToReg, CloseJumps, Init, Settle, ERun;
    if e.k.VJmp? {
      JumpToReg(sem, fs, e, start, reg);
    } else {
      var (fs1, e1) := ToReg(fs, e, reg);
      ToRegOk(sem, fs, e, start, reg);
      AfterToReg(fs, fs1, e);
      KeptCarries(fs, fs1, e);
      if HasJumps(e1) {
        SameLists(fs1, e);
        CloseJumpsOk(sem, fs1, e1, start, reg);
        Beside(fs, fs1, CloseJumps(fs1, e1, reg), e);
      }
      PutInSettles(fs, fs1, e, e1, reg);
    }
  }

  lemma AfterToReg(fs: FS, fs1: FS, e: Exp)
    requires ListsOk(fs, e) && Evolves(fs, {}, fs1, {})
    ensures ListsOk(fs1, e) && forall j :: j in e.t || j in e.f ==> Kept(fs.code, fs1.code, j)
    ensures !e.k.VJmp? && !HasJumps(e) ==> Evolves(fs, Owned(e), fs1, {})
    ensures !e.k.VJmp? ==> Owned(e) == Elems(e.t) + Elems(e.f)
  {
    WaitingStays(fs, fs1, e.t);
    WaitingStays(fs, fs1, e.f);
  }

  lemma PutInSettles(fs: FS, fs1: FS, e: Exp, e1: Exp, reg: nat)
    requires e1 == e.(k := VNonReloc(reg))
    requires forall o: Res :: Settle(o, fs1.code, e, reg) == Settle(o, fs.code, e, reg)
    ensures forall o: Res :: Close(PutIn(o, reg), fs1.code, e1, reg) == Settle(o, fs.code, e, reg)
    ensures !HasJumps(e) ==> forall o: Res :: PutIn(o, reg) == Settle(o, fs.code, e, reg)
  {
    hide Settle, PutIn, Close;
    forall o: Res ensures Close(PutIn(o, reg), fs1.code, e1, reg) == Settle(o, fs.code, e, reg) {
      assert Settle(o, fs1.code, e, reg) == Settle(o, fs.code, e, reg);
      CloseSettles(o, fs1.code, e, e1, reg);
    }
    forall o: Res ensures !HasJumps(e) ==>
        PutIn(o, reg) == Settle(o, fs.code, e, reg) { PlainSettles(o, fs.code, e, reg); }
  }

  lemma PlainSettles(o: Res, code: seq<Instr>, e: Exp, reg: nat)
    ensures !HasJumps(e) ==> PutIn(o, reg) == Settle(o, code, e, reg)
  {
  }

  lemma CloseSettles(o: Res, code: seq<Instr>, e: Exp, e1: Exp, reg: nat)
    requires e1 == e.(k := VNonReloc(reg))
    ensures Close(PutIn(o, reg), code, e1, reg) == Settle(o, code, e, reg)
  {
    match o
    case RErr =>
    case RVal(v, x) =>
    case ROut(j, x) => assert Settled(o, code, e1) == Settled(o, code, e);
  }

  // ---- luaK_exp2nextreg and its relatives -----------------------------------

  /** Register use is no part of a descriptor's shape. */
  lemma ShapedRegs(sem: Sem, fs: FS, e: Exp, start: nat, n: nat)
    requires Shaped(fs, e, start) && n >= fs.nactvar
    ensures var c := fs.(freereg := n);
      && Shaped(c, e, start)
      && (forall r :: ERun(sem, c, e, start, r) == ERun(sem, fs, e, start, r))
      && (forall r :: Init(c, start, r) == Init(fs, start, r))
  {
    var c := fs.(freereg := n);
    var b := Base(fs, e);
    assert Base(c, e) == b.(freereg := n);
    assert Ok(b.(freereg := n), start);
  }

  lemma DischargedOwns(fs: FS, e: Exp, fs1: FS, e1: Exp, c: FS)
    requires ListsOk(fs, e) && Evolves(fs, {}, fs1, {}) && Evolves(fs1, Owned(e1), c, {})
    requires e1.t == e.t && e1.f == e.f && e1.k.VJmp? == e.k.VJmp? && (e.k.VJmp? ==> (fs1, e1) == (fs, e))
    requires KindOk(fs, e)
    ensures Evolves(fs, Owned(e), c, {})
    ensures forall j :: j in e.t || j in e.f ==> Kept(fs.code, fs1.code, j)
  {
    AfterToReg(fs, fs1, e);
    if !e.k.VJmp? {
      assert Owned(e1) == Owned(e) == Elems(e.t) + Elems(e.f);
      Beside(fs, fs1, c, e);
    }
  }

  lemma Exp2NextRegOk(sem: Sem, fs: FS, e: Exp, start: nat, n: nat)
    requires EOk(fs, e, start, n) && n < NO_REG
    ensures var (c, e1) := Exp2NextReg(fs, e);
      && Ok(c, start) && Evolves(fs, Owned(e), c, {}) && c.freereg == n + 1 && e1 == Plain(VNonReloc(n))
      && forall r :: Init(fs, start, r) ==>
           Arr(sem, c, start, r) == Settle(ERun(sem, fs, e, start, r), fs.code, e, n)
  {
    hide Shaped, Ok, Evolves, ListsOk, Arr, Settle, ERun, Init, Exp2Reg, Kept;
    var (fs1, e1) := DischargeVars(fs, e);
    DischargeVarsOk(sem, fs, e, start, n);
    var fs2 := fs1.(freereg := n + 1);
    assert ReserveRegs(FreeExp(fs1, e1), 1) == fs2;
    ShapedRegs(sem, fs1, e1, start, n + 1);
    Exp2RegOk(sem, fs2, e1, start, n);
    var c := Exp2Reg(fs2, e1, n).0;
    EvolvesRegs(fs1, n + 1, c, Owned(e1), {});
    ShapedParts(fs, e, start);
    DischargedOwns(fs, e, fs1, e1, c);
    KeptCarries(fs, fs1, e);
    SettleLists(fs1, e, e1, n);
    EvolvesInit(fs, {}, fs1, {}, start);
  }

  lemma ShapedParts(fs: FS, e: Exp, start: nat)
    requires Shaped(fs, e, start)
    ensures ListsOk(fs, e) && KindOk(fs, e)
  {
  }

  lemma SettleLists(fs: FS, e: Exp, e1: Exp, reg: nat)
    requires e1.t == e.t && e1.f == e.f
    ensures forall o: Res :: Settle(o, fs.code, e1, reg) == Settle(o, fs.code, e, reg)
  {
  }

  lemma EvolvesInit(fs: FS, o: set<nat>, c: FS, o': set<nat>, start: nat)
    requires Evolves(fs, o, c, o')
    ensures c.nactvar == fs.nactvar
    ensures forall r :: Init(c, start, r) == Init(fs, start, r)
  {
  }

  // ---- operands -------------------------------------------------------------

  ghost predicate Agree(x: Regs, y: Regs, n: nat) { forall a :: 0 <= a < n ==> Get(x, a) == Get(y, a) }

  /** After a run with outcome `o` the operand holds the value; registers below `n` are as the expression left them. */
  ghost predicate Loads(o: Outcome, res: Res, rk: RK, n: nat) {
    match res
    case RErr => o == Error
    case ROut(j, x) => o == Exit(j, x)
    case RVal(v, x) => o.Fall? && RkValue(o.regs, rk) == v && Agree(o.regs, x, n)
  }

  /** A descriptor that only names a register. */
  predicate InReg(e: Exp) { e.k.VNonReloc? && !HasJumps(e) }

  /** An operand's register is a variable's or the first free one. */
  predicate OperandOk(fs: FS, rk: RK, n: nat) { RegsOk(fs, if rk.R? then VNonReloc(rk.reg) else VNil, n) }

  lemma PutInLoads(res: Res, n: nat)
    ensures Loads(PutIn(res, n), res, R(n), n)
  {
  }

  lemma RegOk(fs: FS, start: nat, n: nat)
    requires Ok(fs, start) && fs.freereg == n + 1 && n >= fs.nactvar
    ensures EOk(fs, Plain(VNonReloc(n)), start, n)
  {
  }

  lemma InRegLoads(sem: Sem, fs: FS, e: Exp, start: nat, n: nat)
    requires EOk(fs, e, start, n) && InReg(e)
    ensures Ok(fs, start)
    ensures forall r :: Loads(Arr(sem, fs, start, r), ERun(sem, fs, e, start, r), R(e.k.reg), n)
  {
  }

  lemma SettledSame(fs: FS, fs1: FS, e: Exp, e1: Exp)
    requires e1.t == e.t && e1.f == e.f
    requires forall j :: j in e.t || j in e.f ==> Kept(fs.code, fs1.code, j)
    ensures forall o :: Settled(o, fs1.code, e1) == Settled(o, fs.code, e)
    ensures !HasJumps(e) ==> forall o :: Settled(o, fs.code, e) == o
  {
    forall o ensures Settled(o, fs1.code, e1) == Settled(o, fs.code, e) {
      if o.ROut? && (o.j in e.t || o.j in e.f) { assert Kept(fs.code, fs1.code, o.j); }
    }
  }

  /** luaK_exp2anyreg: the value, by whichever way it comes, is in the register named. */
  lemma Exp2AnyRegOk(sem: Sem, fs: FS, e: Exp, start: nat, n: nat)
    requires EOk(fs, e, start, n) && n < NO_REG
    ensures var (c, e1) := Exp2AnyReg(fs, e);
      && EOk(c, e1, start, n) && InReg(e1) && Evolves(fs, Owned(e), c, {}) && Ok(c, start)
      && forall r :: Init(fs, start, r) ==>
           Loads(Arr(sem, c, start, r), Settled(ERun(sem, fs, e, start, r), fs.code, e), R(e1.k.reg), n)
  {
    hide Shaped, Ok, Evolves, ListsOk, Arr, Settled, ERun, Init, Exp2Reg, Exp2NextReg, Kept, Loads, DischargeVars;
    var (fs1, e1) := DischargeVars(fs, e);
    DischargeVarsOk(sem, fs, e, start, n);
    ShapedParts(fs, e, start);
    var (c, e2) := Exp2AnyReg(fs, e);
    EvolvesInit(fs, {}, fs1, {}, start);
    if e1.k.VNonReloc? && !HasJumps(e1) {
      InRegLoads(sem, fs1, e1, start, n);
      Unchanged(fs1, Owned(e1));
      NothingOwned(fs1, e1);
    } else {
      if e1.k.VNonReloc? && e1.k.reg >= fs1.nactvar {
        Exp2RegOk(sem, fs1, e1, start, n);
      } else {
        Exp2NextRegOk(sem, fs1, e1, start, n);
      }
      EvolvesInit(fs1, Owned(e1), c, {}, start);
      RegOk(c, start, n);
      forall res { PutInLoads(res, n); }
    }
    DischargedOwns(fs, e, fs1, e1, c);
    SettledSame(fs, fs1, e, e1);
  }

  lemma NothingOwned(fs: FS, e: Exp)
    requires !HasJumps(e) && !e.k.VJmp?
    ensures Owned(e) == {} && Evolves(fs, Owned(e), fs, {})
  {
  }

  /** The result of a descriptor in place of another's: the same value, the same registers below `n`. */
  ghost predicate SameRes(got: Res, was: Res, n: nat) {
    match was
    case RVal(v, x) => got.RVal? && got.v == v && Agree(got.regs, x, n)
    case _ => got == was
  }

  lemma LoadedRes(sem: Sem, fs: FS, e: Exp, start: nat, n: nat)
    requires InReg(e)
    ensures forall r, res :: Loads(Arr(sem, fs, start, r), res, R(e.k.reg), n) ==>
        SameRes(ERun(sem, fs, e, start, r), res, n)
  {
  }

  /** luaK_exp2val */
  lemma Exp2ValOk(sem: Sem, fs: FS, e: Exp, start: nat, n: nat)
    requires EOk(fs, e, start, n) && n < NO_REG
    ensures var (c, e1) := Exp2Val(fs, e);
      && EOk(c, e1, start, n) && !HasJumps(e1) && Discharged(e1.k) && Evolves(fs, Owned(e), c, Owned(e1))
      && forall r :: Init(fs, start, r) ==>
           SameRes(ERun(sem, c, e1, start, r), Settled(ERun(sem, fs, e, start, r), fs.code, e), n)
  {
    hide Shaped, Ok, Evolves, ListsOk, Arr, Settled, ERun, Init, Kept, Loads, DischargeVars, Exp2AnyReg;
    if HasJumps(e) {
      Exp2AnyRegOk(sem, fs, e, start, n);
      var (c, e1) := Exp2AnyReg(fs, e);
      LoadedRes(sem, c, e1, start, n);
      NothingOwned(c, e1);
    } else {
      DischargeVarsOk(sem, fs, e, start, n);
      var (c, e1) := DischargeVars(fs, e);
      NoJumpsOwned(fs, e, c, e1, start);
    }
  }

  lemma NoJumpsOwned(fs: FS, e: Exp, c: FS, e1: Exp, start: nat)
    requires Shaped(fs, e, start) && Evolves(fs, {}, c, {}) && e1.t == e.t && e1.f == e.f && !HasJumps(e)
    requires e.k.VJmp? ==> e1 == e && c == fs
    requires e1.k.VJmp? == e.k.VJmp?
    ensures Evolves(fs, Owned(e), c, Owned(e1))
    ensures forall o :: Settled(o, fs.code, e) == o
  {
  }

  lemma ConstLoads(sem: Sem, fs: FS, e: Exp, start: nat, n: nat)
    requires EOk(fs, e, start, n) && !HasJumps(e) && ConstOf(e.k).Some?
    ensures var c := AddK(fs, ConstOf(e.k).value);
      && EOk(c, e.(k := VK(ConstOf(e.k).value)), start, n) && Ok(c, start) && Evolves(fs, {}, c, {})
      && forall r, res :: SameRes(ERun(sem, fs, e, start, r), res, n) ==>
           Loads(Arr(sem, c, start, r), res, K(ConstOf(e.k).value), n)
  {
    AddKSame(sem, fs, start, ConstOf(e.k).value);
  }

  /** luaK_exp2RK: afterwards the operand holds the value. */
  lemma Exp2RKOk(sem: Sem, fs: FS, e: Exp, start: nat, n: nat)
    requires EOk(fs, e, start, n) && n < NO_REG
    ensures var (c, e1, rk) := Exp2RK(fs, e);
      && EOk(c, e1, start, n) && !HasJumps(e1) && Ok(c, start) && Evolves(fs, Owned(e), c, {})
      && e1.k == (if rk.R? then VNonReloc(rk.reg) else VK(rk.value))
      && forall r :: Init(fs, start, r) ==>
           Loads(Arr(sem, c, start, r), Settled(ERun(sem, fs, e, start, r), fs.code, e), rk, n)
  {
    hide Shaped, Ok, Evolves, ListsOk, Arr, Settled, ERun, Init, Kept, Loads, DischargeVars, Exp2AnyReg, Exp2Val,
         SameRes;
    var (fs1, e1) := Exp2Val(fs, e);
    Exp2ValOk(sem, fs, e, start, n);
    EvolvesInit(fs, Owned(e), fs1, Owned(e1), start);
    var (c, e2, rk) := Exp2RK(fs, e);
    var value := ConstOf(e1.k);
    if value.Some? && (if e1.k.VK? then IndexK(fs1.k, value.value) else |fs1.k|) <= MAX_INDEX_RK {
      NothingOwned(fs1, e1);
      ConstLoads(sem, fs1, e1, start, n);
      EvolvesTrans(fs, Owned(e), fs1, {}, c, {});
    } else {
      Exp2AnyRegOk(sem, fs1, e1, start, n);
      NoJumpsSettled(fs1, e1);
      forall r, got, was { LoadsThrough(Arr(sem, c, start, r), got, was, rk, n); }
      EvolvesTrans(fs, Owned(e), fs1, Owned(e1), c, {});
    }
  }

  lemma NoJumpsSettled(fs: FS, e: Exp)
    requires !HasJumps(e)
    ensures forall o :: Settled(o, fs.code, e) == o
  {
  }

  lemma LoadsThrough(o: Outcome, got: Res, was: Res, rk: RK, n: nat)
    ensures Loads(o, got, rk, n) && SameRes(got, was, n) ==> Loads(o, was, rk, n)
  {
  }
}
