/** Where this generator delivers another value than the source means, and exactly when. */
module LuaFailures {
  import opened Basics
  import opened LuaVm
  import opened LuaGen
  import opened LuaRun
  import opened LuaState
  import opened LuaExp
  import opened LuaReg
  import opened LuaCond
  import opened LuaSound
  import opened LuaTheorems

  // ---- the bare jump of a constant ----------------------------------------------

  /** luaK_goiftrue (`sense`) or luaK_goiffalse emits a bare jump for this constant. */
  predicate Bare(e: Exp, sense: bool) { if sense then e.k.VFalse? else e.k.VTrue? }

  /** What a jump brings when it is not the constant itself. */
  predicate Brings(code: seq<Instr>, j: nat, truth: bool, x: Regs) {
    IsTestSet(code, j) && Get(x, code[Control(code, j)].b) != Boolean(truth)
  }

  /**
   The bare jump takes the jumps that were waiting for it into its list. A run that arrives by
   one of them leaves by the list with the right value exactly when that jump brings no value
   of its own, or happens to bring the constant.
   */
  lemma MergedValue(sem: Sem, fs: FS, e: Exp, start: nat, n: nat, sense: bool, r: Regs, j: nat, x: Regs)
    requires EOk(fs, e, start, n) && Bare(e, sense)
    requires Run(sem, fs.code, start, |fs.code|, r) == Exit(j, x) && j in fs.jpc
    ensures var (c, e1) := Go(fs, e, sense);
      && Arr(sem, c, start, r) == Exit(j, x) && j in OutList(e1, sense)
      && (Carried(c.code, j, !sense, x) == Boolean(!sense) <==> !Brings(fs.code, j, !sense, x))
      && (IsTestSet(fs.code, j) ==> Carried(c.code, j, !sense, x) == Get(x, fs.code[Control(fs.code, j)].b))
  {
    hide GoIfTrue, GoIfFalse;
    var (d, list) := Jump(fs);
    assert d.code == fs.code + [Jmp(None)];
    RunExtend(sem, fs.code, d.code, start, start, |d.code|, r);
    BareGo(fs, e, sense);
    assert list[1..] == fs.jpc && j in list;
  }

  lemma BareGo(fs: FS, e: Exp, sense: bool)
    requires Bare(e, sense)
    ensures var (c, e1) := Go(fs, e, sense);
      var (d, list) := Jump(fs);
      c == PatchToHere(d, OutList(e, !sense)) && OutList(e1, sense) == OutList(e, sense) + list
  {
    hide Jump, JumpOnCond;
  }

  /** A run that falls into the bare jump leaves by it, with the constant. */
  lemma BareValue(sem: Sem, fs: FS, e: Exp, start: nat, n: nat, sense: bool, r: Regs, x: Regs)
    requires EOk(fs, e, start, n) && Bare(e, sense) && Run(sem, fs.code, start, |fs.code|, r) == Fall(x)
    ensures var c := Go(fs, e, sense).0;
      Arr(sem, c, start, r) == Exit(|fs.code|, x) && Carried(c.code, |fs.code|, !sense, x) == Boolean(!sense)
  {
    hide GoIfTrue, GoIfFalse;
    var (d, list) := Jump(fs);
    assert d.code == fs.code + [Jmp(None)];
    RunExtend(sem, fs.code, d.code, start, start, |d.code|, r);
    assert Run(sem, d.code, |fs.code|, |d.code|, x) == Exit(|fs.code|, x);
    BareGo(fs, e, sense);
    EndBoundary(fs.code, start);
    assert Go(fs, e, sense).0.code == d.code && Go(fs, e, sense).0.jpc == [] + OutList(e, !sense);
  }

  /** The run arrives at the constant by a jump that brings another value. */
  ghost predicate Spoiled(sem: Sem, fs: FS, start: nat, truth: bool, r: Regs) {
    match Run(sem, fs.code, start, |fs.code|, r)
    case Exit(j, x) => j in fs.jpc && Brings(fs.code, j, truth, x)
    case _ => false
  }

  /** The value that a spoiled run brings */
  ghost function Brought(sem: Sem, fs: FS, start: nat, r: Regs): Value {
    match Run(sem, fs.code, start, |fs.code|, r)
    case Exit(j, x) => if IsTestSet(fs.code, j) then Get(x, fs.code[Control(fs.code, j)].b) else Nil
    case _ => Nil
  }

  /** Run by run, a branch on the constant is exact unless the run is spoiled. */
  lemma BranchUnspoiled(sem: Sem, fs: FS, e: Exp, start: nat, n: nat, sense: bool, r: Regs)
    requires EOk(fs, e, start, n) && Bare(e, sense) && !Spoiled(sem, fs, start, !sense, r)
    requires var (c, e1) := Go(fs, e, sense);
      Branches(Arr(sem, c, start, r), ERun(sem, fs, e, start, r), c.code, e, OutList(e1, sense), sense, false, n)
    ensures var (c, e1) := Go(fs, e, sense);
      Branches(Arr(sem, c, start, r), ERun(sem, fs, e, start, r), c.code, e, OutList(e1, sense), sense, true, n)
  {
    hide Go, Shaped;
    match Run(sem, fs.code, start, |fs.code|, r)
    case Fall(x) => BareValue(sem, fs, e, start, n, sense, r, x);
    case Exit(j, x) => if j in fs.jpc { MergedValue(sem, fs, e, start, n, sense, r, j, x); }
    case Error =>
  }

  // ---- an `and' or `or' whose first operand ends in such a constant ---------------

  /** What of ChoiceOk does not depend on the value that is brought */
  lemma ChoiceRun(sem: Sem, fs: FS, fs1: FS, e1: Exp, fs3: FS, e3: Exp, a: Expr, b: Expr, start: nat, sense: bool,
                  r: Regs)
    requires var n := fs.freereg;
      && Ok(fs, start) && fs.nactvar <= n && Init(fs, start, r)
      && Done(sem, fs, fs1, e1, a, start, true, n)
      && Done(sem, Go(fs1, e1, sense).0, fs3, e3, b, start, true, n)
    ensures var (fs2, e2) := Go(fs1, e1, sense);
      var out := OutList(e2, sense);
      && Branches(Arr(sem, fs2, start, r), ERun(sem, fs1, e1, start, r), fs2.code, e1, out, sense, false, fs.freereg)
      && Computes(sem, Arr(sem, fs, start, r), ERun(sem, fs1, e1, start, r), fs1.code, e1, a, true, fs.freereg)
      && Computes(sem, Arr(sem, fs2, start, r), ERun(sem, fs3, e3, start, r), fs3.code, e3, b, true, fs.freereg)
      && ERun(sem, fs3, Joined(e3, out, sense), start, r) == ERun(sem, fs3, e3, start, r)
      && (forall j :: j in out ==> j !in e3.t && j !in e3.f && Kept(fs2.code, fs3.code, j))
      && (forall j :: j in OutList(e1, sense) ==> Kept(fs1.code, fs2.code, j))
      && (forall j :: j in e1.t ==> j !in e1.f)
      && (Arr(sem, fs, start, r).Exit? ==> Arr(sem, fs, start, r).j !in out)
  {
    hide Ok, EOk, Init, Evolves, ERun, Arr, Go, Kept, Merges, Computes, Branches, Joined, ListsOk, Waiting;
    var n := fs.freereg;
    var (fs2, e2) := Go(fs1, e1, sense);
    var out := OutList(e2, sense);
    GoOk(sem, fs1, e1, start, n, sense);
    EvolvesTrans(fs, {}, fs1, Owned(e1), fs2, Elems(out));
    EvolvesInit(fs, {}, fs1, Owned(e1), start);
    EvolvesInit(fs, {}, fs2, Elems(out), start);
    OutWaits(fs2, out);
    EvolvesBeside(fs2, {}, fs3, Owned(e3), Elems(out));
    WaitingKept(fs2.code, fs3.code, out);
    JoinedOk(sem, fs3, e3, out, sense, start, n);
    EOkLists(fs1, e1, start, n);
    Foreign(sem, fs, start, fs2, Elems(out), r);
    WeakerBranch(Arr(sem, fs2, start, r), ERun(sem, fs1, e1, start, r), fs2.code, e1, out, sense,
                 Discharged(e1.k) ==> !Merges(fs1, e1, sense), false, n);
    OwnedLists(e3);
  }

  /** Both operands, each right by itself */
  ghost predicate TwoFit(sem: Sem, fs: FS, p: Expr, c: Expr, start: nat, sense: bool) {
    var (fs1, e1) := Gen(sem, fs, p);
    var x := Choice(p, c, sense);
    && Ok(fs, start) && Scoped(x, fs.nactvar) && fs.freereg + Height(x) < MAXSTACK
    && Exact(sem, fs, p, true) && Exact(sem, Go(fs1, e1, sense).0, c, true)
  }

  lemma TwoDone(sem: Sem, fs: FS, p: Expr, c: Expr, start: nat, sense: bool)
    requires TwoFit(sem, fs, p, c, start, sense)
    ensures var n := fs.freereg;
      var (fs1, e1) := Gen(sem, fs, p);
      var (fs2, e2) := Go(fs1, e1, sense);
      var (fs4, e4) := DischargeVars(Gen(sem, fs2, c).0, Gen(sem, fs2, c).1);
      && Done(sem, fs, fs1, e1, p, start, true, n) && Done(sem, fs2, fs4, e4, c, start, true, n) && fs2.freereg == n
      && Gen(sem, fs, Choice(p, c, sense)) == (fs4, Joined(e4, OutList(e2, sense), sense))
      && EOk(fs4, Joined(e4, OutList(e2, sense), sense), start, n)
      && Evolves(fs, {}, fs4, Owned(Joined(e4, OutList(e2, sense), sense)))
      && Ok(fs, start) && fs.nactvar <= n && n < NO_REG && Scoped(c, fs.nactvar) && EOk(fs1, e1, start, n)
          && Evolves(fs, {}, fs1, Owned(e1))
  {
    hide Ok, Done, EOk, Evolves, Go, Gen, DischargeVars, Joined, TwoFit, Init, Scoped, Height;
    var n := fs.freereg;
    FirstFits(sem, fs, p, c, start, sense);
    GenOk(sem, fs, p, start, true);
    var (fs1, e1) := Gen(sem, fs, p);
    var (fs2, e2) := Go(fs1, e1, sense);
    SecondFits(sem, fs, p, c, start, sense);
    GenOk(sem, fs2, c, start, true);
    var (fs3, e3) := Gen(sem, fs2, c);
    DischargeDone(sem, fs2, fs3, e3, c, start, true, n);
    var (fs4, e4) := DischargeVars(fs3, e3);
    DoneWeaker(sem, fs, fs1, e1, p, start, n, false);
    DoneWeaker(sem, fs2, fs4, e4, c, start, n, false);
    ChoiceOk(sem, fs, fs1, e1, fs4, e4, p, c, start, sense, false);
    DoneParts(sem, fs, fs1, e1, p, start, true, n);
    DoneParts(sem, fs, fs4, Joined(e4, OutList(e2, sense), sense), Choice(p, c, sense), start, false, n);
    ChoiceGen(sem, fs, p, c, sense);
  }

  lemma DoneParts(sem: Sem, fs: FS, c: FS, e: Exp, x: Expr, start: nat, exact: bool, n: nat)
    requires Done(sem, fs, c, e, x, start, exact, n)
    ensures EOk(c, e, start, n) && Proper(e.k) && c.nactvar == fs.nactvar && Evolves(fs, {}, c, Owned(e))
  {
  }

  lemma ChoiceGen(sem: Sem, fs: FS, p: Expr, c: Expr, sense: bool)
    ensures var (fs1, e1) := Gen(sem, fs, p);
      var (fs2, e2) := Go(fs1, e1, sense);
      var (fs4, e4) := DischargeVars(Gen(sem, fs2, c).0, Gen(sem, fs2, c).1);
      Gen(sem, fs, Choice(p, c, sense)) == (fs4, Joined(e4, OutList(e2, sense), sense))
  {
    hide GoIfTrue, GoIfFalse, DischargeVars, InfixArith, InfixComp, CodeArith, CodeComp, CodeNot, CodeMinus, CodeLen,
         Exp2AnyReg, Exp2Val,
         Exp2RK, AddK;
  }

  lemma FirstFits(sem: Sem, fs: FS, p: Expr, c: Expr, start: nat, sense: bool)
    requires TwoFit(sem, fs, p, c, start, sense)
    ensures Fits(sem, fs, p, start, true) && fs.nactvar <= fs.freereg < NO_REG && Ok(fs, start) && Scoped(c, fs.nactvar)
  {
    hide Exact;
    OkRegs(fs, start);
  }

  lemma SecondFits(sem: Sem, fs: FS, p: Expr, c: Expr, start: nat, sense: bool)
    requires TwoFit(sem, fs, p, c, start, sense)
    requires Done(sem, fs, Gen(sem, fs, p).0, Gen(sem, fs, p).1, p, start, true, fs.freereg)
    ensures var fs2 := Go(Gen(sem, fs, p).0, Gen(sem, fs, p).1, sense).0;
      Fits(sem, fs2, c, start, true) && fs2.freereg == fs.freereg && fs2.nactvar == fs.nactvar
  {
    hide Exact, Done, Ok, EOk, Go, Gen;
    var (fs1, e1) := Gen(sem, fs, p);
    DoneFacts(sem, fs, fs1, e1, p, start, true, fs.freereg);
    GoNext(sem, fs1, e1, start, fs.freereg, sense);
  }

  /**
   Where the first operand of `and` ends as the constant false, or that of `or` as the constant
   true, the value is the right one exactly when the run is not spoiled; every
   other part of the behaviour is right either way.
   */
  lemma MergedChoice(sem: Sem, fs: FS, p: Expr, c: Expr, start: nat, sense: bool, y: Regs, r: Regs)
    requires TwoFit(sem, fs, p, c, start, sense) && Bare(Gen(sem, fs, p).1, sense)
    requires Init(fs, start, r) && Arr(sem, fs, start, r) == Fall(y)
    ensures var x := Choice(p, c, sense);
      var o, v := Arr(sem, ToNextReg(sem, fs, x), start, r), Eval(sem, x, y);
      if v.None? then o == Error
      else
        && o.Fall? && Agree(o.regs, y, fs.freereg)
        && (Get(o.regs, fs.freereg) == v.value <==> !Spoiled(sem, Gen(sem, fs, p).0, start, !sense, r))
        && (Spoiled(sem, Gen(sem, fs, p).0, start, !sense, r) ==>
              v.value == Boolean(!sense) && Get(o.regs, fs.freereg) == Brought(sem, Gen(sem, fs, p).0, start, r))
  {
    hide Ok, Done, EOk, Init, Evolves, ERun, Arr, Go, Gen, Eval, TwoFit, Joined, Settle, Exp2NextReg, Spoiled, Brought,
         Computes, Branches, Kept;
    var n := fs.freereg;
    TwoDone(sem, fs, p, c, start, sense);
    var (fs1, e1) := Gen(sem, fs, p);
    var (fs2, e2) := Go(fs1, e1, sense);
    var out := OutList(e2, sense);
    var (fs4, e4) := DischargeVars(Gen(sem, fs2, c).0, Gen(sem, fs2, c).1);
    var j := Joined(e4, out, sense);
    Exp2NextRegOk(sem, fs4, j, start, n);
    EvolvesInit(fs, {}, fs4, Owned(j), start);
    ChoiceRun(sem, fs, fs1, e1, fs4, e4, p, c, start, sense, r);
    var res := ERun(sem, fs4, j, start, r);
    assert Arr(sem, ToNextReg(sem, fs, Choice(p, c, sense)), start, r) == Settle(res, fs4.code, j, n);
    if Spoiled(sem, fs1, start, !sense, r) {
      SpoiledValue(sem, fs1, e1, fs2, e2, fs4, e4, p, c, start, n, sense, y, r);
    } else {
      BranchUnspoiled(sem, fs1, e1, start, n, sense, r);
      ChoiceComputes(sem, Fall(y), ERun(sem, fs1, e1, start, r), Arr(sem, fs2, start, r), res, fs1.code, fs2.code,
          fs4.code,
                     e1, out, e4, p, c, sense, true, n, fs.nactvar);
      ComputesSettled(sem, Fall(y), res, fs4.code, j, Choice(p, c, sense), n);
      SettledPut(sem, Settled(res, fs4.code, j), y, Choice(p, c, sense), n);
      assert Settle(res, fs4.code, j, n) == PutIn(Settled(res, fs4.code, j), n) by { SettleIs(res, fs4.code, j, n); }
    }
  }

  lemma SettleIs(res: Res, code: seq<Instr>, e: Exp, n: nat)
    ensures Settle(res, code, e, n) == PutIn(Settled(res, code, e), n)
  {
  }

  lemma SpoiledValue(sem: Sem, fs1: FS, e1: Exp, fs2: FS, e2: Exp, fs4: FS, e4: Exp, p: Expr, c: Expr,
                     start: nat, n: nat, sense: bool, y: Regs, r: Regs)
    requires EOk(fs1, e1, start, n) && Bare(e1, sense) && Spoiled(sem, fs1, start, !sense, r)
    requires (fs2, e2) == Go(fs1, e1, sense)
    requires var out := OutList(e2, sense);
      && Branches(Arr(sem, fs2, start, r), ERun(sem, fs1, e1, start, r), fs2.code, e1, out, sense, false, n)
      && Computes(sem, Fall(y), ERun(sem, fs1, e1, start, r), fs1.code, e1, p, true, n)
      && Computes(sem, Arr(sem, fs2, start, r), ERun(sem, fs4, e4, start, r), fs4.code, e4, c, true, n)
      && ERun(sem, fs4, Joined(e4, out, sense), start, r) == ERun(sem, fs4, e4, start, r)
      && (forall j :: j in out ==> j !in e4.t && j !in e4.f && Kept(fs2.code, fs4.code, j))
    ensures var j := Joined(e4, OutList(e2, sense), sense);
      var o, v := Settle(ERun(sem, fs4, j, start, r), fs4.code, j, n), Eval(sem, Choice(p, c, sense), y);
      && v == Some(Boolean(!sense)) && o.Fall? && Agree(o.regs, y, n)
      && Get(o.regs, n) == Brought(sem, fs1, start, r) != v.value
  {
    hide Go, Shaped, Carried, Kept, Eval, IsTestSet, Control;
    var at := Run(sem, fs1.code, start, |fs1.code|, r);
    MergedValue(sem, fs1, e1, start, n, sense, r, at.j, at.regs);
    EvalChoice(sem, p, c, sense, y);
    KeptCarried(fs2.code, fs4.code, at.j);
    JoinedLists(e4, OutList(e2, sense), sense);
    assert ERun(sem, fs1, e1, start, r) == RVal(Boolean(!sense), at.regs);
  }

  // ---- and when that is, for two operands before the constant ----------------------

  /** An operand whose branch is a TESTSET on a register: no constant, comparison, or negation */
  predicate Tests(fs: FS, e: Exp) {
    && !HasJumps(e) && !e.k.VJmp? && ConstOf(e.k).None?
    && (e.k.VReloc? ==> |fs.code| > 0 && !fs.code[|fs.code| - 1].Not?)
  }

  lemma TestsDischarged(fs: FS, e: Exp)
    requires Tests(fs, e)
    ensures var (fs1, e1) := DischargeVars(fs, e); Tests(fs1, e1) && Discharged(e1.k)
  {
  }

  /** The branch on such an operand: one jump, with a TESTSET, and nothing pending */
  lemma TestsBranch(fs: FS, e: Exp, sense: bool)
    requires Tests(fs, e.(t := [], f := [])) && Discharged(e.k)
    ensures var (c, list) := Branch(fs, e, sense);
      c.jpc == [] && |list| == 1 && list[0] >= |fs.code| && list[0] < |c.code| && IsTestSet(c.code, list[0])
  {
    var (fs1, e1) := Discharge2AnyReg(fs, e);
    AnyRegLonger(fs, e);
    CondJumpShape(FreeExp(fs1, e1), TestSet(NO_REG, if e1.k.VNonReloc? then e1.k.reg else 0, !sense));
    hide Discharge2AnyReg, CondJump, FreeExp;
    assert Branch(fs, e, sense) == JumpOnCond(fs, e, !sense);
  }

  lemma AnyRegLonger(fs: FS, e: Exp)
    ensures var (c, e1) := Discharge2AnyReg(fs, e); |FreeExp(c, e1).code| >= |fs.code|
  {
    hide Code;
  }

  /** The branch on the first operand */
  lemma TestsGo(fs: FS, e: Exp, sense: bool)
    requires Tests(fs, e)
    ensures var (c, e1) := Go(fs, e, sense);
      var out := OutList(e1, sense);
      |out| == 1 && IsTestSet(c.code, out[0]) && out[0] < |c.code| && (Discharged(e.k) ==> !Merges(fs, e, sense))
  {
    hide Go, DischargeVars, Branch;
    TestsDischarged(fs, e);
    var (fs1, e1) := DischargeVars(fs, e);
    SameLists(fs, e);
    assert e1.(t := [], f := []) == e1;
    TestsBranch(fs1, e1, sense);
    GoShape(fs, e, sense);
  }

  lemma SameLists(fs: FS, e: Exp)
    ensures DischargeVars(fs, e).1.t == e.t && DischargeVars(fs, e).1.f == e.f
  {
  }

  /** The constant that luaK_goiftrue (`sense`) or luaK_goiffalse always leaves for */
  function Leaving(sense: bool): Expr { if sense then EFalse else ETrue }

  /** `(a and b) or true`, or `(a or b) and false` with `sense` */
  function Lost(a: Expr, b: Expr, sense: bool): Expr { Choice(Choice(a, b, !sense), Leaving(sense), sense) }

  lemma LostGen(sem: Sem, fs: FS, a: Expr, b: Expr, sense: bool)
    ensures var (fq, q) := Gen(sem, fs, Choice(a, b, !sense));
      var (c, p) := Gen(sem, fs, Lost(a, b, sense));
      c == Go(fq, q, sense).0 && Bare(p, sense)
  {
    hide Go;
    ChoiceGen(sem, fs, Choice(a, b, !sense), Leaving(sense), sense);
  }

  /** Both operands of `(a and b)' branch on a register. */
  ghost predicate BothTest(sem: Sem, fs: FS, a: Expr, b: Expr, start: nat, sense: bool) {
    var (fa, ea) := Gen(sem, fs, a);
    var (fb, eb) := Gen(sem, Go(fa, ea, sense).0, b);
    TwoFit(sem, fs, a, b, start, sense) && Tests(fa, ea) && Tests(fb, eb)
  }

  /** The run is spoiled exactly when the first operand decides. */
  lemma SpoiledByFirst(sem: Sem, fs: FS, a: Expr, b: Expr, start: nat, sense: bool, y: Regs, r: Regs)
    requires BothTest(sem, fs, a, b, start, !sense) && Init(fs, start, r) && Arr(sem, fs, start, r) == Fall(y)
    requires Eval(sem, a, y).Some?
    ensures var c := Gen(sem, fs, Lost(a, b, sense)).0;
      && (Spoiled(sem, c, start, !sense, r) <==> Truthy(Eval(sem, a, y).value) == sense)
      && (Spoiled(sem, c, start, !sense, r) ==> Brought(sem, c, start, r) == Eval(sem, a, y).value)
  {
    hide Ok, Done, EOk, Init, Evolves, ERun, Arr, Go, Gen, Eval, TwoFit, Joined, Computes, Branches, Kept, Branch,
         Forks, Run, IsTestSet, Spoiled, Brought;
    var n := fs.freereg;
    TwoDone(sem, fs, a, b, start, !sense);
    var (fa, ea) := Gen(sem, fs, a);
    var (ga, xa) := Go(fa, ea, !sense);
    TestsGo(fa, ea, !sense);
    var out := OutList(xa, !sense);
    var (fb0, eb0) := Gen(sem, ga, b);
    TestsDischarged(fb0, eb0);
    var (fb, eb) := DischargeVars(fb0, eb0);
    ChoiceRun(sem, fs, fa, ea, fb, eb, a, b, start, !sense, r);
    var q := Joined(eb, out, !sense);
    LostGen(sem, fs, a, b, sense);
    EvolvesInit(fs, {}, fb, Owned(q), start);
    JoinedFacts(fb, eb, q, out, !sense);
    DoneParts(sem, ga, fb, eb, b, start, true, n);
    LaterRun(sem, fb, q, out[0], start, n, sense, r);
    GoOk(sem, fa, ea, start, n, !sense);
    EvolvesInit(fs, {}, fa, Owned(ea), start);
    FirstDecides(sem, fs, fa, ea, ga, out[0], fb, q, eb, Go(fb, q, sense).0, a, b, start, n, sense, y, r);
  }

  lemma JoinedFacts(fs: FS, e: Exp, q: Exp, out: seq<nat>, sense: bool)
    requires Tests(fs, e) && q == Joined(e, out, sense)
    ensures OutList(q, sense) == out && OutList(q, !sense) == [] && q.k == e.k && q.(t := [], f := []) == e
  {
    assert [] + out == out;
  }

  /** The branch on the second operand, while a jump of the first one waits: it arrives at the constant. */
  lemma LaterRun(sem: Sem, fb: FS, q: Exp, j: nat, start: nat, n: nat, sense: bool, r: Regs)
    requires EOk(fb, q, start, n) && Discharged(q.k) && Proper(q.k) && Init(fb, start, r)
    requires OutList(q, !sense) == [j] && OutList(q, sense) == [] && Tests(fb, q.(t := [], f := []))
    ensures var c := Go(fb, q, sense).0;
      var o := Run(sem, c.code, start, |c.code|, r);
      && c.jpc == [j] && Kept(fb.code, c.code, j)
      && match ERun(sem, fb, q, start, r)
         case RErr => o == Error
         case ROut(i, x) => o == Exit(i, x)
         case RVal(_, _) => o.Exit? ==> o.j != j
  {
    hide Ok, Init, Evolves, ERun, Kept, Branch, Run, IsTestSet;
    BranchOk(sem, fb, q, start, n, sense);
    TestsBranch(fb, q, sense);
    GoShape(fb, q, sense);
    assert DischargeVars(fb, q) == (fb, q);
    var (c, list) := Branch(fb, q, sense);
    assert [] + [j] == [j];
    assert j in OutList(q, !sense);
    assert Arr(sem, c, start, r) == Run(sem, c.code, start, |c.code|, r);
    assert j < |fb.code|;
  }

  lemma FirstDecides(sem: Sem, fs: FS, fa: FS, ea: Exp, ga: FS, j: nat, fb: FS, q: Exp, eb: Exp, c: FS, a: Expr,
                     b: Expr,
                     start: nat, n: nat, sense: bool, y: Regs, r: Regs)
    requires Branches(Arr(sem, ga, start, r), ERun(sem, fa, ea, start, r), ga.code, ea, [j], !sense, true, n)
    requires Computes(sem, Fall(y), ERun(sem, fa, ea, start, r), fa.code, ea, a, true, n)
    requires Computes(sem, Arr(sem, ga, start, r), ERun(sem, fb, eb, start, r), fb.code, eb, b, true, n)
    requires ea.t == ea.f == [] && eb.t == eb.f == [] && ERun(sem, fb, q, start, r) == ERun(sem, fb, eb, start, r)
    requires IsTestSet(ga.code, j) && Kept(ga.code, fb.code, j) && Kept(fb.code, c.code, j) && c.jpc == [j]
    requires var o := Run(sem, c.code, start, |c.code|, r);
      match ERun(sem, fb, q, start, r)
      case RErr => o == Error
      case ROut(i, x) => o == Exit(i, x)
      case RVal(_, _) => o.Exit? ==> o.j != j
    requires Eval(sem, a, y).Some?
    ensures Spoiled(sem, c, start, !sense, r) <==> Truthy(Eval(sem, a, y).value) == sense
    ensures Spoiled(sem, c, start, !sense, r) ==> Brought(sem, c, start, r) == Eval(sem, a, y).value
  {
    hide ERun, Run, Arr, Eval, Get;
    assert Kept(ga.code, c.code, j);
    KeptCarried(ga.code, fb.code, j);
    KeptCarried(fb.code, c.code, j);
  }

  /**
   For any operands: `(a and b) or true or c` and `((a or b) and false) and c`. The value is
   right exactly when `a` does not decide; otherwise `a` itself arrives in place of the constant.
   */
  lemma ValueLost(sem: Sem, fs: FS, a: Expr, b: Expr, c: Expr, start: nat, sense: bool, y: Regs, r: Regs)
    requires BothTest(sem, fs, a, b, start, !sense) && TwoFit(sem, fs, Lost(a, b, sense), c, start, sense)
    requires Init(fs, start, r) && Arr(sem, fs, start, r) == Fall(y)
    ensures var x := Choice(Lost(a, b, sense), c, sense);
      var o, u, v := Arr(sem, ToNextReg(sem, fs, x), start, r), Eval(sem, a, y), Eval(sem, x, y);
      if v.None? then o == Error
      else
        && o.Fall? && u.Some? && Agree(o.regs, y, fs.freereg)
        && (Get(o.regs, fs.freereg) == v.value <==> Truthy(u.value) != sense)
        && (Truthy(u.value) == sense ==> v.value == Boolean(!sense) && Get(o.regs, fs.freereg) == u.value)
  {
    hide Init, Arr, Gen, Eval, TwoFit, Spoiled, Brought, ToNextReg, BothTest, Lost;
    LostGen(sem, fs, a, b, sense);
    MergedChoice(sem, fs, Lost(a, b, sense), c, start, sense, y, r);
    if Eval(sem, Choice(Lost(a, b, sense), c, sense), y).Some? {
      FirstEvaluated(sem, a, b, c, sense, y);
      SpoiledByFirst(sem, fs, a, b, start, sense, y, r);
    }
  }

  lemma FirstEvaluated(sem: Sem, a: Expr, b: Expr, c: Expr, sense: bool, y: Regs)
    requires Eval(sem, Choice(Lost(a, b, sense), c, sense), y).Some?
    ensures Eval(sem, a, y).Some?
  {
    EvalChoice(sem, Lost(a, b, sense), c, sense, y);
    EvalChoice(sem, Choice(a, b, !sense), Leaving(sense), sense, y);
    EvalChoice(sem, a, b, !sense, y);
  }

  /** Over three local variables: the least input that shows it */
  lemma LostLocals(sem: Sem, sense: bool, y: Regs)
    requires forall a :: a >= 3 ==> Get(y, a) == Nil
    ensures var x := Choice(Lost(ELocal(0), ELocal(1), sense), ELocal(2), sense);
      var o, v := Arr(sem, ToNextReg(sem, Fresh(3), x), 0, y), Eval(sem, x, y);
      o.Fall? && v.Some? && (Get(o.regs, 3) == v.value <==> Truthy(Get(y, 0)) != sense)
  {
    hide ToNextReg, Go, Spoiled;
    LocalsFit(sem, sense);
    assert Run(sem, [], 0, 0, y) == Fall(y);
    ValueLost(sem, Fresh(3), ELocal(0), ELocal(1), ELocal(2), 0, sense, y, y);
    LocalsEval(sem, sense, y);
  }

  lemma LocalsEval(sem: Sem, sense: bool, y: Regs)
    ensures Eval(sem, Choice(Lost(ELocal(0), ELocal(1), sense), ELocal(2), sense), y).Some?
    ensures Eval(sem, ELocal(0), y) == Some(Get(y, 0))
  {
    EvalChoice(sem, Lost(ELocal(0), ELocal(1), sense), ELocal(2), sense, y);
    EvalChoice(sem, Choice(ELocal(0), ELocal(1), !sense), Leaving(sense), sense, y);
    EvalChoice(sem, ELocal(0), ELocal(1), !sense, y);
  }

  lemma LocalsFit(sem: Sem, sense: bool)
    ensures BothTest(sem, Fresh(3), ELocal(0), ELocal(1), 0, !sense)
    ensures TwoFit(sem, Fresh(3), Lost(ELocal(0), ELocal(1), sense), ELocal(2), 0, sense)
  {
    hide Go, Gen, Exact, Height, Scoped, Ok, Lost, Tests;
    LocalTests(sem, Fresh(3), 0);
    LocalTests(sem, Go(Gen(sem, Fresh(3), ELocal(0)).0, Gen(sem, Fresh(3), ELocal(0)).1, !sense).0, 1);
    LocalTests(sem, Go(Gen(sem, Fresh(3), Lost(ELocal(0), ELocal(1), sense)).0,
                       Gen(sem, Fresh(3), Lost(ELocal(0), ELocal(1), sense)).1, sense).0, 2);
    LocalsHeight(sense);
    LostExact(sem, Fresh(3), sense);
    FreshOk(3);
  }

  lemma LocalTests(sem: Sem, fs: FS, i: nat)
    ensures Tests(Gen(sem, fs, ELocal(i)).0, Gen(sem, fs, ELocal(i)).1) && Exact(sem, fs, ELocal(i), true)
  {
  }

  lemma FreshOk(n: nat)
    ensures Ok(Fresh(n), 0)
  {
  }

  lemma LocalsHeight(sense: bool)
    ensures var q := Choice(ELocal(0), ELocal(1), !sense);
      var x := Choice(Lost(ELocal(0), ELocal(1), sense), ELocal(2), sense);
      Height(q) <= 10 && Height(x) <= 10 && Scoped(q, 3) && Scoped(x, 3)
  {
    hide Choice;
    LowChoice(ELocal(0), ELocal(1), !sense, 1, 3);
    LowChoice(Choice(ELocal(0), ELocal(1), !sense), Leaving(sense), sense, 3, 3);
    LowChoice(Lost(ELocal(0), ELocal(1), sense), ELocal(2), sense, 5, 3);
  }

  lemma LowChoice(a: Expr, b: Expr, sense: bool, h: nat, n: nat)
    requires Height(a) <= h && Height(b) <= h && Scoped(a, n) && Scoped(b, n)
    ensures Height(Choice(a, b, sense)) <= h + 2 && Scoped(Choice(a, b, sense), n)
  {
  }

  lemma LostExact(sem: Sem, fs: FS, sense: bool)
    ensures Exact(sem, fs, Lost(ELocal(0), ELocal(1), sense), true)
  {
    hide Go, Gen, GoIfTrue, GoIfFalse;
    LocalsKind(sem, fs, sense);
    LocalTests(sem, fs, 0);
    ChoiceExact(sem, fs, ELocal(0), ELocal(1), !sense);
    ChoiceExact(sem, fs, Choice(ELocal(0), ELocal(1), !sense), Leaving(sense), sense);
  }

  /** A first operand that is no constant is never merged. */
  lemma ChoiceExact(sem: Sem, fs: FS, a: Expr, b: Expr, sense: bool)
    requires Exact(sem, fs, a, true) && IsLeaf(b)
    requires var k := Gen(sem, fs, a).1.k; !k.VTrue? && !k.VFalse?
    ensures Exact(sem, fs, Choice(a, b, sense), true)
  {
    hide Gen, MinusInReg, Go, GoIfTrue, GoIfFalse, InfixArith, InfixComp, Exp2AnyReg;
  }

  lemma LocalsKind(sem: Sem, fs: FS, sense: bool)
    ensures Gen(sem, fs, ELocal(0)).1.k == VLocal(0)
    ensures Gen(sem, fs, Choice(ELocal(0), ELocal(1), !sense)).1.k == VNonReloc(1)
  {
    hide Go, GoIfTrue, GoIfFalse;
    ChoiceGen(sem, fs, ELocal(0), ELocal(1), !sense);
  }

  // ---- unary minus ----------------------------------------------------------------

  lemma ConstOperand(fs: FS, k: Kind)
    requires ConstOf(k).Some? && !k.VK? && |fs.k| <= MAX_INDEX_RK
    ensures var v := ConstOf(k).value; Exp2RK(fs, Plain(k)) == (AddK(fs, v), Plain(VK(v)), K(v))
  {
    hide Exp2AnyReg;
    assert Exp2Val(fs, Plain(k)) == (fs, Plain(k));
  }

  /** A constant that minus does not fold, and that luaK_prefix does not put in a register */
  predicate Unfolded(sem: Sem, k: Kind) { k.VNil? || k.VTrue? || k.VFalse? || (k.VKNum? && sem.nan(sem.neg(k.n))) }

  /**
   Exactly when the minus of any expression is folded or reads a register, as OP_UNM needs it: not
   when its operand is such a constant by itself and the constant fits an operand.
   */
  lemma MinusExact(sem: Sem, fs: FS, e: Exp, start: nat, n: nat)
    requires EOk(fs, e, start, n) && n < NO_REG
    ensures MinusInReg(sem, fs, e) <==> HasJumps(e) || !Unfolded(sem, e.k) || |fs.k| > MAX_INDEX_RK
  {
    hide EOk, Exp2AnyReg, DischargeVars, Exp2RK, MinusInReg;
    if !Unfolded(sem, e.k) {
      MinusReads(sem, fs, e, start, n);
    } else {
      MinusOperand(sem, fs, e);
      Exp2AnyRegOk(sem, fs, e, start, n);
      if HasJumps(e) {
        ValIsAnyReg(fs, e);
      } else {
        assert e == Plain(e.k);
        if |fs.k| <= MAX_INDEX_RK { ConstOperand(fs, e.k); } else { ManyConstants(fs, e.k); }
      }
    }
  }

  lemma MinusOperand(sem: Sem, fs: FS, e: Exp)
    requires Unfolded(sem, e.k)
    ensures MinusInReg(sem, fs, e) <==> Exp2RK(fs, e).2.R?
  {
    hide Exp2RK;
  }

  lemma ManyConstants(fs: FS, k: Kind)
    requires ConstOf(k).Some? && !k.VK? && |fs.k| > MAX_INDEX_RK
    ensures Exp2RK(fs, Plain(k)).2.R?
  {
    hide Discharge2Reg, CloseJumps;
    assert Exp2Val(fs, Plain(k)) == (fs, Plain(k));
  }

  /**
   Over expressions: the operand of the minus may be any expression that ends as such a constant,
   as `not nil` or `(true)` do.
   */
  lemma MinusLost(sem: Sem, fs: FS, x: Expr)
    requires var (fs1, e1) := Gen(sem, fs, x);
      Unfolded(sem, e1.k) && !HasJumps(e1) && |fs1.k| <= MAX_INDEX_RK
    ensures var (fs1, e1) := Gen(sem, fs, x);
      var (c, e) := Gen(sem, fs, EMinus(x));
      && e == Plain(VReloc(|fs1.code|)) && |c.code| == |fs1.code| + 1
      && c.code[|fs1.code|] == Unm(0, K(ConstOf(e1.k).value))
      && forall r :: InstrValue(sem, c.code[|fs1.code|], r) == None
  {
    hide Exp2AnyReg, Exp2RK, Gen;
    var (fs1, e1) := Gen(sem, fs, x);
    assert e1 == Plain(e1.k);
    ConstOperand(fs1, e1.k);
    MinusGen(sem, fs, x);
  }

  lemma MinusGen(sem: Sem, fs: FS, x: Expr)
    ensures Gen(sem, fs, EMinus(x)) == CodeMinus(sem, Gen(sem, fs, x).0, Gen(sem, fs, x).1)
  {
    hide GoIfTrue, GoIfFalse, DischargeVars, InfixArith, InfixComp, CodeArith, CodeComp, CodeNot, CodeMinus, CodeLen,
         Exp2AnyReg, Exp2Val,
         Exp2RK, AddK;
  }

  /** `-nil`, `-true`, `-false` and the like compile to an OP_UNM over a constant, though it reads a register. */
  lemma MinusConstant(sem: Sem, fs: FS, x: Expr)
    requires (x == ENil || x == ETrue || x == EFalse || x == ENot(ENil) || x == EParen(ENil)) && |fs.k| <= MAX_INDEX_RK
    ensures var (c, e) := Gen(sem, fs, EMinus(x));
      && e == Plain(VReloc(|fs.code|)) && |c.code| == |fs.code| + 1
      && c.code[|fs.code|] == Unm(0, K(ConstOf(Gen(sem, fs, x).1.k).value))
  {
    hide CodeMinus, Exp2RK, Exp2AnyReg;
    MinusLost(sem, fs, x);
  }
}
