/** The code generated for an expression computes it: subexpr and cond (lparser.c) over the generator (lcode.c). */
module LuaSound {
  import opened Basics
  import opened LuaVm
  import opened LuaGen
  import opened LuaRun
  import opened LuaState
  import opened LuaExp
  import opened LuaReg
  import opened LuaCond
  import opened LuaNot

  /** luaK_checkstack refuses to go beyond */
  const MAXSTACK: nat := 250

  /** The number of registers that an expression may need. */
  function Height(x: Expr): (h: nat)
    ensures h >= 1
  {
    match x
    case EIndex(a, b) => 1 + Max(Height(a), Height(b))
    case EArith(_, a, b) => 1 + Max(Height(a), Height(b))
    case EComp(_, a, b) => 1 + Max(Height(a), Height(b))
    case EAnd(a, b) => 1 + Max(Height(a), Height(b))
    case EOr(a, b) => 1 + Max(Height(a), Height(b))
    case EParen(a) => 1 + Height(a)
    case ENot(a) => 1 + Height(a)
    case EMinus(a) => 1 + Height(a)
    case ELen(a) => 1 + Height(a)
    case _ => 1
  }

  function Max(a: nat, b: nat): nat { if a < b then b else a }

  /** Local variables are active ones, and string constants are strings. */
  predicate Scoped(x: Expr, nactvar: nat) {
    match x
    case ELocal(r) => r < nactvar
    case EStr(s) => Truthy(s)
    case EIndex(a, b) => Scoped(a, nactvar) && Scoped(b, nactvar)
    case EArith(_, a, b) => Scoped(a, nactvar) && Scoped(b, nactvar)
    case EComp(_, a, b) => Scoped(a, nactvar) && Scoped(b, nactvar)
    case EAnd(a, b) => Scoped(a, nactvar) && Scoped(b, nactvar)
    case EOr(a, b) => Scoped(a, nactvar) && Scoped(b, nactvar)
    case EParen(a) => Scoped(a, nactvar)
    case ENot(a) => Scoped(a, nactvar)
    case EMinus(a) => Scoped(a, nactvar)
    case ELen(a) => Scoped(a, nactvar)
    case _ => true
  }

  /**
   The generator meets neither of the two cases it gets wrong: a TESTSET that
   waits for the bare jump of a constant (only where the value counts), and a
   unary minus whose operand stays a constant.
   */
  predicate Exact(sem: Sem, fs: FS, x: Expr, value: bool)
    decreases x
  {
    match x
    case EIndex(t, key) =>
      var (fs1, e1) := Gen(sem, fs, t);
      Exact(sem, fs, t, true) && Exact(sem, Exp2AnyReg(fs1, e1).0, key, true)
    case EParen(e) => Exact(sem, fs, e, value)
    case ENot(e) => Exact(sem, fs, e, false)
    case EMinus(e) =>
      var (fs1, e1) := Gen(sem, fs, e);
      Exact(sem, fs, e, true) && MinusInReg(sem, fs1, e1)
    case ELen(e) => Exact(sem, fs, e, true)
    case EArith(_, a, b) =>
      var (fs1, e1) := Gen(sem, fs, a);
      Exact(sem, fs, a, true) && Exact(sem, InfixArith(fs1, e1).0, b, true)
    case EComp(_, a, b) =>
      var (fs1, e1) := Gen(sem, fs, a);
      Exact(sem, fs, a, true) && Exact(sem, InfixComp(fs1, e1).0, b, true)
    case EAnd(a, b) =>
      var (fs1, e1) := Gen(sem, fs, a);
      Exact(sem, fs, a, value) && (value ==> !Merges(fs1, e1, true)) && Exact(sem, GoIfTrue(fs1, e1).0, b, value)
    case EOr(a, b) =>
      var (fs1, e1) := Gen(sem, fs, a);
      Exact(sem, fs, a, value) && (value ==> !Merges(fs1, e1, false)) && Exact(sem, GoIfFalse(fs1, e1).0, b, value)
    case _ => true
  }

  /** The minus is folded, or its operand is in a register. */
  predicate MinusInReg(sem: Sem, fs: FS, e: Exp) {
    var (fs0, e0) := if e.k.VK? then Exp2AnyReg(fs, e) else (fs, e);
    (IsNumeral(e0) && !sem.nan(sem.neg(e0.k.n))) || Exp2RK(fs0, e0).2.R?
  }

  // ---- what a descriptor computes -------------------------------------------

  ghost predicate Yields(res: Res, code: seq<Instr>, e: Exp, v: Value, exact: bool, y: Regs, n: nat) {
    match res
    case RErr => false
    case RVal(w, z) => Agree(z, y, n) && Truthy(w) == Truthy(v) && (exact ==> w == v)
    case ROut(j, z) =>
      && Agree(z, y, n) && (j in e.t || j in e.f)
      && (j in e.t ==> Truthy(v)) && (j in e.f ==> !Truthy(v))
      && (exact ==> Carried(code, j, Truthy(v), z) == v)
  }

  /**
   From a run that ended with `o`, the descriptor's code computes `x`: it fails when `x` does,
   and otherwise yields the value of `x`, or leaves by the list for its truth, with the
   registers below `n` unchanged.
   */
  ghost predicate Computes(sem: Sem, o: Outcome, res: Res, code: seq<Instr>, e: Exp, x: Expr, exact: bool, n: nat) {
    match o
    case Error => res == RErr
    case Exit(j, y) => res == ROut(j, y) && j !in e.t && j !in e.f
    case Fall(y) =>
      var v := Eval(sem, x, y);
      if v.None? then res == RErr else Yields(res, code, e, v.value, exact, y, n)
  }

  /** What Gen establishes. */
  ghost predicate Done(sem: Sem, fs: FS, c: FS, e: Exp, x: Expr, start: nat, exact: bool, n: nat) {
    && EOk(c, e, start, n) && Proper(e.k) && Evolves(fs, {}, c, Owned(e))
    && forall r :: Init(fs, start, r) ==>
         Computes(sem, Arr(sem, fs, start, r), ERun(sem, c, e, start, r), c.code, e, x, exact, n)
  }

  /** A run that left before the descriptor's code did not use its jumps. */
  lemma Foreign(sem: Sem, fs: FS, start: nat, c: FS, o: set<nat>, r: Regs)
    requires Ok(fs, start) && Evolves(fs, {}, c, o)
    ensures var a := Arr(sem, fs, start, r); a.Exit? ==> a.j !in o
  {
    ExitsWaiting(sem, fs.code, start, start, |fs.code|, r);
  }

  lemma {:induction false} SameLocals(sem: Sem, x: Expr, nactvar: nat, y: Regs, z: Regs)
    requires Scoped(x, nactvar) && Agree(z, y, nactvar)
    ensures Eval(sem, x, z) == Eval(sem, x, y)
  {
    match x
    case EIndex(a, b) => SameLocals(sem, a, nactvar, y, z); SameLocals(sem, b, nactvar, y, z);
    case EArith(_, a, b) => SameLocals(sem, a, nactvar, y, z); SameLocals(sem, b, nactvar, y, z);
    case EComp(_, a, b) => SameLocals(sem, a, nactvar, y, z); SameLocals(sem, b, nactvar, y, z);
    case EAnd(a, b) => SameLocals(sem, a, nactvar, y, z); SameLocals(sem, b, nactvar, y, z);
    case EOr(a, b) => SameLocals(sem, a, nactvar, y, z); SameLocals(sem, b, nactvar, y, z);
    case EParen(a) => SameLocals(sem, a, nactvar, y, z);
    case ENot(a) => SameLocals(sem, a, nactvar, y, z);
    case EMinus(a) => SameLocals(sem, a, nactvar, y, z);
    case ELen(a) => SameLocals(sem, a, nactvar, y, z);
    case _ =>
  }

  // ---- leaves ---------------------------------------------------------------

  predicate IsLeaf(x: Expr) {
    x.ENil? || x.ETrue? || x.EFalse? || x.ENum? || x.EStr? || x.ELocal? || x.EUpval? || x.EGlobal?
  }

  lemma LeafOk(sem: Sem, fs: FS, x: Expr, start: nat)
    requires Ok(fs, start) && IsLeaf(x) && Scoped(x, fs.nactvar)
    ensures var (c, e) := Gen(sem, fs, x); Done(sem, fs, c, e, x, start, true, fs.freereg)
  {
    hide Ok, Init, Run;
    var (c, e) := Gen(sem, fs, x);
    Unchanged(fs, {});
    if x.EStr? { AddKSame(sem, fs, start, x.s); }
    if x.EGlobal? { AddKSame(sem, fs, start, x.name); }
    AddKOnly(fs, c);
    OkRegs(fs, start);
    assert Base(c, e) == c;
    forall r ensures Computes(sem, Arr(sem, fs, start, r), ERun(sem, c, e, start, r), c.code, e, x, true, fs.freereg) {
      var o := Arr(sem, fs, start, r);
      assert Arr(sem, c, start, r) == o;
    }
  }

  lemma OkRegs(fs: FS, start: nat)
    requires Ok(fs, start)
    ensures fs.nactvar <= fs.freereg
  {
  }

  lemma AddKOnly(fs: FS, c: FS)
    requires c == fs.(k := c.k) && fs.k <= c.k
    ensures Evolves(fs, {}, c, {})
  {
  }

  // ---- and, or --------------------------------------------------------------

  /** The result of `and` and `or`: the second operand's descriptor with the jumps that leave after the first. */
  function Joined(e: Exp, out: seq<nat>, sense: bool): Exp {
    if sense then e.(f := e.f + out) else e.(t := e.t + out)
  }

  function Choice(a: Expr, b: Expr, sense: bool): Expr { if sense then EAnd(a, b) else EOr(a, b) }

  /** From one operand to the next, run by run. */
  lemma ChoiceComputes(sem: Sem, o: Outcome, res1: Res, o2: Outcome, res: Res,
                       code1: seq<Instr>, code2: seq<Instr>, code: seq<Instr>,
                       e1: Exp, out: seq<nat>, e: Exp, a: Expr, b: Expr, sense: bool, exact: bool, n: nat, nactvar: nat)
    requires Computes(sem, o, res1, code1, e1, a, exact, n)
    requires Branches(o2, res1, code2, e1, out, sense, exact, n)
    requires Computes(sem, o2, res, code, e, b, exact, n)
    requires nactvar <= n && Scoped(b, nactvar)
    requires forall j :: j in e1.t ==> j !in e1.f
    requires forall j :: j in out ==> j !in e.t && j !in e.f && Kept(code2, code, j)
    requires forall j :: j in OutList(e1, sense) ==> Kept(code1, code2, j)
    requires o.Exit? ==> o.j !in out
    ensures Computes(sem, o, res, code, Joined(e, out, sense), Choice(a, b, sense), exact, n)
  {
    hide Carried, Kept, Eval, Truthy, Get, Joined;
    JoinedLists(e, out, sense);
    if o.Fall? { EvalChoice(sem, a, b, sense, o.regs); }
    if o.Fall? && o2.Fall? { SameLocals(sem, b, nactvar, o.regs, o2.regs); }
    if o2.Exit? {
      if o2.j in out { KeptCarried(code2, code, o2.j); }
      if o2.j in OutList(e1, sense) { KeptCarried(code1, code2, o2.j); }
    }
  }

  lemma JoinedLists(e: Exp, out: seq<nat>, sense: bool)
    ensures var e1 := Joined(e, out, sense);
      && (forall j :: j in OutList(e1, sense) <==> j in OutList(e, sense) || j in out)
      && OutList(e1, !sense) == OutList(e, !sense)
  {
  }

  lemma EvalChoice(sem: Sem, a: Expr, b: Expr, sense: bool, r: Regs)
    ensures Eval(sem, Choice(a, b, sense), r) ==
      var x := Eval(sem, a, r);
      if x.None? || Truthy(x.value) != sense then x else Eval(sem, b, r)
  {
  }

  lemma KeptCarried(code: seq<Instr>, code': seq<Instr>, j: nat)
    requires Kept(code, code', j)
    ensures forall b, r :: Carried(code', j, b, r) == Carried(code, j, b, r)
  {
  }

  /** A descriptor with more jumps that leave by one of its lists. */
  lemma JoinedOk(sem: Sem, fs: FS, e: Exp, out: seq<nat>, sense: bool, start: nat, n: nat)
    requires EOk(fs, e, start, n) && Waiting(fs.code, out)
    requires forall j :: j in out ==> j !in fs.jpc && j !in Owned(e)
    ensures var j := Joined(e, out, sense);
      && EOk(fs, j, start, n) && Owned(j) == Owned(e) + Elems(out)
      && forall r :: ERun(sem, fs, j, start, r) == ERun(sem, fs, e, start, r)
  {
    hide Ok, Run;
    var x := Joined(e, out, sense);
    assert Base(fs, x) == Base(fs, e);
    var l, l0 := OutList(x, sense), OutList(e, sense);
    forall j | j in out ensures j !in e.t && j !in e.f && (e.k.VJmp? ==> j != e.k.pc) { assert j !in Owned(e); }
    forall i, j | 0 <= i < j < |l| ensures l[i] != l[j] {
      if i < |l0| <= j { assert l[i] in l0 && l[j] == out[j - |l0|] && l[j] in out; }
    }
    assert ListsOk(fs, x);
  }

  lemma ChoiceOk(sem: Sem, fs: FS, fs1: FS, e1: Exp, fs3: FS, e3: Exp, a: Expr, b: Expr, start: nat, sense: bool,
                 exact: bool)
    requires var n := fs.freereg;
      && Ok(fs, start) && fs.nactvar <= n && Scoped(b, fs.nactvar)
      && Done(sem, fs, fs1, e1, a, start, exact, n) && (exact ==> !Merges(fs1, e1, sense))
      && Done(sem, Go(fs1, e1, sense).0, fs3, e3, b, start, exact, n)
    ensures var out := OutList(Go(fs1, e1, sense).1, sense);
      Done(sem, fs, fs3, Joined(e3, out, sense), Choice(a, b, sense), start, exact, fs.freereg)
  {
    hide Ok, EOk, Init, Evolves, ERun, Arr, Go, Kept, Merges, Computes, Branches, Joined, ListsOk, Waiting, Scoped;
    var n := fs.freereg;
    var (fs2, e2) := Go(fs1, e1, sense);
    var out := OutList(e2, sense);
    GoOk(sem, fs1, e1, start, n, sense);
    EvolvesTrans(fs, {}, fs1, Owned(e1), fs2, Elems(out));
    EvolvesInit(fs, {}, fs1, Owned(e1), start);
    EvolvesInit(fs, {}, fs2, Elems(out), start);
    OutWaits(fs2, out);
    EvolvesBeside(fs2, {}, fs3, Owned(e3), Elems(out));
    assert {} + Elems(out) == Elems(out);
    EvolvesTrans(fs, {}, fs2, Elems(out), fs3, Owned(e3) + Elems(out));
    WaitingKept(fs2.code, fs3.code, out);
    JoinedOk(sem, fs3, e3, out, sense, start, n);
    JoinedKind(e3, out, sense);
    EOkLists(fs1, e1, start, n);
    forall r | Init(fs, start, r)
      ensures Computes(sem, Arr(sem, fs, start, r), ERun(sem, fs3, Joined(e3, out, sense), start, r), fs3.code,
                       Joined(e3, out, sense), Choice(a, b, sense), exact, n)
    {
      var o, o2 := Arr(sem, fs, start, r), Arr(sem, fs2, start, r);
      Foreign(sem, fs, start, fs2, Elems(out), r);
      WeakerBranch(o2, ERun(sem, fs1, e1, start, r), fs2.code, e1, out, sense, Discharged(e1.k) ==>
          !Merges(fs1, e1, sense), exact, n);
      OwnedLists(e3);
      ChoiceComputes(sem, o, ERun(sem, fs1, e1, start, r), o2, ERun(sem, fs3, e3, start, r), fs1.code, fs2.code,
          fs3.code,
                     e1, out, e3, a, b, sense, exact, n, fs.nactvar);
    }
  }

  lemma OutWaits(fs: FS, out: seq<nat>)
    requires Waiting(fs.code, out)
    ensures forall j :: j in Elems(out) ==> IsWaiting(fs.code, j)
  {
  }

  lemma JoinedKind(e: Exp, out: seq<nat>, sense: bool)
    ensures Joined(e, out, sense).k == e.k
  {
  }

  lemma EOkLists(fs: FS, e: Exp, start: nat, n: nat)
    requires EOk(fs, e, start, n)
    ensures forall j :: j in e.t ==> j !in e.f
  {
  }

  lemma OwnedLists(e: Exp)
    ensures forall j :: j in e.t || j in e.f ==> j in Owned(e)
  {
  }

  lemma WeakerBranch(o: Outcome, res: Res, code: seq<Instr>, e: Exp, out: seq<nat>, sense: bool, strong: bool,
                     exact: bool, n: nat)
    requires Branches(o, res, code, e, out, sense, strong, n) && (exact ==> strong)
    ensures Branches(o, res, code, e, out, sense, exact, n)
  {
  }

  // ---- parentheses, not -----------------------------------------------------

  lemma DischargeDone(sem: Sem, fs: FS, c: FS, e: Exp, x: Expr, start: nat, exact: bool, n: nat)
    requires Ok(fs, start) && Done(sem, fs, c, e, x, start, exact, n)
    ensures var (c1, e1) := DischargeVars(c, e); Done(sem, fs, c1, e1, x, start, exact, n)
  {
    hide Ok, Init, Evolves, ERun, Arr, DischargeVars, Kept, Shaped, Carried;
    var (c1, e1) := DischargeVars(c, e);
    DischargeVarsOk(sem, c, e, start, n);
    ProperStays(c, e);
    ShapedParts(c, e, start);
    ShapedParts(c1, e1, start);
    DischargedKeeps(c, e, c1, e1);
    EvolvesTrans(fs, {}, c, Owned(e), c1, Owned(e1));
    forall j | j in e.t || j in e.f ensures forall b, z :: Carried(c1.code, j, b, z) == Carried(c.code, j, b, z) {
      KeptCarried(c.code, c1.code, j);
    }
  }

  lemma DischargedKeeps(fs: FS, e: Exp, fs1: FS, e1: Exp)
    requires ListsOk(fs, e) && Evolves(fs, {}, fs1, {}) && KindOk(fs, e)
    requires e1.t == e.t && e1.f == e.f && e1.k.VJmp? == e.k.VJmp? && (e.k.VJmp? ==> (fs1, e1) == (fs, e))
    ensures Evolves(fs, Owned(e), fs1, Owned(e1))
    ensures forall j :: j in e.t || j in e.f ==> Kept(fs.code, fs1.code, j)
  {
    AfterToReg(fs, fs1, e);
    if e.k.VJmp? {
      Unchanged(fs, Owned(e));
    } else {
      assert Owned(e1) == Owned(e);
      EvolvesBeside(fs, {}, fs1, {}, Owned(e));
      assert {} + Owned(e) == Owned(e);
    }
  }

  lemma NotOk(sem: Sem, fs: FS, c: FS, e: Exp, x: Expr, start: nat, n: nat)
    requires Ok(fs, start) && Done(sem, fs, c, e, x, start, false, n)
    ensures var (c1, e1) := CodeNot(c, e); Done(sem, fs, c1, e1, ENot(x), start, true, n)
  {
    hide Ok, Init, Evolves, ERun, Arr, CodeNot, EOk, IsTestSet;
    var (c1, e1) := CodeNot(c, e);
    CodeNotOk(sem, c, e, start, n);
    EvolvesInit(fs, {}, c, Owned(e), start);
    EvolvesTrans(fs, {}, c, Owned(e), c1, Owned(e1));
  }

  // ---- operands -------------------------------------------------------------

  /** The result of evaluating `x` after a run that ended with `o`. */
  function XRes(sem: Sem, o: Outcome, x: Expr): Res {
    match o
    case Error => RErr
    case Exit(j, y) => ROut(j, y)
    case Fall(y) =>
      var v := Eval(sem, x, y);
      if v.None? then RErr else RVal(v.value, y)
  }

  lemma ComputesSettled(sem: Sem, o: Outcome, res: Res, code: seq<Instr>, e: Exp, x: Expr, n: nat)
    requires Computes(sem, o, res, code, e, x, true, n)
    ensures SameRes(Settled(res, code, e), XRes(sem, o, x), n)
  {
  }

  /** The operand holds the value of `x` whenever evaluation from `fs` gets that far. */
  ghost predicate Loaded(sem: Sem, fs: FS, c: FS, x: Expr, rk: RK, start: nat, n: nat) {
    && Ok(c, start) && Evolves(fs, {}, c, {}) && OperandOk(c, rk, n)
    && forall r :: Init(fs, start, r) ==>
         Loads(Arr(sem, c, start, r), XRes(sem, Arr(sem, fs, start, r), x), rk, n)
  }

  lemma LoadOperand(sem: Sem, fs: FS, c: FS, e: Exp, x: Expr, start: nat, n: nat)
    requires Ok(fs, start) && Done(sem, fs, c, e, x, start, true, n) && n < NO_REG
    ensures var (c1, e1, rk) := Exp2RK(c, e);
      && EOk(c1, e1, start, n) && !HasJumps(e1) && e1.k == (if rk.R? then VNonReloc(rk.reg) else VK(rk.value))
      && Loaded(sem, fs, c1, x, rk, start, n)
  {
    hide Ok, Init, Evolves, ERun, Arr, Exp2RK, Shaped, Settled, Loads, SameRes, XRes, Computes;
    var (c1, e1, rk) := Exp2RK(c, e);
    Exp2RKOk(sem, c, e, start, n);
    EvolvesInit(fs, {}, c, Owned(e), start);
    EvolvesTrans(fs, {}, c, Owned(e), c1, {});
    forall r | Init(fs, start, r) ensures Loads(Arr(sem, c1, start, r), XRes(sem, Arr(sem, fs, start, r), x), rk, n) {
      var o, res := Arr(sem, fs, start, r), ERun(sem, c, e, start, r);
      ComputesSettled(sem, o, res, c.code, e, x, n);
      LoadsThrough(Arr(sem, c1, start, r), Settled(res, c.code, e), XRes(sem, o, x), rk, n);
    }
  }

  lemma LoadAnyReg(sem: Sem, fs: FS, c: FS, e: Exp, x: Expr, start: nat, n: nat)
    requires Ok(fs, start) && Done(sem, fs, c, e, x, start, true, n) && n < NO_REG
    ensures var (c1, e1) := Exp2AnyReg(c, e);
      && EOk(c1, e1, start, n) && InReg(e1)
      && Loaded(sem, fs, c1, x, R(e1.k.reg), start, n)
  {
    hide Ok, Init, Evolves, ERun, Arr, Exp2AnyReg, Shaped, Settled, Loads, SameRes, XRes, Computes;
    var (c1, e1) := Exp2AnyReg(c, e);
    Exp2AnyRegOk(sem, c, e, start, n);
    EvolvesInit(fs, {}, c, Owned(e), start);
    EvolvesTrans(fs, {}, c, Owned(e), c1, {});
    forall r | Init(fs, start, r)
      ensures Loads(Arr(sem, c1, start, r), XRes(sem, Arr(sem, fs, start, r), x), R(e1.k.reg), n) {
      var o, res := Arr(sem, fs, start, r), ERun(sem, c, e, start, r);
      ComputesSettled(sem, o, res, c.code, e, x, n);
      LoadsThrough(Arr(sem, c1, start, r), Settled(res, c.code, e), XRes(sem, o, x), R(e1.k.reg), n);
    }
  }

  /** A numeral that waits for constant folding counts as loaded. */
  lemma NumeralLoaded(sem: Sem, fs: FS, c: FS, e: Exp, x: Expr, start: nat, n: nat)
    requires Ok(fs, start) && Done(sem, fs, c, e, x, start, true, n) && IsNumeral(e)
    ensures Loaded(sem, fs, c, x, K(Number(e.k.n)), start, n)
  {
    hide Ok, Init, Evolves, Run;
    NothingOwned(c, e);
    assert Base(c, e) == c;
    forall r | Init(fs, start, r)
      ensures Loads(Arr(sem, c, start, r), XRes(sem, Arr(sem, fs, start, r), x), K(Number(e.k.n)), n) {
      var o, res := Arr(sem, fs, start, r), ERun(sem, c, e, start, r);
      ComputesSettled(sem, o, res, c.code, e, x, n);
    }
  }

  // ---- constants as operands --------------------------------------------------

  predicate Indexed(k: seq<Value>, v: Value) { v in k && IndexK(k, v) <= MAX_INDEX_RK }

  lemma {:induction false} IndexStays(k: seq<Value>, k': seq<Value>, v: Value)
    requires k <= k' && v in k
    ensures IndexK(k', v) == IndexK(k, v)
    decreases |k|
  {
    if k[0] != v { IndexStays(k[1..], k'[1..], v); }
  }

  lemma AddedIndexed(fs: FS, v: Value)
    requires IndexK(fs.k, v) <= MAX_INDEX_RK
    ensures Indexed(AddK(fs, v).k, v)
  {
    if v !in fs.k { AppendedIndex(fs.k, v); }
  }

  lemma {:induction false} AppendedIndex(k: seq<Value>, v: Value)
    requires v !in k
    ensures IndexK(k + [v], v) == |k| == IndexK(k, v)
  {
    if k != [] {
      assert (k + [v])[1..] == k[1..] + [v];
      AppendedIndex(k[1..], v);
    }
  }

  /** A constant that luaK_exp2RK chose stays within reach of RK operands. */
  lemma ConstIndexed(sem: Sem, fs: FS, e: Exp, start: nat, n: nat)
    requires EOk(fs, e, start, n) && n < NO_REG
    ensures var (c, e1, rk) := Exp2RK(fs, e); rk.K? ==> Indexed(c.k, rk.value)
  {
    hide EOk, Exp2Val, Exp2AnyReg, IndexK, AddK;
    var (fs1, e1) := Exp2Val(fs, e);
    Exp2ValOk(sem, fs, e, start, n);
    var v := ConstOf(e1.k);
    if v.Some? && (if e1.k.VK? then IndexK(fs1.k, v.value) else |fs1.k|) <= MAX_INDEX_RK {
      AddedIndexed(fs1, v.value);
    } else {
      Exp2AnyRegOk(sem, fs1, e1, start, n);
    }
  }

  /** An operand that has been loaded is an operand as it stands. */
  lemma OperandStays(fs: FS, e: Exp, rk: RK)
    requires !HasJumps(e) && e.k == (if rk.R? then VNonReloc(rk.reg) else VK(rk.value))
    requires rk.K? ==> Indexed(fs.k, rk.value)
    ensures Exp2RK(fs, e) == (fs, e, rk)
  {
  }

  // ---- two operands -----------------------------------------------------------

  /** Both operands hold the values of their expressions. */
  ghost predicate Pair(sem: Sem, o0: Outcome, o: Outcome, a: Expr, b: Expr, ra: RK, rb: RK, n: nat) {
    match o0
    case Fall(y) =>
      var x, z := Eval(sem, a, y), Eval(sem, b, y);
      if x.None? || z.None? then o == Error
      else o.Fall? && RkValue(o.regs, ra) == x.value && RkValue(o.regs, rb) == z.value && Agree(o.regs, y, n)
    case _ => o == o0
  }

  lemma PairLoads(sem: Sem, o0: Outcome, o1: Outcome, o: Outcome, a: Expr, b: Expr, ra: RK, rb: RK, n: nat, m: nat,
                  nactvar: nat)
    requires Loads(o1, XRes(sem, o0, a), ra, n) && Loads(o, XRes(sem, o1, b), rb, m)
    requires nactvar <= n <= m && Scoped(b, nactvar) && (ra.R? ==> ra.reg < m)
    ensures Pair(sem, o0, o, a, b, ra, rb, n)
  {
    hide Eval, Scoped, Get;
    if o0.Fall? && o1.Fall? { SameLocals(sem, b, nactvar, o0.regs, o1.regs); }
  }

  /** The second operand's code leaves the first operand in place. */
  lemma BothLoaded(sem: Sem, fs: FS, fs1: FS, fs2: FS, a: Expr, b: Expr, ra: RK, rb: RK, start: nat, n: nat)
    requires Ok(fs, start) && fs.nactvar <= n && Scoped(b, fs.nactvar)
    requires Loaded(sem, fs, fs1, a, ra, start, n) && Loaded(sem, fs1, fs2, b, rb, start, fs1.freereg)
    ensures Evolves(fs, {}, fs2, {}) && fs2.nactvar == fs1.nactvar == fs.nactvar
    ensures n <= fs1.freereg <= fs2.freereg
    ensures forall r :: Init(fs, start, r) ==>
      Pair(sem, Arr(sem, fs, start, r), Arr(sem, fs2, start, r), a, b, ra, rb, n)
  {
    hide Ok, Init, Evolves, Arr, Loads, XRes, Pair;
    EvolvesInit(fs, {}, fs1, {}, start);
    EvolvesInit(fs1, {}, fs2, {}, start);
    EvolvesTrans(fs, {}, fs1, {}, fs2, {});
    forall r | Init(fs, start, r) ensures Pair(sem, Arr(sem, fs, start, r), Arr(sem, fs2, start, r), a, b, ra, rb, n) {
      PairLoads(sem, Arr(sem, fs, start, r), Arr(sem, fs1, start, r), Arr(sem, fs2, start, r), a, b, ra, rb, n,
          fs1.freereg, fs.nactvar);
    }
  }

  /** What an instruction or test over the operands makes of a run. */
  function FinRes(o: Outcome, v: Regs -> Option<Value>): Res {
    match o
    case Error => RErr
    case Exit(j, x) => ROut(j, x)
    case Fall(x) => if v(x).None? then RErr else RVal(v(x).value, x)
  }

  /** The machine computes what the operator means, whichever way it takes. */
  lemma MachineArithmetic(sem: Sem)
    ensures forall op, x, y :: ArithValue(sem, op, x, y) == Arithmetic(sem, op, x, y)
    ensures forall x :: UnmValue(sem, x) == Negation(sem, x)
  {
  }

  lemma ArithComputes(sem: Sem, o0: Outcome, o: Outcome, op: ArithOp, a: Expr, b: Expr, ra: RK, rb: RK,
                      code: seq<Instr>, k: Kind, n: nat)
    requires Pair(sem, o0, o, a, b, ra, rb, n)
    ensures Computes(sem, o0, FinRes(o, x => InstrValue(sem, Arith(op, 0, ra, rb), x)), code, Plain(k), EArith(op, a,
        b), true, n)
  {
  }

  lemma IndexComputes(sem: Sem, o0: Outcome, o: Outcome, a: Expr, b: Expr, t: nat, rb: RK, code: seq<Instr>, k: Kind,
                      n: nat)
    requires Pair(sem, o0, o, a, b, R(t), rb, n)
    ensures Computes(sem, o0, FinRes(o, x => sem.index(Get(x, t), RkValue(x, rb))), code, Plain(k), EIndex(a, b),
        true, n)
  {
  }

  function AsBoolean(b: Option<bool>): Option<Value> { if b.Some? then Some(Boolean(b.value)) else None }

  lemma CompComputes(sem: Sem, o0: Outcome, o: Outcome, op: CompOp, a: Expr, b: Expr, ra: RK, rb: RK, code: seq<Instr>,
                     k: Kind, n: nat)
    requires Pair(sem, o0, o, a, b, ra, rb, n)
    ensures Computes(sem, o0, FinRes(o, x => AsBoolean(Jumps(sem, Comparison(op, ra, rb), x))), code, Plain(k),
        EComp(op, a, b), true, n)
  {
  }

  // ---- the instructions over operands ------------------------------------------

  lemma InstrDone(sem: Sem, fs: FS, start: nat, n: nat, i: Instr)
    requires Ok(fs, start) && IsSetter(i) && fs.nactvar <= n
    ensures var f := fs.(freereg := n);
      var (c, e) := (Code(f, i), Plain(VReloc(|f.code|)));
      && EOk(c, e, start, n) && Evolves(fs, {}, c, Owned(e))
      && forall r :: ERun(sem, c, e, start, r) == FinRes(Arr(sem, fs, start, r), x => InstrValue(sem, i, x))
  {
    hide Ok, Evolves, Arr, ERun, Shaped, Relocatable, InstrValue;
    var f := fs.(freereg := n);
    RegsFreed(sem, fs, start, n);
    EmptyLists(f);
    RelocatableOk(sem, f, Plain(VNil), start, n, i);
    RelocatableCode(f, Plain(VNil), i);
    EvolvesTrans(fs, {}, f, {}, Code(f, i), {});
    NothingOwned(f, Plain(VReloc(|f.code|)));
  }

  lemma EmptyLists(fs: FS)
    ensures forall k :: ListsOk(fs, Plain(k))
  {
  }

  lemma ComparisonDone(sem: Sem, fs: FS, start: nat, n: nat, i: Instr)
    requires Ok(fs, start) && IsComp(i) && fs.nactvar <= n
    ensures var f := fs.(freereg := n);
      var (c, list) := CondJump(f, i);
      var e := Plain(VJmp(list[0]));
      && EOk(c, e, start, n) && Evolves(fs, {}, c, Owned(e))
      && forall r :: ERun(sem, c, e, start, r) == FinRes(Arr(sem, fs, start, r), x => AsBoolean(Jumps(sem, i, x)))
  {
    hide Ok, Run, DischargeJpc;
    var f := fs.(freereg := n);
    RegsFreed(sem, fs, start, n);
    DischargeOk(sem, f, start);
    CondJumpOk(sem, f, start, i);
    var (c, list) := CondJump(f, i);
    var e, d := Plain(VJmp(list[0])), DischargeJpc(f);
    DischargeShape(f);
    assert Base(c, e).code == d.code;
    assert Base(c, e) == d;
    forall r ensures ERun(sem, c, e, start, r) == FinRes(Arr(sem, fs, start, r), x => AsBoolean(Jumps(sem, i, x))) {
      assert Arr(sem, d, start, r) == Arr(sem, f, start, r) == Arr(sem, fs, start, r);
    }
  }

  lemma DischargeShape(fs: FS)
    ensures DischargeJpc(fs) == fs.(code := DischargeJpc(fs).code, jpc := []) && |DischargeJpc(fs).code| == |fs.code|
  {
  }

  // ---- the operators ----------------------------------------------------------

  lemma CompRuns(sem: Sem, fs: FS, f: FS, c: FS, e: Exp, op: CompOp, a: Expr, b: Expr, ra: RK, rb: RK, start: nat,
                 n: nat)
    requires e == Plain(e.k)
    requires forall r :: Init(fs, start, r) ==>
        Pair(sem, Arr(sem, fs, start, r), Arr(sem, f, start, r), a, b, ra, rb, n)
    requires var i := Comparison(op, ra, rb);
      forall r :: ERun(sem, c, e, start, r) == FinRes(Arr(sem, f, start, r), x => AsBoolean(Jumps(sem, i, x)))
    ensures forall r :: Init(fs, start, r) ==>
      Computes(sem, Arr(sem, fs, start, r), ERun(sem, c, e, start, r), c.code, e, EComp(op, a, b), true, n)
  {
    hide Init, Arr, ERun, Pair, Computes, FinRes;
    forall r | Init(fs, start, r)
      ensures Computes(sem, Arr(sem, fs, start, r), ERun(sem, c, e, start, r), c.code, e, EComp(op, a, b), true, n)
    {
      CompComputes(sem, Arr(sem, fs, start, r), Arr(sem, f, start, r), op, a, b, ra, rb, c.code, e.k, n);
      assert ERun(sem, c, e, start, r) ==
          FinRes(Arr(sem, f, start, r), x => AsBoolean(Jumps(sem, Comparison(op, ra, rb), x)));
    }
  }

  lemma CompOk(sem: Sem, fs: FS, fs1: FS, e1: Exp, fs2: FS, e2: Exp, op: CompOp, a: Expr, b: Expr, start: nat)
    requires var n := fs.freereg;
      && Ok(fs, start) && fs.nactvar <= n && n + 1 < NO_REG && Scoped(b, fs.nactvar)
      && Done(sem, fs, fs1, e1, a, start, true, n)
      && Done(sem, InfixComp(fs1, e1).0, fs2, e2, b, start, true, InfixComp(fs1, e1).0.freereg)
    ensures var (c, e) := CodeComp(fs2, op, InfixComp(fs1, e1).1, e2);
      Done(sem, fs, c, e, EComp(op, a, b), start, true, fs.freereg)
  {
    hide Ok, Init, Evolves, ERun, Arr, Exp2RK, Shaped, Computes, Pair, Loaded, CondJump, ListsOk, KindOk, Scoped,
         FinRes, InfixComp;
    var n := fs.freereg;
    var (f1, o1, ra) := Exp2RK(fs1, e1);
    var (f2, o2, rb) := Exp2RK(fs2, e2);
    CompOperands(sem, fs, fs1, e1, fs2, e2, a, b, start);
    var i := Comparison(op, ra, rb);
    ComparisonDone(sem, f2, start, n, i);
    var (c, list) := CondJump(f2.(freereg := n), i);
    CondJumpList(f2.(freereg := n), i);
    var e := Plain(VJmp(list[0]));
    EvolvesTrans(fs, {}, f2, {}, c, Owned(e));
    CompRuns(sem, fs, f2, c, e, op, a, b, ra, rb, start, n);
    assert CodeComp(fs2, op, o1, e2) == (c, e);
  }

  /** Both operands are loaded, and freeing them leaves the registers as they were. */
  lemma CompOperands(sem: Sem, fs: FS, fs1: FS, e1: Exp, fs2: FS, e2: Exp, a: Expr, b: Expr, start: nat)
    requires var n := fs.freereg;
      && Ok(fs, start) && fs.nactvar <= n && n + 1 < NO_REG && Scoped(b, fs.nactvar)
      && Done(sem, fs, fs1, e1, a, start, true, n)
      && Done(sem, InfixComp(fs1, e1).0, fs2, e2, b, start, true, InfixComp(fs1, e1).0.freereg)
    ensures var (f1, o1, ra) := Exp2RK(fs1, e1);
      var (f2, o2, rb) := Exp2RK(fs2, e2);
      && InfixComp(fs1, e1) == (f1, o1) && Exp2RK(fs2, o1) == (fs2, o1, ra)
      && Ok(f2, start) && Evolves(fs, {}, f2, {}) && f2.nactvar == fs.nactvar
      && FreeRK(FreeRK(f2, rb), ra) == f2.(freereg := fs.freereg)
      && forall r :: Init(fs, start, r) ==>
           Pair(sem, Arr(sem, fs, start, r), Arr(sem, f2, start, r), a, b, ra, rb, fs.freereg)
  {
    hide Ok, Init, Evolves, ERun, Arr, Exp2RK, Shaped, Computes, Pair, Loads, ListsOk, KindOk, Indexed, Scoped, FinRes;
    var n := fs.freereg;
    var (f1, o1, ra) := Exp2RK(fs1, e1);
    LoadOperand(sem, fs, fs1, e1, a, start, n);
    EvolvesInit(fs, {}, fs1, Owned(e1), start);
    EvolvesInit(fs, {}, f1, {}, start);
    ConstIndexed(sem, fs1, e1, start, n);
    IndexedStays(f1, fs2, Owned(e2), ra);
    OperandStays(fs2, o1, ra);
    var (f2, o2, rb) := Exp2RK(fs2, e2);
    LoadOperand(sem, f1, fs2, e2, b, start, f1.freereg);
    BothLoaded(sem, fs, f1, f2, a, b, ra, rb, start, n);
    FreedPair(f1, f2, ra, rb, n);
  }

  lemma CondJumpList(fs: FS, i: Instr)
    ensures CondJump(fs, i).1 == [|fs.code| + 1]
  {
  }

  lemma IndexedStays(fs: FS, c: FS, o: set<nat>, rk: RK)
    requires Evolves(fs, {}, c, o) && (rk.K? ==> Indexed(fs.k, rk.value))
    ensures rk.K? ==> Indexed(c.k, rk.value)
  {
    if rk.K? { IndexStays(fs.k, c.k, rk.value); }
  }

  /** Freed in reverse order, two operands leave the registers as they were before them. */
  lemma FreedPair(f1: FS, f2: FS, ra: RK, rb: RK, n: nat)
    requires OperandOk(f1, ra, n) && OperandOk(f2, rb, f1.freereg) && f2.nactvar == f1.nactvar <= n
    ensures FreeRK(FreeRK(f2, rb), ra) == f2.(freereg := n)
    ensures ra.R? ==> ra.reg < f1.freereg
    ensures rb.R? && Temp(f2, rb.reg) ==> rb.reg + 1 == f2.freereg
    ensures ra.R? && Temp(f1, ra.reg) ==> ra.reg + 1 == FreeRK(f2, rb).freereg
  {
  }

  /** What codearith is given for its first operand: it is loaded, or a constant or numeral still to be coded. */
  ghost predicate Ready(fs: FS, e: Exp, rk: RK) {
    && !HasJumps(e)
    && if rk.R? then e.k == VNonReloc(rk.reg) else e.k == VK(rk.value) || (e.k.VKNum? && rk.value == Number(e.k.n))
  }

  /** luaK_exp2RK on the first operand after the second was loaded */
  lemma FirstOperand(sem: Sem, fs: FS, e: Exp, rk: RK, start: nat, m: nat)
    requires Ok(fs, start) && Ready(fs, e, rk) && fs.freereg == m < NO_REG
    ensures var (c, _, ra) := Exp2RK(fs, e);
      && Ok(c, start) && Evolves(fs, {}, c, {}) && c.nactvar == fs.nactvar
      && (if rk.R? then c == fs && ra == rk else OperandOk(c, ra, m))
      && forall r :: Init(fs, start, r) ==> var o := Arr(sem, fs, start, r);
           if o.Fall? then
             var o' := Arr(sem, c, start, r);
             o'.Fall? && RkValue(o'.regs, ra) == RkValue(o.regs, rk) && Agree(o'.regs, o.regs, m)
           else Arr(sem, c, start, r) == o
  {
    hide Ok, Init, Evolves, Arr, Exp2RK;
    if rk.R? {
      OperandStays(fs, e, rk);
      Unchanged(fs, {});
    } else {
      ConstShaped(sem, fs, e, start, m);
      Exp2RKOk(sem, fs, e, start, m);
      EvolvesInit(fs, {}, Exp2RK(fs, e).0, {}, start);
    }
  }

  lemma ConstShaped(sem: Sem, fs: FS, e: Exp, start: nat, m: nat)
    requires Ok(fs, start) && !HasJumps(e) && (e.k.VK? || e.k.VKNum?) && fs.freereg == m
    ensures EOk(fs, e, start, m) && Owned(e) == {} && fs.nactvar <= m
    ensures forall r ::
      Settled(ERun(sem, fs, e, start, r), fs.code, e) == FinRes(Arr(sem, fs, start, r), x => Fin(sem, fs.code, e.k, x))
  {
  }

  lemma FreedTwo(f1: FS, f2: FS, f3: FS, rk: RK, ra: RK, rb: RK, n: nat)
    requires OperandOk(f1, rk, n) && OperandOk(f2, rb, f1.freereg) && f3.nactvar == f2.nactvar == f1.nactvar <= n
    requires if rk.R? then f3 == f2 && ra == rk else OperandOk(f3, ra, f2.freereg)
    ensures FreeTwo(f3, ra, rb) == f3.(freereg := n)
    ensures rb.R? ==> rb.reg < f2.freereg
  {
  }

  lemma PairFirst(sem: Sem, o0: Outcome, o2: Outcome, o3: Outcome, a: Expr, b: Expr, rk: RK, ra: RK, rb: RK, n: nat,
                  m: nat)
    requires Pair(sem, o0, o2, a, b, rk, rb, n) && n <= m && (rb.R? ==> rb.reg < m)
    requires if o2.Fall? then o3.Fall? && RkValue(o3.regs, ra) == RkValue(o2.regs, rk) && Agree(o3.regs, o2.regs, m)
             else o3 == o2
    ensures Pair(sem, o0, o3, a, b, ra, rb, n)
  {
    hide Eval, Get;
  }

  lemma InfixArithOk(sem: Sem, fs: FS, fs1: FS, e1: Exp, a: Expr, start: nat) returns (rk: RK)
    requires Ok(fs, start) && Done(sem, fs, fs1, e1, a, start, true, fs.freereg) && fs.freereg < NO_REG
    ensures var (f1, o1) := InfixArith(fs1, e1);
      Loaded(sem, fs, f1, a, rk, start, fs.freereg) && Ready(f1, o1, rk)
  {
    if IsNumeral(e1) {
      rk := K(Number(e1.k.n));
      NumeralLoaded(sem, fs, fs1, e1, a, start, fs.freereg);
    } else {
      rk := Exp2RK(fs1, e1).2;
      LoadOperand(sem, fs, fs1, e1, a, start, fs.freereg);
    }
  }

  /** Constant folding computes what the machine would. */
  lemma FoldComputes(sem: Sem, o0: Outcome, o: Outcome, op: ArithOp, a: Expr, b: Expr, x: int, y: int, code: seq<Instr>,
                     n: nat)
    requires Pair(sem, o0, o, a, b, K(Number(x)), K(Number(y)), n) && FoldArith(sem, op, x, y).Some?
    ensures var v := FoldArith(sem, op, x, y).value;
      Computes(sem, o0, FinRes(o, x => Some(Number(v))), code, Plain(VKNum(v)), EArith(op, a, b), true, n)
  {
  }

  /** Two numerals are folded unless that would divide by zero or make a NaN, which no table of constants can hold. */
  lemma FoldsExactly(sem: Sem, op: ArithOp, x: int, y: int)
    ensures FoldArith(sem, op, x, y).None? <==>
      sem.nan(sem.num(op, x, y)) || (sem.zero(y) && (op == Div || op == Mod))
    ensures FoldArith(sem, op, x, y).Some? ==>
      InstrValue(sem, Arith(op, 0, K(Number(x)), K(Number(y))), map[]) == Some(Number(FoldArith(sem, op, x, y).value))
  {
  }

  lemma NumeralShaped(sem: Sem, fs: FS, start: nat, n: nat, v: int)
    requires Ok(fs, start) && fs.freereg == n
    ensures var e := Plain(VKNum(v));
      && EOk(fs, e, start, n) && Owned(e) == {}
      && forall r :: ERun(sem, fs, e, start, r) == FinRes(Arr(sem, fs, start, r), x => Some(Number(v)))
  {
  }

  lemma Folded(sem: Sem, fs: FS, f1: FS, fs2: FS, o1: Exp, e2: Exp, op: ArithOp, a: Expr, b: Expr, rk: RK, start: nat)
    requires var n := fs.freereg;
      && Ok(fs, start) && fs.nactvar <= n && Scoped(b, fs.nactvar)
      && Loaded(sem, fs, f1, a, rk, start, n) && Ready(f1, o1, rk)
      && Done(sem, f1, fs2, e2, b, start, true, f1.freereg)
      && IsNumeral(o1) && IsNumeral(e2) && FoldArith(sem, op, o1.k.n, e2.k.n).Some?
    ensures Done(sem, fs, fs2, Plain(VKNum(FoldArith(sem, op, o1.k.n, e2.k.n).value)), EArith(op, a, b), start, true,
        fs.freereg)
  {
    hide Ok, Init, Evolves, ERun, Arr, Shaped, Computes, Pair, Loads, ListsOk, KindOk, Scoped, FinRes, FoldArith;
    var n := fs.freereg;
    var rb := K(Number(e2.k.n));
    NumeralLoaded(sem, f1, fs2, e2, b, start, f1.freereg);
    BothLoaded(sem, fs, f1, fs2, a, b, rk, rb, start, n);
    var v := FoldArith(sem, op, o1.k.n, e2.k.n).value;
    NumeralShaped(sem, fs2, start, n, v);
    forall r | Init(fs, start, r)
      ensures Computes(sem, Arr(sem, fs, start, r), ERun(sem, fs2, Plain(VKNum(v)), start, r), fs2.code,
          Plain(VKNum(v)), EArith(op, a, b), true, n)
    {
      FoldComputes(sem, Arr(sem, fs, start, r), Arr(sem, fs2, start, r), op, a, b, o1.k.n, e2.k.n, fs2.code, n);
      assert ERun(sem, fs2, Plain(VKNum(v)), start, r) == FinRes(Arr(sem, fs2, start, r), x => Some(Number(v)));
    }
  }

  lemma ArithOk(sem: Sem, fs: FS, fs1: FS, e1: Exp, fs2: FS, e2: Exp, op: ArithOp, a: Expr, b: Expr, start: nat)
    requires var n := fs.freereg;
      && Ok(fs, start) && fs.nactvar <= n && n + 2 < NO_REG && Scoped(b, fs.nactvar)
      && Done(sem, fs, fs1, e1, a, start, true, n)
      && Done(sem, InfixArith(fs1, e1).0, fs2, e2, b, start, true, InfixArith(fs1, e1).0.freereg)
    ensures var (c, e) := CodeArith(sem, fs2, op, InfixArith(fs1, e1).1, e2);
      Done(sem, fs, c, e, EArith(op, a, b), start, true, fs.freereg)
  {
    hide Ok, Init, Evolves, ERun, Arr, Exp2RK, Shaped, Computes, Pair, Loads, ListsOk, KindOk, Scoped, FinRes, Code,
         FreeTwo, InfixArith, Agree;
    var n := fs.freereg;
    var (f1, o1) := InfixArith(fs1, e1);
    var rk := InfixArithOk(sem, fs, fs1, e1, a, start);
    EvolvesInit(fs, {}, f1, {}, start);
    if IsNumeral(o1) && IsNumeral(e2) && FoldArith(sem, op, o1.k.n, e2.k.n).Some? {
      Folded(sem, fs, f1, fs2, o1, e2, op, a, b, rk, start);
    } else {
      ArithCoded(sem, fs, f1, fs2, o1, e2, op, a, b, rk, start);
    }
  }

  lemma ArithCoded(sem: Sem, fs: FS, f1: FS, fs2: FS, o1: Exp, e2: Exp, op: ArithOp, a: Expr, b: Expr, rk: RK,
                   start: nat)
    requires var n := fs.freereg;
      && Ok(fs, start) && fs.nactvar <= n && n + 2 < NO_REG && Scoped(b, fs.nactvar)
      && Loaded(sem, fs, f1, a, rk, start, n) && Ready(f1, o1, rk)
      && Done(sem, f1, fs2, e2, b, start, true, f1.freereg)
    requires IsNumeral(o1) && IsNumeral(e2) ==> FoldArith(sem, op, o1.k.n, e2.k.n).None?
    ensures var (c, e) := CodeArith(sem, fs2, op, o1, e2);
      Done(sem, fs, c, e, EArith(op, a, b), start, true, fs.freereg)
  {
    hide Ok, Init, Evolves, ERun, Arr, Exp2RK, Shaped, Computes, Pair, Loads, ListsOk, KindOk, Scoped, FinRes, Code,
         FreeTwo, Agree;
    var n := fs.freereg;
    EvolvesInit(fs, {}, f1, {}, start);
    var (f2, o2, rb) := Exp2RK(fs2, e2);
    LoadOperand(sem, f1, fs2, e2, b, start, f1.freereg);
    BothLoaded(sem, fs, f1, f2, a, b, rk, rb, start, n);
    FirstOperand(sem, f2, o1, rk, start, f2.freereg);
    var (f3, _, ra) := Exp2RK(f2, o1);
    EvolvesTrans(fs, {}, f2, {}, f3, {});
    EvolvesInit(fs, {}, f2, {}, start);
    FreedTwo(f1, f2, f3, rk, ra, rb, n);
    var i := Arith(op, 0, ra, rb);
    InstrDone(sem, f3, start, n, i);
    var f := f3.(freereg := n);
    var (c, e) := (Code(f, i), Plain(VReloc(|f.code|)));
    EvolvesTrans(fs, {}, f3, {}, c, Owned(e));
    forall r | Init(fs, start, r)
      ensures Computes(sem, Arr(sem, fs, start, r), ERun(sem, c, e, start, r), c.code, e, EArith(op, a, b), true, n)
    {
      PairFirst(sem, Arr(sem, fs, start, r), Arr(sem, f2, start, r), Arr(sem, f3, start, r), a, b, rk, ra, rb, n,
          f2.freereg);
      ArithComputes(sem, Arr(sem, fs, start, r), Arr(sem, f3, start, r), op, a, b, ra, rb, c.code, e.k, n);
      assert ERun(sem, c, e, start, r) == FinRes(Arr(sem, f3, start, r), x => InstrValue(sem, i, x));
    }
  }

  lemma IndexOk(sem: Sem, fs: FS, fs1: FS, e1: Exp, fs2: FS, e2: Exp, a: Expr, b: Expr, start: nat)
    requires var n := fs.freereg;
      && Ok(fs, start) && fs.nactvar <= n && n + 1 < NO_REG && Scoped(b, fs.nactvar)
      && Done(sem, fs, fs1, e1, a, start, true, n)
      && Done(sem, Exp2AnyReg(fs1, e1).0, fs2, e2, b, start, true, Exp2AnyReg(fs1, e1).0.freereg)
    ensures var o1 := Exp2AnyReg(fs1, e1).1;
      var (fs3, e3) := Exp2Val(fs2, e2);
      var (c, _, rb) := Exp2RK(fs3, e3);
      && o1.k.VNonReloc?
      && Done(sem, fs, c, Plain(VIndexed(o1.k.reg, rb)), EIndex(a, b), start, true, fs.freereg)
  {
    hide Ok, Init, Evolves, ERun, Arr, Exp2RK, Exp2Val, Exp2AnyReg, Shaped, Computes, Pair, Loads, ListsOk, KindOk,
         Scoped, FinRes, Agree;
    var n := fs.freereg;
    var (f1, o1) := Exp2AnyReg(fs1, e1);
    LoadAnyReg(sem, fs, fs1, e1, a, start, n);
    var t := o1.k.reg;
    EvolvesInit(fs, {}, f1, {}, start);
    var (fs3, e3) := Exp2Val(fs2, e2);
    var (f2, _, rb) := Exp2RK(fs3, e3);
    LoadVal(sem, f1, fs2, e2, b, start, f1.freereg);
    BothLoaded(sem, fs, f1, f2, a, b, R(t), rb, start, n);
    var e := Plain(VIndexed(t, rb));
    IndexedShaped(sem, f1, f2, start, n, t, rb);
    forall r | Init(fs, start, r)
      ensures Computes(sem, Arr(sem, fs, start, r), ERun(sem, f2, e, start, r), f2.code, e, EIndex(a, b), true, n)
    {
      IndexComputes(sem, Arr(sem, fs, start, r), Arr(sem, f2, start, r), a, b, t, rb, f2.code, e.k, n);
      assert ERun(sem, f2, e, start, r) == FinRes(Arr(sem, f2, start, r), x => sem.index(Get(x, t), RkValue(x, rb)));
    }
  }

  lemma IndexedShaped(sem: Sem, f1: FS, f2: FS, start: nat, n: nat, t: nat, rb: RK)
    requires Ok(f2, start) && OperandOk(f1, R(t), n) && OperandOk(f2, rb, f1.freereg) && f2.nactvar == f1.nactvar <= n
    ensures var e := Plain(VIndexed(t, rb));
      && EOk(f2, e, start, n) && Owned(e) == {}
      && forall r :: ERun(sem, f2, e, start, r) ==
          FinRes(Arr(sem, f2, start, r), x => sem.index(Get(x, t), RkValue(x, rb)))
  {
  }

  /** luaK_exp2val and luaK_exp2RK, one after the other */
  lemma LoadVal(sem: Sem, fs: FS, c: FS, e: Exp, x: Expr, start: nat, n: nat)
    requires Ok(fs, start) && Done(sem, fs, c, e, x, start, true, n) && n < NO_REG
    ensures var (c1, e1) := Exp2Val(c, e);
      var (c2, _, rk) := Exp2RK(c1, e1);
      Loaded(sem, fs, c2, x, rk, start, n)
  {
    hide Ok, Init, Evolves, ERun, Arr, Exp2RK, Exp2Val, Shaped, Settled, Loads, SameRes, XRes, Computes;
    var (c1, e1) := Exp2Val(c, e);
    Exp2ValOk(sem, c, e, start, n);
    EvolvesInit(fs, {}, c, Owned(e), start);
    EvolvesInit(c, Owned(e), c1, Owned(e1), start);
    EvolvesTrans(fs, {}, c, Owned(e), c1, Owned(e1));
    var (c2, e2, rk) := Exp2RK(c1, e1);
    Exp2RKOk(sem, c1, e1, start, n);
    EvolvesTrans(fs, {}, c1, Owned(e1), c2, {});
    NoJumpsSettled(c1, e1);
    forall r | Init(fs, start, r) ensures Loads(Arr(sem, c2, start, r), XRes(sem, Arr(sem, fs, start, r), x), rk, n) {
      var o, res, res1 := Arr(sem, fs, start, r), ERun(sem, c, e, start, r), ERun(sem, c1, e1, start, r);
      ComputesSettled(sem, o, res, c.code, e, x, n);
      LoadsThrough(Arr(sem, c2, start, r), res1, Settled(res, c.code, e), rk, n);
      LoadsThrough(Arr(sem, c2, start, r), Settled(res, c.code, e), XRes(sem, o, x), rk, n);
    }
  }

  // ---- unary minus, length ------------------------------------------------------

  lemma UnaryComputes(sem: Sem, o0: Outcome, o: Outcome, x: Expr, reg: nat, code: seq<Instr>, k: Kind, n: nat)
    requires Loads(o, XRes(sem, o0, x), R(reg), n)
    ensures Computes(sem, o0, FinRes(o, z => InstrValue(sem, Len(0, R(reg)), z)), code, Plain(k), ELen(x), true, n)
    ensures Computes(sem, o0, FinRes(o, z => InstrValue(sem, Unm(0, R(reg)), z)), code, Plain(k), EMinus(x), true, n)
  {
  }

  /** An instruction over an operand in a register. */
  lemma UnaryDone(sem: Sem, fs: FS, c: FS, x: Expr, reg: nat, minus: bool, start: nat)
    requires var n := fs.freereg; Ok(fs, start) && fs.nactvar <= n && Loaded(sem, fs, c, x, R(reg), start, n)
    ensures var f := FreeRK(c, R(reg));
      Done(sem, fs, Code(f, if minus then Unm(0, R(reg)) else Len(0, R(reg))), Plain(VReloc(|f.code|)),
           if minus then EMinus(x) else ELen(x), start, true, fs.freereg)
  {
    hide Ok, Init, Evolves, ERun, Arr, Shaped, Computes, Loads, ListsOk, KindOk, FinRes, Code, InstrValue, XRes;
    var n := fs.freereg;
    EvolvesInit(fs, {}, c, {}, start);
    var f := c.(freereg := n);
    assert FreeRK(c, R(reg)) == f;
    var i := if minus then Unm(0, R(reg)) else Len(0, R(reg));
    InstrDone(sem, c, start, n, i);
    var d, e := Code(f, i), Plain(VReloc(|f.code|));
    EvolvesTrans(fs, {}, c, {}, d, Owned(e));
    forall r | Init(fs, start, r)
      ensures Computes(sem, Arr(sem, fs, start, r), ERun(sem, d, e, start, r), d.code, e, if minus then EMinus(x)
          else ELen(x), true, n)
    {
      UnaryComputes(sem, Arr(sem, fs, start, r), Arr(sem, c, start, r), x, reg, d.code, e.k, n);
      assert ERun(sem, d, e, start, r) == FinRes(Arr(sem, c, start, r), z => InstrValue(sem, i, z));
    }
  }

  lemma LenOk(sem: Sem, fs: FS, fs1: FS, e1: Exp, x: Expr, start: nat)
    requires var n := fs.freereg;
      Ok(fs, start) && fs.nactvar <= n < NO_REG && Done(sem, fs, fs1, e1, x, start, true, n)
    ensures var (c, e) := CodeLen(fs1, e1); Done(sem, fs, c, e, ELen(x), start, true, fs.freereg)
  {
    hide Ok, Loaded, Done, Exp2RK, Exp2AnyReg, FreeRK, Code, EOk;
    var (f, o) := Exp2AnyReg(fs1, e1);
    LoadAnyReg(sem, fs, fs1, e1, x, start, fs.freereg);
    OperandStays(f, o, R(o.k.reg));
    UnaryDone(sem, fs, f, x, o.k.reg, false, start);
    CodeLength(FreeRK(f, R(o.k.reg)), Len(0, R(o.k.reg)));
  }

  lemma CodeLength(fs: FS, i: Instr)
    ensures |Code(fs, i).code| == |fs.code| + 1
  {
  }

  lemma MinusFolds(sem: Sem, o0: Outcome, o: Outcome, x: Expr, v: int, code: seq<Instr>, n: nat)
    requires Loads(o, XRes(sem, o0, x), K(Number(v)), n)
    ensures Computes(sem, o0, FinRes(o, z => Some(Number(sem.neg(v)))), code, Plain(VKNum(sem.neg(v))), EMinus(x),
        true, n)
  {
  }

  lemma FoldedMinus(sem: Sem, fs: FS, fs1: FS, e1: Exp, x: Expr, start: nat)
    requires var n := fs.freereg;
      Ok(fs, start) && fs.nactvar <= n && Done(sem, fs, fs1, e1, x, start, true, n) && IsNumeral(e1)
    ensures Done(sem, fs, fs1, Plain(VKNum(sem.neg(e1.k.n))), EMinus(x), start, true, fs.freereg)
  {
    hide Ok, Init, Evolves, ERun, Arr, Shaped, Computes, Loads, ListsOk, KindOk, FinRes, XRes;
    var n, v := fs.freereg, sem.neg(e1.k.n);
    NumeralLoaded(sem, fs, fs1, e1, x, start, n);
    NumeralShaped(sem, fs1, start, n, v);
    forall r | Init(fs, start, r)
      ensures Computes(sem, Arr(sem, fs, start, r), ERun(sem, fs1, Plain(VKNum(v)), start, r), fs1.code,
          Plain(VKNum(v)), EMinus(x), true, n)
    {
      MinusFolds(sem, Arr(sem, fs, start, r), Arr(sem, fs1, start, r), x, e1.k.n, fs1.code, n);
      assert ERun(sem, fs1, Plain(VKNum(v)), start, r) == FinRes(Arr(sem, fs1, start, r), x => Some(Number(v)));
    }
  }

  lemma MinusOk(sem: Sem, fs: FS, fs1: FS, e1: Exp, x: Expr, start: nat)
    requires var n := fs.freereg;
      && Ok(fs, start) && fs.nactvar <= n < NO_REG && Done(sem, fs, fs1, e1, x, start, true, n)
      && MinusInReg(sem, fs1, e1)
    ensures var (c, e) := CodeMinus(sem, fs1, e1); Done(sem, fs, c, e, EMinus(x), start, true, fs.freereg)
  {
    hide Ok, Loaded, Done, Exp2RK, Exp2AnyReg, FreeRK, Code, EOk;
    if e1.k.VK? {
      var (f, o) := Exp2AnyReg(fs1, e1);
      LoadAnyReg(sem, fs, fs1, e1, x, start, fs.freereg);
      OperandStays(f, o, R(o.k.reg));
      UnaryDone(sem, fs, f, x, o.k.reg, true, start);
      CodeLength(FreeRK(f, R(o.k.reg)), Unm(0, R(o.k.reg)));
    } else if IsNumeral(e1) && !sem.nan(sem.neg(e1.k.n)) {
      FoldedMinus(sem, fs, fs1, e1, x, start);
    } else {
      var (f, _, rk) := Exp2RK(fs1, e1);
      LoadOperand(sem, fs, fs1, e1, x, start, fs.freereg);
      UnaryDone(sem, fs, f, x, rk.reg, true, start);
      CodeLength(FreeRK(f, rk), Unm(0, rk));
    }
  }

  // ---- subexpr ------------------------------------------------------------------

  /** What an operand's loading leaves for the code after it. */
  lemma LoadedNext(sem: Sem, fs: FS, c: FS, x: Expr, rk: RK, start: nat, n: nat)
    requires Loaded(sem, fs, c, x, rk, start, n)
    ensures Ok(c, start) && c.nactvar == fs.nactvar && n <= c.freereg <= n + 1
  {
  }

  lemma GoNext(sem: Sem, fs: FS, e: Exp, start: nat, n: nat, sense: bool)
    requires EOk(fs, e, start, n) && Proper(e.k)
    ensures var c := Go(fs, e, sense).0; Ok(c, start) && c.nactvar == fs.nactvar && c.freereg == n
  {
    GoOk(sem, fs, e, start, n, sense);
  }

  lemma DoneFacts(sem: Sem, fs: FS, c: FS, e: Exp, x: Expr, start: nat, exact: bool, n: nat)
    requires Done(sem, fs, c, e, x, start, exact, n)
    ensures EOk(c, e, start, n) && Proper(e.k) && c.nactvar == fs.nactvar
  {
  }

  lemma DoneWeaker(sem: Sem, fs: FS, c: FS, e: Exp, x: Expr, start: nat, n: nat, exact: bool)
    requires Done(sem, fs, c, e, x, start, true, n)
    ensures Done(sem, fs, c, e, x, start, exact, n)
  {
    hide ERun, Arr, EOk, Evolves, Init, Eval;
  }

  /** What GenOk asks for. */
  ghost predicate Fits(sem: Sem, fs: FS, x: Expr, start: nat, exact: bool) {
    Ok(fs, start) && Scoped(x, fs.nactvar) && fs.freereg + Height(x) < MAXSTACK && Exact(sem, fs, x, exact)
  }

  ghost predicate GenDone(sem: Sem, fs: FS, x: Expr, start: nat, exact: bool) {
    var (c, e) := Gen(sem, fs, x); Done(sem, fs, c, e, x, start, exact, fs.freereg)
  }

  /**
   subexpr, for every expression: the code computes it. Where the generator's state
   is `Exact` for values, jumps bring the very values; else their truth is right.
   */
  lemma {:induction false} GenOk(sem: Sem, fs: FS, x: Expr, start: nat, exact: bool)
    requires Fits(sem, fs, x, start, exact)
    ensures GenDone(sem, fs, x, start, exact)
    decreases x, 1
  {
    hide Fits, GenDone, Done;
    match x
    case EIndex(a, b) => GenIndex(sem, fs, a, b, start, exact);
    case EArith(op, a, b) => GenArith(sem, fs, op, a, b, start, exact);
    case EComp(op, a, b) => GenComp(sem, fs, op, a, b, start, exact);
    case EAnd(a, b) => GenChoice(sem, fs, a, b, start, true, exact);
    case EOr(a, b) => GenChoice(sem, fs, a, b, start, false, exact);
    case EParen(a) => GenUnary(sem, fs, x, a, start, exact);
    case ENot(a) => GenUnary(sem, fs, x, a, start, exact);
    case EMinus(a) => GenUnary(sem, fs, x, a, start, exact);
    case ELen(a) => GenUnary(sem, fs, x, a, start, exact);
    case _ => GenLeaf(sem, fs, x, start, exact);
  }

  lemma GenLeaf(sem: Sem, fs: FS, x: Expr, start: nat, exact: bool)
    requires Fits(sem, fs, x, start, exact) && IsLeaf(x)
    ensures GenDone(sem, fs, x, start, exact)
  {
    hide Ok, Done;
    LeafOk(sem, fs, x, start);
    DoneWeaker(sem, fs, Gen(sem, fs, x).0, Gen(sem, fs, x).1, x, start, fs.freereg, exact);
  }

  lemma {:induction false} GenUnary(sem: Sem, fs: FS, x: Expr, a: Expr, start: nat, exact: bool)
    requires Fits(sem, fs, x, start, exact) && (x == EParen(a) || x == ENot(a) || x == EMinus(a) || x == ELen(a))
    ensures GenDone(sem, fs, x, start, exact)
    decreases x, 0
  {
    hide Ok, Done, DischargeVars, CodeNot, CodeLen, CodeMinus, MinusInReg;
    var n := fs.freereg;
    OkRegs(fs, start);
    GenOk(sem, fs, a, start, if x.EParen? then exact else !x.ENot?);
    var (fs1, e1) := Gen(sem, fs, a);
    if x.EParen? {
      DischargeDone(sem, fs, fs1, e1, a, start, exact, n);
      ParenDone(sem, fs, DischargeVars(fs1, e1).0, DischargeVars(fs1, e1).1, a, start, exact, n);
    } else {
      if x.ENot? {
        NotOk(sem, fs, fs1, e1, a, start, n);
      } else if x.EMinus? {
        MinusOk(sem, fs, fs1, e1, a, start);
      } else {
        LenOk(sem, fs, fs1, e1, a, start);
      }
      DoneWeaker(sem, fs, Gen(sem, fs, x).0, Gen(sem, fs, x).1, x, start, n, exact);
    }
  }

  lemma {:induction false} GenIndex(sem: Sem, fs: FS, a: Expr, b: Expr, start: nat, exact: bool)
    requires Fits(sem, fs, EIndex(a, b), start, exact)
    ensures GenDone(sem, fs, EIndex(a, b), start, exact)
    decreases EIndex(a, b), 0
  {
    hide Ok, Done, Loaded, EOk, Exp2RK, Exp2AnyReg, Exp2Val;
    var n, x := fs.freereg, EIndex(a, b);
    OkRegs(fs, start);
    GenOk(sem, fs, a, start, true);
    var (fs1, e1) := Gen(sem, fs, a);
    var (f1, o1) := Exp2AnyReg(fs1, e1);
    LoadAnyReg(sem, fs, fs1, e1, a, start, n);
    LoadedNext(sem, fs, f1, a, R(o1.k.reg), start, n);
    GenOk(sem, f1, b, start, true);
    var (fs2, e2) := Gen(sem, f1, b);
    IndexOk(sem, fs, fs1, e1, fs2, e2, a, b, start);
    DoneWeaker(sem, fs, Gen(sem, fs, x).0, Gen(sem, fs, x).1, x, start, n, exact);
  }

  lemma {:induction false} GenArith(sem: Sem, fs: FS, op: ArithOp, a: Expr, b: Expr, start: nat, exact: bool)
    requires Fits(sem, fs, EArith(op, a, b), start, exact)
    ensures GenDone(sem, fs, EArith(op, a, b), start, exact)
    decreases EArith(op, a, b), 0
  {
    hide Ok, Done, Loaded, EOk, InfixArith, CodeArith;
    var n, x := fs.freereg, EArith(op, a, b);
    OkRegs(fs, start);
    GenOk(sem, fs, a, start, true);
    var (fs1, e1) := Gen(sem, fs, a);
    var f1 := InfixArith(fs1, e1).0;
    var rk := InfixArithOk(sem, fs, fs1, e1, a, start);
    LoadedNext(sem, fs, f1, a, rk, start, n);
    GenOk(sem, f1, b, start, true);
    var (fs2, e2) := Gen(sem, f1, b);
    ArithOk(sem, fs, fs1, e1, fs2, e2, op, a, b, start);
    DoneWeaker(sem, fs, Gen(sem, fs, x).0, Gen(sem, fs, x).1, x, start, n, exact);
  }

  lemma {:induction false} GenComp(sem: Sem, fs: FS, op: CompOp, a: Expr, b: Expr, start: nat, exact: bool)
    requires Fits(sem, fs, EComp(op, a, b), start, exact)
    ensures GenDone(sem, fs, EComp(op, a, b), start, exact)
    decreases EComp(op, a, b), 0
  {
    hide Ok, Done, Loaded, EOk, Exp2RK, CodeComp;
    var n, x := fs.freereg, EComp(op, a, b);
    OkRegs(fs, start);
    GenOk(sem, fs, a, start, true);
    var (fs1, e1) := Gen(sem, fs, a);
    var f1 := InfixComp(fs1, e1).0;
    LoadOperand(sem, fs, fs1, e1, a, start, n);
    LoadedNext(sem, fs, f1, a, Exp2RK(fs1, e1).2, start, n);
    GenOk(sem, f1, b, start, true);
    var (fs2, e2) := Gen(sem, f1, b);
    CompOk(sem, fs, fs1, e1, fs2, e2, op, a, b, start);
    DoneWeaker(sem, fs, Gen(sem, fs, x).0, Gen(sem, fs, x).1, x, start, n, exact);
  }

  lemma {:induction false} GenChoice(sem: Sem, fs: FS, a: Expr, b: Expr, start: nat, sense: bool, exact: bool)
    requires Fits(sem, fs, Choice(a, b, sense), start, exact)
    ensures GenDone(sem, fs, Choice(a, b, sense), start, exact)
    decreases Choice(a, b, sense), 0
  {
    hide Ok, Done, EOk, GoIfTrue, GoIfFalse, DischargeVars, Merges;
    OkRegs(fs, start);
    var n := fs.freereg;
    GenOk(sem, fs, a, start, exact);
    var (fs1, e1) := Gen(sem, fs, a);
    DoneFacts(sem, fs, fs1, e1, a, start, exact, n);
    GoNext(sem, fs1, e1, start, n, sense);
    var fs2 := Go(fs1, e1, sense).0;
    GenOk(sem, fs2, b, start, exact);
    var (fs3, e3) := Gen(sem, fs2, b);
    DischargeDone(sem, fs2, fs3, e3, b, start, exact, n);
    var (fs4, e4) := DischargeVars(fs3, e3);
    ChoiceOk(sem, fs, fs1, e1, fs4, e4, a, b, start, sense, exact);
  }

  lemma ParenDone(sem: Sem, fs: FS, c: FS, e: Exp, x: Expr, start: nat, exact: bool, n: nat)
    requires Done(sem, fs, c, e, x, start, exact, n)
    ensures Done(sem, fs, c, e, EParen(x), start, exact, n)
  {
    hide ERun, Arr, EOk, Evolves, Init;
  }
}
