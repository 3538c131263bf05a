/**
 Expressions mean on the virtual machine what they mean in the source, and where this generator
 fails to see to it.
 */
module LuaTheorems {
  import opened Basics
  import opened LuaVm
  import opened LuaGen
  import opened LuaRun
  import opened LuaState
  import opened LuaExp
  import opened LuaReg
  import opened LuaCond
  import opened LuaSound

  // ---- the two theorems ---------------------------------------------------------

  /** Generating the code of an expression and putting its value in the next register. */
  function ToNextReg(sem: Sem, fs: FS, x: Expr): FS {
    var (fs1, e1) := Gen(sem, fs, x);
    Exp2NextReg(fs1, e1).0
  }

  /**
   Value preservation: after the code, the first free register holds the value of the
   expression, the registers below it what they held before, and no temporary
   is in use; the code fails only if the expression does.
   */
  lemma ValuePreserved(sem: Sem, fs: FS, x: Expr, start: nat, y: Regs, r: Regs)
    requires Fits(sem, fs, x, start, true) && Init(fs, start, r)
    requires Arr(sem, fs, start, r) == Fall(y)
    ensures var c := ToNextReg(sem, fs, x);
      && Ok(c, start) && Evolves(fs, {}, c, {}) && c.freereg == fs.freereg + 1
      && var o, v := Arr(sem, c, start, r), Eval(sem, x, y);
         if v.None? then o == Error
         else o.Fall? && Get(o.regs, fs.freereg) == v.value && Agree(o.regs, y, fs.freereg)
  {
    hide Ok, EOk, Evolves, Init, Arr, ERun, Settled, Exp2NextReg, Computes, SameRes;
    var n := fs.freereg;
    GenOk(sem, fs, x, start, true);
    var (fs1, e1) := Gen(sem, fs, x);
    Exp2NextRegOk(sem, fs1, e1, start, n);
    EvolvesInit(fs, {}, fs1, Owned(e1), start);
    var c := Exp2NextReg(fs1, e1).0;
    EvolvesTrans(fs, {}, fs1, Owned(e1), c, {});
    ComputesSettled(sem, Arr(sem, fs, start, r), ERun(sem, fs1, e1, start, r), fs1.code, e1, x, n);
    SettledPut(sem, Settled(ERun(sem, fs1, e1, start, r), fs1.code, e1), y, x, n);
  }

  lemma SettledPut(sem: Sem, res: Res, y: Regs, x: Expr, n: nat)
    requires SameRes(res, XRes(sem, Fall(y), x), n)
    ensures var o, v := PutIn(res, n), Eval(sem, x, y);
      if v.None? then o == Error else o.Fall? && Get(o.regs, n) == v.value && Agree(o.regs, y, n)
  {
  }

  /**
   Control flow: the code of a condition falls through exactly when the condition
   holds, and leaves by a jump of the list it returns when it does not, for
   every structure of `and`, `or` and `not`.
   */
  lemma ControlPreserved(sem: Sem, fs: FS, x: Expr, start: nat, y: Regs, r: Regs)
    requires Fits(sem, fs, x, start, false) && Init(fs, start, r)
    requires Arr(sem, fs, start, r) == Fall(y)
    ensures var (c, list) := Cond(sem, fs, x);
      && Ok(c, start) && Evolves(fs, {}, c, Elems(list)) && c.freereg == fs.freereg
      && Waiting(c.code, list) && (forall j :: j in list ==> j !in c.jpc)
      && var o, v := Arr(sem, c, start, r), Eval(sem, x, y);
         if v.None? then o == Error
         else if Truthy(v.value) then o.Fall? && Agree(o.regs, y, fs.freereg)
         else o.Exit? && o.j in list && Agree(o.regs, y, fs.freereg)
  {
    hide Ok, EOk, Evolves, Init, Arr, ERun, GoIfTrue, Computes, Branches, Merges, Waiting;
    var n := fs.freereg;
    GenOk(sem, fs, x, start, false);
    var (fs1, e1) := Gen(sem, fs, x);
    var e2 := if e1.k.VNil? then e1.(k := VFalse) else e1;
    NilAsFalse(sem, fs1, e1, start, n);
    GoOk(sem, fs1, e2, start, n, true);
    EvolvesInit(fs, {}, fs1, Owned(e1), start);
    var (c, e3) := GoIfTrue(fs1, e2);
    EvolvesTrans(fs, {}, fs1, Owned(e1), c, Elems(e3.f));
    CondBranches(sem, Arr(sem, c, start, r), ERun(sem, fs1, e2, start, r), ERun(sem, fs1, e1, start, r), fs1.code,
        c.code,
                 e1, e2, e3.f, Discharged(e2.k) ==> !Merges(fs1, e2, true), x, y, n);
  }

  lemma NilAsFalse(sem: Sem, fs: FS, e: Exp, start: nat, n: nat)
    requires EOk(fs, e, start, n) && Proper(e.k)
    ensures var e2 := if e.k.VNil? then e.(k := VFalse) else e;
      && EOk(fs, e2, start, n) && Proper(e2.k) && Owned(e2) == Owned(e)
      && forall r :: SameTruth(ERun(sem, fs, e2, start, r), ERun(sem, fs, e, start, r))
  {
    hide Ok, Run;
    var e2 := if e.k.VNil? then e.(k := VFalse) else e;
    assert Base(fs, e2) == Base(fs, e);
  }

  predicate SameTruth(got: Res, was: Res) {
    match was
    case RVal(v, x) => got.RVal? && Truthy(got.v) == Truthy(v) && got.regs == x
    case _ => got == was
  }

  lemma CondBranches(sem: Sem, o: Outcome, res2: Res, res: Res, code: seq<Instr>, code2: seq<Instr>, e: Exp, e2: Exp,
                     out: seq<nat>, exact: bool, x: Expr, y: Regs, n: nat)
    requires Computes(sem, Fall(y), res, code, e, x, false, n) && SameTruth(res2, res)
    requires e2.t == e.t && e2.f == e.f && Branches(o, res2, code2, e2, out, true, exact, n)
    ensures var v := Eval(sem, x, y);
      if v.None? then o == Error
      else if Truthy(v.value) then o.Fall? && Agree(o.regs, y, n)
      else o.Exit? && o.j in out && Agree(o.regs, y, n)
  {
  }

  // ---- an expression by itself ----------------------------------------------------

  /** The generator at the start of a function with `n` parameters */
  function Fresh(n: nat): FS { FS([], [], -1, n, n, []) }

  /** The code of a single expression, run from the first instruction to the last. */
  lemma WholeValue(sem: Sem, n: nat, x: Expr, y: Regs)
    requires Scoped(x, n) && n + Height(x) < MAXSTACK && Exact(sem, Fresh(n), x, true)
    requires forall a :: a >= n ==> Get(y, a) == Nil
    ensures var code := DischargeJpc(ToNextReg(sem, Fresh(n), x)).code;
      var o, v := Run(sem, code, 0, |code|, y), Eval(sem, x, y);
      if v.None? then o == Error else o.Fall? && Get(o.regs, n) == v.value && Agree(o.regs, y, n)
  {
    hide ToNextReg, Exact, Eval, Height, DischargeJpc;
    var fs := Fresh(n);
    assert Run(sem, [], 0, 0, y) == Fall(y);
    ValuePreserved(sem, fs, x, 0, y, y);
    DischargeOk(sem, ToNextReg(sem, fs, x), 0);
  }

  // ---- expressions that never meet the two failing cases ----------------------------

  /** The operand that gives the kind of a descriptor */
  predicate MayNil(x: Expr) {
    match x
    case ENil => true
    case EParen(e) => MayNil(e)
    case EAnd(_, b) => MayNil(b)
    case EOr(_, b) => MayNil(b)
    case _ => false
  }

  predicate MayTrue(x: Expr) {
    match x
    case ETrue => true
    case EParen(e) => MayTrue(e)
    case EAnd(_, b) => MayTrue(b)
    case EOr(_, b) => MayTrue(b)
    case ENot(e) => MayNil(e) || MayFalse(e)
    case _ => false
  }

  predicate MayFalse(x: Expr) {
    match x
    case EFalse => true
    case EParen(e) => MayFalse(e)
    case EAnd(_, b) => MayFalse(b)
    case EOr(_, b) => MayFalse(b)
    case ENot(e) => MayTrue(e) || MayConst(e)
    case _ => false
  }

  predicate MayConst(x: Expr) {
    match x
    case ENum(_) => true
    case EStr(_) => true
    case EParen(e) => MayConst(e)
    case EAnd(_, b) => MayConst(b)
    case EOr(_, b) => MayConst(b)
    case EMinus(_) => true
    case EArith(_, _, _) => true
    case _ => false
  }

  /**
   No left operand of `and` can become the constant false, none of `or` the constant true
   (where the value counts), and no operand of unary minus a constant nil, true or false.
   */
  predicate Simple(x: Expr, value: bool) {
    match x
    case EIndex(a, b) => Simple(a, true) && Simple(b, true)
    case EArith(_, a, b) => Simple(a, true) && Simple(b, true)
    case EComp(_, a, b) => Simple(a, true) && Simple(b, true)
    case EParen(e) => Simple(e, value)
    case ENot(e) => Simple(e, false)
    case EMinus(e) => Simple(e, true) && !MayNil(e) && !MayTrue(e) && !MayFalse(e)
    case ELen(e) => Simple(e, true)
    case EAnd(a, b) => Simple(a, value) && Simple(b, value) && (value ==> !MayFalse(a))
    case EOr(a, b) => Simple(a, value) && Simple(b, value) && (value ==> !MayTrue(a))
    case _ => true
  }

  /** Numerals are numbers, as the lexer reads them. */
  predicate Numerals(sem: Sem, x: Expr) {
    match x
    case ENum(n) => !sem.nan(n)
    case EIndex(a, b) => Numerals(sem, a) && Numerals(sem, b)
    case EArith(_, a, b) => Numerals(sem, a) && Numerals(sem, b)
    case EComp(_, a, b) => Numerals(sem, a) && Numerals(sem, b)
    case EAnd(a, b) => Numerals(sem, a) && Numerals(sem, b)
    case EOr(a, b) => Numerals(sem, a) && Numerals(sem, b)
    case EParen(e) => Numerals(sem, e)
    case ENot(e) => Numerals(sem, e)
    case EMinus(e) => Numerals(sem, e)
    case ELen(e) => Numerals(sem, e)
    case _ => true
  }

  ghost predicate KindFrom(sem: Sem, k: Kind, x: Expr) {
    match k
    case VNil => MayNil(x)
    case VTrue => MayTrue(x)
    case VFalse => MayFalse(x)
    case VK(_) => MayConst(x)
    case VKNum(n) => MayConst(x) && !sem.nan(n)
    case _ => true
  }

  lemma UnaryKinds(sem: Sem, fs: FS, e: Exp)
    ensures var k := DischargeVars(fs, e).1.k; k == e.k || k.VReloc? || k.VNonReloc?
    ensures var k := CodeNot(fs, e).1.k;
      k.VJmp? || k.VReloc? || (k.VTrue? && (e.k.VNil? || e.k.VFalse?)) || (k.VFalse?
          && (e.k.VTrue? || e.k.VK? || e.k.VKNum?))
    ensures var k := CodeMinus(sem, fs, e).1.k; k.VReloc? || (k.VKNum? && !sem.nan(k.n))
    ensures CodeLen(fs, e).1.k.VReloc?
  {
    hide Exp2RK, Exp2AnyReg, Code, Discharge2AnyReg, RemoveValues, InvertJump, FreeExp, FreeRK;
  }

  lemma BinaryKinds(sem: Sem, fs: FS, op: ArithOp, e1: Exp, e2: Exp)
    ensures var k := CodeArith(sem, fs, op, e1, e2).1.k; k.VReloc? || (k.VKNum? && !sem.nan(k.n))
  {
    hide Exp2RK, Code, FreeTwo;
  }

  lemma {:induction false} KindKnown(sem: Sem, fs: FS, x: Expr)
    requires Numerals(sem, x)
    ensures KindFrom(sem, Gen(sem, fs, x).1.k, x)
    decreases x
  {
    hide Exp2RK, Exp2AnyReg, Exp2Val, GoIfTrue, GoIfFalse, InfixArith, InfixComp, DischargeVars, CodeNot, CodeMinus,
         CodeLen, CodeArith, CondJump;
    match x
    case EParen(e) =>
      KindKnown(sem, fs, e);
      UnaryKinds(sem, Gen(sem, fs, e).0, Gen(sem, fs, e).1);
    case ENot(e) =>
      KindKnown(sem, fs, e);
      UnaryKinds(sem, Gen(sem, fs, e).0, Gen(sem, fs, e).1);
    case EMinus(e) => UnaryKinds(sem, Gen(sem, fs, e).0, Gen(sem, fs, e).1);
    case ELen(e) => UnaryKinds(sem, Gen(sem, fs, e).0, Gen(sem, fs, e).1);
    case EArith(op, a, b) =>
      var (fs1, e1) := Gen(sem, fs, a);
      var (fs2, e2) := InfixArith(fs1, e1);
      var (fs3, e3) := Gen(sem, fs2, b);
      BinaryKinds(sem, fs3, op, e2, e3);
    case EAnd(a, b) =>
      var (fs1, e1) := Gen(sem, fs, a);
      var (fs2, e2) := GoIfTrue(fs1, e1);
      KindKnown(sem, fs2, b);
      UnaryKinds(sem, Gen(sem, fs2, b).0, Gen(sem, fs2, b).1);
    case EOr(a, b) =>
      var (fs1, e1) := Gen(sem, fs, a);
      var (fs2, e2) := GoIfFalse(fs1, e1);
      KindKnown(sem, fs2, b);
      UnaryKinds(sem, Gen(sem, fs2, b).0, Gen(sem, fs2, b).1);
    case _ =>
  }

  /** A minus over anything but nil and the booleans is folded or reads a register. */
  lemma MinusReads(sem: Sem, fs: FS, e: Exp, start: nat, n: nat)
    requires EOk(fs, e, start, n) && n < NO_REG && !e.k.VNil? && !e.k.VTrue? && !e.k.VFalse?
    requires e.k.VKNum? ==> !sem.nan(sem.neg(e.k.n))
    ensures MinusInReg(sem, fs, e)
  {
    hide EOk, Exp2AnyReg, DischargeVars;
    if e.k.VK? {
      Exp2AnyRegOk(sem, fs, e, start, n);
      OperandStays(Exp2AnyReg(fs, e).0, Exp2AnyReg(fs, e).1, R(Exp2AnyReg(fs, e).1.k.reg));
    } else if !IsNumeral(e) {
      if HasJumps(e) {
        Exp2AnyRegOk(sem, fs, e, start, n);
        OperandStays(Exp2AnyReg(fs, e).0, Exp2AnyReg(fs, e).1, R(Exp2AnyReg(fs, e).1.k.reg));
        ValIsAnyReg(fs, e);
      } else {
        DischargeVarsOk(sem, fs, e, start, n);
        var (fs1, e1) := DischargeVars(fs, e);
        ProperKind(fs, e);
        Exp2AnyRegOk(sem, fs1, e1, start, n);
      }
    }
  }

  lemma ProperKind(fs: FS, e: Exp)
    requires ConstOf(e.k).None?
    ensures ConstOf(DischargeVars(fs, e).1.k).None?
  {
  }

  lemma ValIsAnyReg(fs: FS, e: Exp)
    requires HasJumps(e)
    ensures var (c, e1) := Exp2AnyReg(fs, e);
      InReg(e1) ==> Exp2RK(fs, e).2 == R(e1.k.reg)
  {
    hide Exp2NextReg, Exp2Reg;
    var (c, e1) := Exp2AnyReg(fs, e);
    if InReg(e1) { OperandStays(c, e1, R(e1.k.reg)); }
  }

  ghost predicate Good(sem: Sem, fs: FS, x: Expr, start: nat, value: bool) {
    && Ok(fs, start) && Scoped(x, fs.nactvar) && fs.freereg + Height(x) < MAXSTACK
    && Simple(x, value) && Numerals(sem, x) && forall n :: !sem.nan(n) ==> !sem.nan(sem.neg(n))
  }

  lemma GoodFits(sem: Sem, fs: FS, x: Expr, start: nat, value: bool)
    requires Good(sem, fs, x, start, value) && Exact(sem, fs, x, value)
    ensures Fits(sem, fs, x, start, value)
  {
  }

  /** What the syntax rules out does not happen in the generator: the theorems hold for every simple expression. */
  lemma {:induction false} SimpleExact(sem: Sem, fs: FS, x: Expr, start: nat, value: bool)
    requires Good(sem, fs, x, start, value)
    ensures Exact(sem, fs, x, value)
    decreases x, 1
  {
    hide Good, Exact;
    match x
    case EIndex(a, b) => SimpleBinary(sem, fs, x, a, b, start, value);
    case EArith(_, a, b) => SimpleBinary(sem, fs, x, a, b, start, value);
    case EComp(_, a, b) => SimpleBinary(sem, fs, x, a, b, start, value);
    case EAnd(a, b) => SimpleChoice(sem, fs, a, b, start, true, value);
    case EOr(a, b) => SimpleChoice(sem, fs, a, b, start, false, value);
    case EParen(a) => SimpleUnary(sem, fs, x, a, start, value);
    case ENot(a) => SimpleUnary(sem, fs, x, a, start, value);
    case EMinus(a) => SimpleUnary(sem, fs, x, a, start, value);
    case ELen(a) => SimpleUnary(sem, fs, x, a, start, value);
    case _ => SimpleLeaf(sem, fs, x, value);
  }

  /** Value preservation for every expression whose text is simple */
  lemma SimpleValue(sem: Sem, fs: FS, x: Expr, start: nat, y: Regs, r: Regs)
    requires Good(sem, fs, x, start, true) && Init(fs, start, r) && Arr(sem, fs, start, r) == Fall(y)
    ensures var c := ToNextReg(sem, fs, x);
      && Ok(c, start) && Evolves(fs, {}, c, {}) && c.freereg == fs.freereg + 1
      && var o, v := Arr(sem, c, start, r), Eval(sem, x, y);
         if v.None? then o == Error
         else o.Fall? && Get(o.regs, fs.freereg) == v.value && Agree(o.regs, y, fs.freereg)
  {
    hide Good, Fits, Init, Arr, Eval, ToNextReg, Ok, Evolves;
    SimpleExact(sem, fs, x, start, true);
    GoodFits(sem, fs, x, start, true);
    ValuePreserved(sem, fs, x, start, y, r);
  }

  /** Control flow needs still less: only that no minus stands before nil, true or false. */
  lemma SimpleControl(sem: Sem, fs: FS, x: Expr, start: nat, y: Regs, r: Regs)
    requires Good(sem, fs, x, start, false) && Init(fs, start, r) && Arr(sem, fs, start, r) == Fall(y)
    ensures var (c, list) := Cond(sem, fs, x);
      && Ok(c, start) && Evolves(fs, {}, c, Elems(list)) && c.freereg == fs.freereg && Waiting(c.code, list)
      && var o, v := Arr(sem, c, start, r), Eval(sem, x, y);
         if v.None? then o == Error
         else if Truthy(v.value) then o.Fall? && Agree(o.regs, y, fs.freereg)
         else o.Exit? && o.j in list && Agree(o.regs, y, fs.freereg)
  {
    hide Good, Fits, Init, Arr, Eval, Cond, Ok, Evolves, Waiting;
    SimpleExact(sem, fs, x, start, false);
    GoodFits(sem, fs, x, start, false);
    ControlPreserved(sem, fs, x, start, y, r);
  }

  lemma SimpleLeaf(sem: Sem, fs: FS, x: Expr, value: bool)
    requires IsLeaf(x)
    ensures Exact(sem, fs, x, value)
  {
  }

  lemma {:induction false} SimpleUnary(sem: Sem, fs: FS, x: Expr, a: Expr, start: nat, value: bool)
    requires Good(sem, fs, x, start, value) && (x == EParen(a) || x == ENot(a) || x == EMinus(a) || x == ELen(a))
    ensures Exact(sem, fs, x, value)
    decreases x, 0
  {
    hide Ok, Done, MinusInReg, EOk, Gen;
    SimpleExact(sem, fs, a, start, if x.EParen? then value else !x.ENot?);
    if x.EMinus? {
      GoodFits(sem, fs, a, start, true);
      GenOk(sem, fs, a, start, true);
      var (fs1, e1) := Gen(sem, fs, a);
      DoneFacts(sem, fs, fs1, e1, a, start, true, fs.freereg);
      KindKnown(sem, fs, a);
      MinusReads(sem, fs1, e1, start, fs.freereg);
    }
  }

  lemma {:induction false} SimpleBinary(sem: Sem, fs: FS, x: Expr, a: Expr, b: Expr, start: nat, value: bool)
    requires Good(sem, fs, x, start, value)
    requires x == EIndex(a, b) || (x.EArith? && x.a == a && x.b == b) || (x.EComp? && x.a == a && x.b == b)
    ensures Exact(sem, fs, x, value)
    decreases x, 0
  {
    hide Ok, Done, EOk, Loaded, Gen, Exp2AnyReg, Exp2RK, InfixArith;
    var n := fs.freereg;
    SimpleExact(sem, fs, a, start, true);
    GoodFits(sem, fs, a, start, true);
    GenOk(sem, fs, a, start, true);
    var (fs1, e1) := Gen(sem, fs, a);
    if x.EIndex? {
      var (f1, o1) := Exp2AnyReg(fs1, e1);
      LoadAnyReg(sem, fs, fs1, e1, a, start, n);
      LoadedNext(sem, fs, f1, a, R(o1.k.reg), start, n);
      SimpleExact(sem, f1, b, start, true);
    } else if x.EArith? {
      var f1 := InfixArith(fs1, e1).0;
      var rk := InfixArithOk(sem, fs, fs1, e1, a, start);
      LoadedNext(sem, fs, f1, a, rk, start, n);
      SimpleExact(sem, f1, b, start, true);
    } else {
      var f1 := InfixComp(fs1, e1).0;
      LoadOperand(sem, fs, fs1, e1, a, start, n);
      LoadedNext(sem, fs, f1, a, Exp2RK(fs1, e1).2, start, n);
      SimpleExact(sem, f1, b, start, true);
    }
  }

  lemma {:induction false} SimpleChoice(sem: Sem, fs: FS, a: Expr, b: Expr, start: nat, sense: bool, value: bool)
    requires Good(sem, fs, Choice(a, b, sense), start, value)
    ensures Exact(sem, fs, Choice(a, b, sense), value)
    decreases Choice(a, b, sense), 0
  {
    hide Ok, Done, EOk, Gen, GoIfTrue, GoIfFalse;
    var n := fs.freereg;
    SimpleExact(sem, fs, a, start, value);
    GoodFits(sem, fs, a, start, value);
    GenOk(sem, fs, a, start, value);
    var (fs1, e1) := Gen(sem, fs, a);
    DoneFacts(sem, fs, fs1, e1, a, start, value, n);
    KindKnown(sem, fs, a);
    GoNext(sem, fs1, e1, start, n, sense);
    SimpleExact(sem, Go(fs1, e1, sense).0, b, start, value);
  }
}
