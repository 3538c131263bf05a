/**
 The code generator for expressions (lcode.c) and the way the parser drives it
 (lparser.c). Patch lists are sequences of the positions of their jumps here; the
 class that threads them through the jump offsets is in LuaFuncState.dfy, and the functions
 that work on it in place are in LuaCodeGen.dfy.
 */
module LuaGen {
  import opened Basics
  import opened LuaVm

  // ---- source expressions ---------------------------------------------------

  datatype CompOp = OpNe | OpEq | OpLt | OpLe | OpGt | OpGe

  datatype Expr =
    | ENil | ETrue | EFalse
    | ENum(n: int)
    | EStr(s: Value)
    | ELocal(r: nat)                        // the register of an active local variable
    | EUpval(i: nat)
    | EGlobal(name: Value)
    | EIndex(t: Expr, key: Expr)
    | EParen(e: Expr)
    | ENot(e: Expr) | EMinus(e: Expr) | ELen(e: Expr)
    | EArith(op: ArithOp, a: Expr, b: Expr)
    | EComp(cmp: CompOp, a: Expr, b: Expr)
    | EAnd(a: Expr, b: Expr) | EOr(a: Expr, b: Expr)

  function Compare(sem: Sem, op: CompOp, x: Value, y: Value): Option<bool> {
    match op
    case OpEq => sem.eq(x, y)
    case OpNe => Agrees(sem.eq(x, y), false)
    case OpLt => sem.lt(x, y)
    case OpLe => sem.le(x, y)
    case OpGt => sem.lt(y, x)
    case OpGe => sem.le(y, x)
  }

  /** The number a value is or, being a string, can be converted to */
  function AsNumber(sem: Sem, v: Value): Option<int> {
    match v
    case Number(n) => Some(n)
    case _ => sem.str2d(v)
  }

  /** getbinhandler: the first operand's handler goes before the second's. */
  function BinHandler(sem: Sem, event: Event, x: Value, y: Value): Option<Value> {
    if sem.metamethod(event, x).Some? then sem.metamethod(event, x) else sem.metamethod(event, y)
  }

  /** An arithmetic operator (section 2.8 of the Lua 5.1 Reference Manual), operands in the order they are written */
  function Arithmetic(sem: Sem, op: ArithOp, op1: Value, op2: Value): Option<Value> {
    match (AsNumber(sem, op1), AsNumber(sem, op2))
    case (Some(n1), Some(n2)) => Some(Number(sem.num(op, n1, n2)))
    case _ =>
      match BinHandler(sem, TMArith(op), op1, op2)
      case Some(h) => sem.call(h, op1, op2)
      case None => None
  }

  /** Unary minus; its handler is given the operand twice. */
  function Negation(sem: Sem, op: Value): Option<Value> {
    match AsNumber(sem, op)
    case Some(n) => Some(Number(sem.neg(n)))
    case None =>
      match sem.metamethod(TMUnm, op)
      case Some(h) => sem.call(h, op, op)
      case None => None
  }

  /** The value of an expression; None is a run-time error. */
  function Eval(sem: Sem, e: Expr, r: Regs): Option<Value> {
    match e
    case ENil => Some(Nil)
    case ETrue => Some(Boolean(true))
    case EFalse => Some(Boolean(false))
    case ENum(n) => Some(Number(n))
    case EStr(s) => Some(s)
    case ELocal(x) => Some(Get(r, x))
    case EUpval(i) => Some(sem.upval(i))
    case EGlobal(name) => sem.global(name)
    case EIndex(t, key) =>
      var x, y := Eval(sem, t, r), Eval(sem, key, r);
      if x.None? || y.None? then None else sem.index(x.value, y.value)
    case EParen(e1) => Eval(sem, e1, r)
    case ENot(e1) =>
      var x := Eval(sem, e1, r);
      if x.None? then None else Some(Boolean(!Truthy(x.value)))
    case EMinus(e1) =>
      var x := Eval(sem, e1, r);
      if x.None? then None else Negation(sem, x.value)
    case ELen(e1) =>
      var x := Eval(sem, e1, r);
      if x.None? then None else sem.len(x.value)
    case EArith(op, a, b) =>
      var x, y := Eval(sem, a, r), Eval(sem, b, r);
      if x.None? || y.None? then None else Arithmetic(sem, op, x.value, y.value)
    case EComp(op, a, b) =>
      var x, y := Eval(sem, a, r), Eval(sem, b, r);
      if x.None? || y.None? then None
      else
        var c := Compare(sem, op, x.value, y.value);
        if c.None? then None else Some(Boolean(c.value))
    case EAnd(a, b) =>
      var x := Eval(sem, a, r);
      if x.None? || !Truthy(x.value) then x else Eval(sem, b, r)
    case EOr(a, b) =>
      var x := Eval(sem, a, r);
      if x.None? || Truthy(x.value) then x else Eval(sem, b, r)
  }

  // ---- the state of the generator -------------------------------------------

  datatype FS = FS(
    code: seq<Instr>,
    jpc: seq<nat>,        // jumps waiting for the next instruction
    lasttarget: int,      // position of the last jump target
    freereg: nat,
    nactvar: nat,
    k: seq<Value>)        // the constants

  /** expkind with its info */
  datatype Kind =
    | VNil | VTrue | VFalse
    | VK(value: Value)
    | VKNum(n: int)
    | VLocal(reg: nat)
    | VUpval(up: nat)
    | VGlobal(name: Value)
    | VIndexed(t: nat, key: RK)
    | VJmp(pc: nat)
    | VReloc(pc: nat)
    | VNonReloc(reg: nat)

  /** expdesc: a kind and the lists of exits when true and when false */
  datatype Exp = Exp(k: Kind, t: seq<nat>, f: seq<nat>)

  function Plain(k: Kind): Exp { Exp(k, [], []) }

  predicate HasJumps(e: Exp) { e.t != [] || e.f != [] }

  // ---- jump lists -----------------------------------------------------------

  /** getjumpcontrol */
  function Control(code: seq<Instr>, j: nat): nat {
    if 1 <= j <= |code| && IsTest(code[j - 1]) then j - 1 else j
  }

  predicate IsTestSet(code: seq<Instr>, j: nat) {
    Control(code, j) < |code| && code[Control(code, j)].TestSet?
  }

  /** patchtestreg and fixjump on one jump */
  function PatchOne(code: seq<Instr>, j: nat, vtarget: nat, reg: nat, dtarget: nat): (r: seq<Instr>)
    ensures |r| == |code|
  {
    if j >= |code| then code
    else if IsTestSet(code, j) && Control(code, j) != j then
      var c := code[j - 1];
      var c' := if reg != NO_REG && reg != c.b then TestSet(reg, c.b, c.c) else Test(c.b, c.c);
      code[j - 1 := c'][j := Jmp(Some(vtarget))]
    else code[j := Jmp(Some(dtarget))]
  }

  /** patchlistaux */
  function PatchListAux(code: seq<Instr>, list: seq<nat>, vtarget: nat, reg: nat, dtarget: nat): (r: seq<Instr>)
    ensures |r| == |code|
    decreases |list|
  {
    if list == [] then code
    else PatchListAux(PatchOne(code, list[0], vtarget, reg, dtarget), list[1..], vtarget, reg, dtarget)
  }

  /** need_value */
  predicate NeedValue(code: seq<Instr>, list: seq<nat>) {
    exists j :: j in list && !IsTestSet(code, j)
  }

  /** removevalues */
  function RemoveValues(code: seq<Instr>, list: seq<nat>): (r: seq<Instr>)
    ensures |r| == |code|
    decreases |list|
  {
    if list == [] then code
    else
      var j := list[0];
      var c := Control(code, j);
      if c < |code| && code[c].TestSet? then
        RemoveValues(code[c := Test(code[c].b, code[c].c)], list[1..])
      else RemoveValues(code, list[1..])
  }

  /** dischargejpc */
  function DischargeJpc(fs: FS): FS {
    fs.(code := PatchListAux(fs.code, fs.jpc, |fs.code|, NO_REG, |fs.code|), jpc := [])
  }

  /** luaK_code; the new instruction is the last one. */
  function Code(fs: FS, i: Instr): (r: FS)
    ensures |r.code| == |fs.code| + 1 && r.code[|fs.code|] == i && r.jpc == []
    ensures r == fs.(code := r.code, jpc := [])
  {
    var d := DischargeJpc(fs);
    d.(code := d.code + [i])
  }

  /** luaK_getlabel */
  function GetLabel(fs: FS): FS { fs.(lasttarget := |fs.code|) }

  /** luaK_patchtohere */
  function PatchToHere(fs: FS, list: seq<nat>): FS {
    GetLabel(fs).(jpc := fs.jpc + list)
  }

  /** luaK_jump; the list of the new jump holds the jumps that were waiting for it. */
  function Jump(fs: FS): (FS, seq<nat>) {
    (Code(fs.(jpc := []), Jmp(None)), [|fs.code|] + fs.jpc)
  }

  /** condjump */
  function CondJump(fs: FS, test: Instr): (FS, seq<nat>) {
    Jump(Code(fs, test))
  }

  // ---- registers and constants ----------------------------------------------

  function ReserveRegs(fs: FS, n: nat): FS { fs.(freereg := fs.freereg + n) }

  function FreeReg(fs: FS, reg: nat): FS {
    if reg >= fs.nactvar && fs.freereg > 0 then fs.(freereg := fs.freereg - 1) else fs
  }

  function FreeRK(fs: FS, o: RK): FS { if o.R? then FreeReg(fs, o.reg) else fs }

  function FreeExp(fs: FS, e: Exp): FS { if e.k.VNonReloc? then FreeReg(fs, e.k.reg) else fs }

  /** addk */
  function AddK(fs: FS, v: Value): FS { if v in fs.k then fs else fs.(k := fs.k + [v]) }

  function IndexK(k: seq<Value>, v: Value): (i: nat)
    ensures i <= |k| && (v in k ==> i < |k| && k[i] == v)
  {
    if k == [] || k[0] == v then 0 else 1 + IndexK(k[1..], v)
  }

  const MAX_INDEX_RK: nat := 255

  // ---- discharging ----------------------------------------------------------

  /** luaK_nil for one register */
  function Nil1(fs: FS, reg: nat): FS {
    var pc := |fs.code|;
    if pc > fs.lasttarget && pc == 0 && reg >= fs.nactvar then fs
    else if pc > fs.lasttarget && pc > 0 && fs.code[pc - 1].LoadNil?
            && fs.code[pc - 1].a <= reg <= fs.code[pc - 1].b + 1 then
      var i := fs.code[pc - 1];
      if reg > i.b then fs.(code := fs.code[pc - 1 := LoadNil(i.a, reg)]) else fs
    else Code(fs, LoadNil(reg, reg))
  }

  /** An instruction that leaves its value in a register still to be chosen. */
  function Relocatable(fs: FS, e: Exp, i: Instr): (FS, Exp) {
    (Code(fs, i), e.(k := VReloc(|fs.code|)))
  }

  /** luaK_dischargevars */
  function DischargeVars(fs: FS, e: Exp): (FS, Exp) {
    match e.k
    case VLocal(r) => (fs, e.(k := VNonReloc(r)))
    case VUpval(i) => Relocatable(fs, e, GetUpval(0, i))
    case VGlobal(name) => Relocatable(fs, e, GetGlobal(0, name))
    case VIndexed(t, key) => Relocatable(FreeReg(FreeRK(fs, key), t), e, GetTable(0, t, key))
    case _ => (fs, e)
  }

  /** SETARG_A on an instruction that sets register A */
  function SetA(i: Instr, reg: nat): Instr {
    match i
    case Move(_, b) => Move(reg, b)
    case LoadK(_, v) => LoadK(reg, v)
    case LoadBool(_, flag, skip) => LoadBool(reg, flag, skip)
    case GetUpval(_, up) => GetUpval(reg, up)
    case GetGlobal(_, name) => GetGlobal(reg, name)
    case GetTable(_, b, rc) => GetTable(reg, b, rc)
    case Arith(op, _, rb, rc) => Arith(op, reg, rb, rc)
    case Unm(_, rb) => Unm(reg, rb)
    case Not(_, b) => Not(reg, b)
    case Len(_, rb) => Len(reg, rb)
    case _ => i
  }

  /** discharge2reg after luaK_dischargevars */
  function ToReg(fs: FS, e: Exp, reg: nat): (FS, Exp) {
    var done := e.(k := VNonReloc(reg));
    match e.k
    case VNil => (Nil1(fs, reg), done)
    case VFalse => (Code(fs, LoadBool(reg, false, false)), done)
    case VTrue => (Code(fs, LoadBool(reg, true, false)), done)
    case VK(v) => (Code(fs, LoadK(reg, v)), done)
    case VKNum(n) => (Code(AddK(fs, Number(n)), LoadK(reg, Number(n))), done)
    case VReloc(p) => if p < |fs.code| then (fs.(code := fs.code[p := SetA(fs.code[p], reg)]), done) else (fs, done)
    case VNonReloc(r) => if r != reg then (Code(fs, Move(reg, r)), done) else (fs, done)
    case _ => (fs, e)
  }

  /** discharge2reg */
  function Discharge2Reg(fs: FS, e: Exp, reg: nat): (FS, Exp) {
    var (fs1, e1) := DischargeVars(fs, e);
    ToReg(fs1, e1, reg)
  }

  /** discharge2anyreg */
  function Discharge2AnyReg(fs: FS, e: Exp): (FS, Exp) {
    if e.k.VNonReloc? then (fs, e)
    else
      var fs1 := ReserveRegs(fs, 1);
      Discharge2Reg(fs1, e, fs1.freereg - 1)
  }

  /** code_label */
  function CodeLabel(fs: FS, a: nat, flag: bool, skip: bool): FS {
    Code(GetLabel(fs), LoadBool(a, flag, skip))
  }

  /** The part of exp2reg that gives the jumps of an expression their targets. */
  function CloseJumps(fs: FS, e: Exp, reg: nat): FS {
    var need := NeedValue(fs.code, e.t) || NeedValue(fs.code, e.f);
    var (fs1, fj) := if need && !e.k.VJmp? then Jump(fs) else (fs, []);
    var pf := |fs1.code|;
    var fs2 := if need then CodeLabel(CodeLabel(fs1, reg, false, true), reg, true, false) else fs1;
    var fs3 := if need then PatchToHere(fs2, fj) else fs2;
    var final := |fs3.code|;
    var fs4 := GetLabel(fs3);
    var code1 := PatchListAux(fs4.code, e.f, final, reg, pf);
    fs4.(code := PatchListAux(code1, e.t, final, reg, pf + 1))
  }

  /** exp2reg */
  function Exp2Reg(fs: FS, e: Exp, reg: nat): (FS, Exp) {
    var (fs1, e1) := Discharge2Reg(fs, e, reg);
    var e2 := if e1.k.VJmp? then e1.(t := e1.t + [e1.k.pc]) else e1;
    (if HasJumps(e2) then CloseJumps(fs1, e2, reg) else fs1, Plain(VNonReloc(reg)))
  }

  /** luaK_exp2nextreg */
  function Exp2NextReg(fs: FS, e: Exp): (FS, Exp) {
    var (fs1, e1) := DischargeVars(fs, e);
    var fs2 := ReserveRegs(FreeExp(fs1, e1), 1);
    Exp2Reg(fs2, e1, fs2.freereg - 1)
  }

  /** luaK_exp2anyreg */
  function Exp2AnyReg(fs: FS, e: Exp): (FS, Exp) {
    var (fs1, e1) := DischargeVars(fs, e);
    if e1.k.VNonReloc? && !HasJumps(e1) then (fs1, e1)
    else if e1.k.VNonReloc? && e1.k.reg >= fs1.nactvar then Exp2Reg(fs1, e1, e1.k.reg)
    else Exp2NextReg(fs1, e1)
  }

  /** luaK_exp2val */
  function Exp2Val(fs: FS, e: Exp): (FS, Exp) {
    if HasJumps(e) then Exp2AnyReg(fs, e) else DischargeVars(fs, e)
  }

  /** The constant a kind stands for, when it can be an RK operand. */
  function ConstOf(k: Kind): Option<Value> {
    match k
    case VNil => Some(Nil)
    case VTrue => Some(Boolean(true))
    case VFalse => Some(Boolean(false))
    case VKNum(n) => Some(Number(n))
    case VK(v) => Some(v)
    case _ => None
  }

  /** luaK_exp2RK */
  function Exp2RK(fs: FS, e: Exp): (FS, Exp, RK) {
    var (fs1, e1) := Exp2Val(fs, e);
    var c := ConstOf(e1.k);
    if c.Some? && (if e1.k.VK? then IndexK(fs1.k, c.value) else |fs1.k|) <= MAX_INDEX_RK then
      (AddK(fs1, c.value), e1.(k := VK(c.value)), K(c.value))
    else
      var (fs2, e2) := Exp2AnyReg(fs1, e1);
      (fs2, e2, if e2.k.VNonReloc? then R(e2.k.reg) else K(Nil))
  }

  // ---- conditions -----------------------------------------------------------

  function Inverted(i: Instr): Instr {
    match i
    case Eq(cond, rb, rc) => Eq(!cond, rb, rc)
    case Lt(cond, rb, rc) => Lt(!cond, rb, rc)
    case Le(cond, rb, rc) => Le(!cond, rb, rc)
    case _ => i
  }

  /** invertjump */
  function InvertJump(fs: FS, pc: nat): FS {
    var c := Control(fs.code, pc);
    if c < |fs.code| && IsComp(fs.code[c]) then
      fs.(code := fs.code[c := Inverted(fs.code[c])])
    else fs
  }

  /** jumponcond */
  function JumpOnCond(fs: FS, e: Exp, cond: bool): (FS, seq<nat>) {
    var pc := |fs.code|;
    if e.k.VReloc? && pc > 0 && fs.code[pc - 1].Not? then
      // remove previous OP_NOT
      CondJump(fs.(code := fs.code[..pc - 1]), Test(fs.code[pc - 1].b, !cond))
    else
      var (fs1, e1) := Discharge2AnyReg(fs, e);
      CondJump(FreeExp(fs1, e1), TestSet(NO_REG, if e1.k.VNonReloc? then e1.k.reg else 0, cond))
  }

  /** luaK_goiftrue */
  function GoIfTrue(fs: FS, e: Exp): (FS, Exp) {
    var (fs1, e1) := DischargeVars(fs, e);
    var (fs2, list) :=
      match e1.k {
        case VK(_) => (fs1, [])
        case VKNum(_) => (fs1, [])
        case VTrue => (fs1, [])
        case VFalse => Jump(fs1)
        case VJmp(p) => (InvertJump(fs1, p), [p])
        case _ => JumpOnCond(fs1, e1, false)
      };
    (PatchToHere(fs2, e1.t), Exp(e1.k, [], e1.f + list))
  }

  /** luaK_goiffalse */
  function GoIfFalse(fs: FS, e: Exp): (FS, Exp) {
    var (fs1, e1) := DischargeVars(fs, e);
    var (fs2, list) :=
      match e1.k {
        case VNil => (fs1, [])
        case VFalse => (fs1, [])
        case VTrue => Jump(fs1)
        case VJmp(p) => (fs1, [p])
        case _ => JumpOnCond(fs1, e1, true)
      };
    (PatchToHere(fs2, e1.f), Exp(e1.k, e1.t + list, []))
  }

  /** codenot */
  function CodeNot(fs: FS, e: Exp): (FS, Exp) {
    var (fs1, e1) := DischargeVars(fs, e);
    var (fs2, k2) :=
      match e1.k {
        case VNil => (fs1, VTrue)
        case VFalse => (fs1, VTrue)
        case VK(_) => (fs1, VFalse)
        case VKNum(_) => (fs1, VFalse)
        case VTrue => (fs1, VFalse)
        case VJmp(p) => (InvertJump(fs1, p), e1.k)
        case _ =>
          var (fs2, e2) := Discharge2AnyReg(fs1, e1);
          var fs3 := FreeExp(fs2, e2);
          (Code(fs3, Not(0, if e2.k.VNonReloc? then e2.k.reg else 0)), VReloc(|fs3.code|))
      };
    (fs2.(code := RemoveValues(RemoveValues(fs2.code, e1.t), e1.f)), Exp(k2, e1.f, e1.t))
  }

  // ---- operators ------------------------------------------------------------

  predicate IsNumeral(e: Exp) { e.k.VKNum? && !HasJumps(e) }

  /** constfolding for a binary operator */
  function FoldArith(sem: Sem, op: ArithOp, x: int, y: int): Option<int> {
    if (op == Div || op == Mod) && sem.zero(y) then None
    else
      var r := sem.num(op, x, y);
      if sem.nan(r) then None else Some(r)
  }

  /** freeexp on two operands, in the order codearith needs */
  function FreeTwo(fs: FS, o1: RK, o2: RK): FS {
    if o1.K? || (o2.R? && o1.reg > o2.reg) then FreeRK(FreeRK(fs, o1), o2)
    else FreeRK(FreeRK(fs, o2), o1)
  }

  /** codearith for a binary operator */
  function CodeArith(sem: Sem, fs: FS, op: ArithOp, e1: Exp, e2: Exp): (FS, Exp) {
    var folded := if IsNumeral(e1) && IsNumeral(e2) then FoldArith(sem, op, e1.k.n, e2.k.n) else None;
    if folded.Some? then (fs, Plain(VKNum(folded.value)))
    else
      var (fs1, _, o2) := Exp2RK(fs, e2);
      var (fs2, _, o1) := Exp2RK(fs1, e1);
      var fs3 := FreeTwo(fs2, o1, o2);
      (Code(fs3, Arith(op, 0, o1, o2)), Plain(VReloc(|fs3.code|)))
  }

  /** The test that codecomp emits */
  function Comparison(op: CompOp, ra: RK, rb: RK): Instr {
    match op
    case OpEq => Eq(true, ra, rb)
    case OpNe => Eq(false, ra, rb)
    case OpLt => Lt(true, ra, rb)
    case OpLe => Le(true, ra, rb)
    case OpGt => Lt(true, rb, ra)
    case OpGe => Le(true, rb, ra)
  }

  /** codecomp: `>' and `>=' exchange their operands */
  function CodeComp(fs: FS, op: CompOp, e1: Exp, e2: Exp): (FS, Exp) {
    var (fs1, _, o1) := Exp2RK(fs, e1);
    var (fs2, _, o2) := Exp2RK(fs1, e2);
    var fs3 := FreeRK(FreeRK(fs2, o2), o1);
    var (fs4, list) := CondJump(fs3, Comparison(op, o1, o2));
    (fs4, Plain(VJmp(list[0])))
  }

  /** luaK_prefix for `-' */
  function CodeMinus(sem: Sem, fs: FS, e: Exp): (FS, Exp) {
    var (fs0, e0) := if e.k.VK? then Exp2AnyReg(fs, e) else (fs, e);
    if IsNumeral(e0) && !sem.nan(sem.neg(e0.k.n)) then (fs0, Plain(VKNum(sem.neg(e0.k.n))))
    else
      var (fs1, _, o1) := Exp2RK(fs0, e0);
      var fs2 := FreeRK(fs1, o1);
      (Code(fs2, Unm(0, o1)), Plain(VReloc(|fs2.code|)))
  }

  /** luaK_prefix for `#' */
  function CodeLen(fs: FS, e: Exp): (FS, Exp) {
    var (fs0, e0) := Exp2AnyReg(fs, e);
    var (fs1, _, o1) := Exp2RK(fs0, e0);
    var fs2 := FreeRK(fs1, o1);
    (Code(fs2, Len(0, o1)), Plain(VReloc(|fs2.code|)))
  }

  /** luaK_infix for an arithmetic operator: a numeral waits for constant folding. */
  function InfixArith(fs: FS, e: Exp): (FS, Exp) {
    if IsNumeral(e) then (fs, e)
    else
      var (fs1, e1, _) := Exp2RK(fs, e);
      (fs1, e1)
  }

  function InfixComp(fs: FS, e: Exp): (FS, Exp) {
    var (fs1, e1, _) := Exp2RK(fs, e);
    (fs1, e1)
  }

  /** subexpr: the parser calls the generator on an operand as soon as it has read it. */
  function Gen(sem: Sem, fs: FS, x: Expr): (FS, Exp)
    decreases x
  {
    match x
    case ENil => (fs, Plain(VNil))
    case ETrue => (fs, Plain(VTrue))
    case EFalse => (fs, Plain(VFalse))
    case ENum(n) => (fs, Plain(VKNum(n)))
    case EStr(s) => (AddK(fs, s), Plain(VK(s)))
    case ELocal(r) => (fs, Plain(VLocal(r)))
    case EUpval(i) => (fs, Plain(VUpval(i)))
    case EGlobal(name) => (AddK(fs, name), Plain(VGlobal(name)))
    case EIndex(t, key) =>
      var (fs1, e1) := Gen(sem, fs, t);
      var (fs2, e2) := Exp2AnyReg(fs1, e1);
      var (fs3, e3) := Gen(sem, fs2, key);
      var (fs4, e4) := Exp2Val(fs3, e3);
      var (fs5, _, o) := Exp2RK(fs4, e4);
      (fs5, Plain(VIndexed(if e2.k.VNonReloc? then e2.k.reg else 0, o)))
    case EParen(e) =>
      var (fs1, e1) := Gen(sem, fs, e);
      DischargeVars(fs1, e1)
    case ENot(e) =>
      var (fs1, e1) := Gen(sem, fs, e);
      CodeNot(fs1, e1)
    case EMinus(e) =>
      var (fs1, e1) := Gen(sem, fs, e);
      CodeMinus(sem, fs1, e1)
    case ELen(e) =>
      var (fs1, e1) := Gen(sem, fs, e);
      CodeLen(fs1, e1)
    case EArith(op, a, b) =>
      var (fs1, e1) := Gen(sem, fs, a);
      var (fs2, e2) := InfixArith(fs1, e1);
      var (fs3, e3) := Gen(sem, fs2, b);
      CodeArith(sem, fs3, op, e2, e3)
    case EComp(op, a, b) =>
      var (fs1, e1) := Gen(sem, fs, a);
      var (fs2, e2) := InfixComp(fs1, e1);
      var (fs3, e3) := Gen(sem, fs2, b);
      CodeComp(fs3, op, e2, e3)
    case EAnd(a, b) =>
      var (fs1, e1) := Gen(sem, fs, a);
      var (fs2, e2) := GoIfTrue(fs1, e1);
      var (fs3, e3) := Gen(sem, fs2, b);
      var (fs4, e4) := DischargeVars(fs3, e3);
      (fs4, e4.(f := e4.f + e2.f))
    case EOr(a, b) =>
      var (fs1, e1) := Gen(sem, fs, a);
      var (fs2, e2) := GoIfFalse(fs1, e1);
      var (fs3, e3) := Gen(sem, fs2, b);
      var (fs4, e4) := DischargeVars(fs3, e3);
      (fs4, e4.(t := e4.t + e2.t))
  }

  /** cond: a condition falls through when it holds; the list holds the jumps taken when it does not. */
  function Cond(sem: Sem, fs: FS, x: Expr): (FS, seq<nat>) {
    var (fs1, e1) := Gen(sem, fs, x);
    var e2 := if e1.k.VNil? then e1.(k := VFalse) else e1;
    var (fs3, e3) := GoIfTrue(fs1, e2);
    (fs3, e3.f)
  }
}
