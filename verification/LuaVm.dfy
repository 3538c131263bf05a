/**
 The instructions that expressions compile to, and what the virtual machine does
 with them (lvm.c). Operands that name a constant carry the constant itself; how
 the table of constants is indexed is shown with the code generator's state.
 */
module LuaVm {
  import opened Basics

  /** A Lua value; a number is given by its bit image. */
  datatype Value = Nil | Boolean(b: bool) | Number(image: int) | Other(id: int)

  predicate Truthy(v: Value) { v != Nil && v != Boolean(false) }

  datatype ArithOp = Add | Sub | Mul | Div | Mod | Pow

  datatype Event = TMArith(op: ArithOp) | TMUnm

  /** What the virtual machine leaves to number arithmetic, tables and metamethods. None is a run-time error. */
  datatype Sem = Sem(
    num: (ArithOp, int, int) -> int,                    // luai_numadd and its kin
    neg: int -> int,                                    // luai_numunm
    nan: int -> bool,
    zero: int -> bool,
    str2d: Value -> Option<int>,                        // luaO_str2d, when the value is a string
    metamethod: (Event, Value) -> Option<Value>,        // luaT_gettmbyobj
    call: (Value, Value, Value) -> Option<Value>,       // callTMres
    len: Value -> Option<Value>,
    eq: (Value, Value) -> Option<bool>,
    lt: (Value, Value) -> Option<bool>,
    le: (Value, Value) -> Option<bool>,
    index: (Value, Value) -> Option<Value>,
    global: Value -> Option<Value>,
    upval: nat -> Value)

  /** An operand that is a register or a constant. */
  datatype RK = R(reg: nat) | K(value: Value)

  datatype Instr =
    | Move(a: nat, b: nat)
    | LoadK(a: nat, kv: Value)
    | LoadBool(a: nat, flag: bool, skip: bool)
    | LoadNil(a: nat, b: nat)
    | GetUpval(a: nat, up: nat)
    | GetGlobal(a: nat, kv: Value)
    | GetTable(a: nat, b: nat, rc: RK)
    | Arith(op: ArithOp, a: nat, rb: RK, rc: RK)
    | Unm(a: nat, rb: RK)
    | Not(a: nat, b: nat)
    | Len(a: nat, rb: RK)
    | Jmp(dest: Option<nat>)               // None while the jump waits in a list
    | Eq(cond: bool, rb: RK, rc: RK)
    | Lt(cond: bool, rb: RK, rc: RK)
    | Le(cond: bool, rb: RK, rc: RK)
    | Test(a: nat, c: bool)
    | TestSet(a: nat, b: nat, c: bool)

  /** invalid register that fits in 8 bits */
  const NO_REG: nat := 255

  /** Mode bit T of an instruction: the next one is a jump. */
  predicate IsTest(i: Instr) { i.Eq? || i.Lt? || i.Le? || i.Test? || i.TestSet? }

  predicate IsComp(i: Instr) { i.Eq? || i.Lt? || i.Le? }

  /** A register that was never written holds nil. */
  type Regs = map<nat, Value>

  function Get(r: Regs, a: nat): Value { if a in r then r[a] else Nil }

  function Set(r: Regs, a: nat, v: Value): (s: Regs)
    ensures forall x :: Get(s, x) == if x == a then v else Get(r, x)
  {
    if Get(r, a) == v then r else r[a := v]
  }

  function RkValue(r: Regs, o: RK): Value {
    match o
    case R(reg) => Get(r, reg)
    case K(v) => v
  }

  function SetNils(r: Regs, a: nat, b: nat): Regs
    decreases b
  {
    if b < a then r
    else if b == 0 then Set(r, 0, Nil)
    else Set(SetNils(r, a, b - 1), b, Nil)
  }

  /** luaV_tonumber */
  function ToNumber(sem: Sem, v: Value): Option<int> { if v.Number? then Some(v.image) else sem.str2d(v) }

  /** call_binTM, and the error if there is no metamethod */
  function CallBinTM(sem: Sem, p1: Value, p2: Value, event: Event): Option<Value> {
    var first := sem.metamethod(event, p1);
    var tm := if first.None? then sem.metamethod(event, p2) else first;
    if tm.None? then None else sem.call(tm.value, p1, p2)
  }

  /** The function Arith: operands that look like numbers, else a metamethod */
  function ArithSlow(sem: Sem, rb: Value, rc: Value, event: Event): Option<Value> {
    var b, c := ToNumber(sem, rb), ToNumber(sem, rc);
    if b.Some? && c.Some? then
      match event
      case TMArith(op) => Some(Number(sem.num(op, b.value, c.value)))
      case TMUnm => Some(Number(sem.neg(b.value)))
    else CallBinTM(sem, rb, rc, event)
  }

  /** arith_op: numbers take the fast way. */
  function ArithValue(sem: Sem, op: ArithOp, x: Value, y: Value): Option<Value> {
    if x.Number? && y.Number? then Some(Number(sem.num(op, x.image, y.image))) else ArithSlow(sem, x, y, TMArith(op))
  }

  /** OP_UNM */
  function UnmValue(sem: Sem, x: Value): Option<Value> {
    if x.Number? then Some(Number(sem.neg(x.image))) else ArithSlow(sem, x, x, TMUnm)
  }

  /** The value an instruction puts into its register A. */
  function InstrValue(sem: Sem, i: Instr, r: Regs): Option<Value> {
    match i
    case Move(_, b) => Some(Get(r, b))
    case LoadK(_, v) => Some(v)
    case LoadBool(_, flag, _) => Some(Boolean(flag))
    case GetUpval(_, up) => Some(sem.upval(up))
    case GetGlobal(_, name) => sem.global(name)
    case GetTable(_, b, rc) => sem.index(Get(r, b), RkValue(r, rc))
    case Arith(op, _, rb, rc) => ArithValue(sem, op, RkValue(r, rb), RkValue(r, rc))
    case Unm(_, rb) =>
      // OP_UNM reads a register: a constant operand names a slot outside the frame.
      if rb.R? then UnmValue(sem, Get(r, rb.reg)) else None
    case Not(_, b) => Some(Boolean(!Truthy(Get(r, b))))
    case Len(_, rb) => if rb.R? then sem.len(Get(r, rb.reg)) else None
    case _ => None
  }

  /** Whether a test takes the jump that follows it. */
  function Jumps(sem: Sem, i: Instr, r: Regs): Option<bool> {
    match i
    case Eq(cond, rb, rc) => Agrees(sem.eq(RkValue(r, rb), RkValue(r, rc)), cond)
    case Lt(cond, rb, rc) => Agrees(sem.lt(RkValue(r, rb), RkValue(r, rc)), cond)
    case Le(cond, rb, rc) => Agrees(sem.le(RkValue(r, rb), RkValue(r, rc)), cond)
    case Test(a, c) => Some(Truthy(Get(r, a)) == c)
    case TestSet(_, b, c) => Some(Truthy(Get(r, b)) == c)
    case _ => None
  }

  function Agrees(x: Option<bool>, cond: bool): Option<bool> {
    if x.Some? then Some(x.value == cond) else None
  }

  /** A run of a piece of code ends at its end, at a jump that waits in a list, or in an error. */
  datatype Outcome = Fall(regs: Regs) | Exit(j: nat, regs: Regs) | Error

  /**
   luaV_execute from `pc` up to `hi`. Expressions only jump forward. A test that
   takes a waiting jump leaves before it writes: what a TESTSET will write is
   only known when its jump is patched.
   */
  function Run(sem: Sem, code: seq<Instr>, pc: nat, hi: nat, r: Regs): Outcome
    decreases if pc < hi then 2 * (hi - pc) else 0
  {
    if pc >= hi || pc >= |code| then Fall(r)
    else
      var i := code[pc];
      if IsTest(i) then
        match Jumps(sem, i, r) {
          case None => Error
          case Some(true) =>
            if pc + 1 >= |code| || !code[pc + 1].Jmp? then Error
            else Take(sem, code, pc + 1, hi, r, if i.TestSet? then Set(r, i.a, Get(r, i.b)) else r)
          case Some(false) => Run(sem, code, pc + 2, hi, r)
        }
      else if i.Jmp? then Take(sem, code, pc, hi, r, r)
      else if i.LoadNil? then Run(sem, code, pc + 1, hi, SetNils(r, i.a, i.b))
      else
        match InstrValue(sem, i, r) {
          case None => Error
          case Some(v) => Run(sem, code, if i.LoadBool? && i.skip then pc + 2 else pc + 1, hi, Set(r, i.a, v))
        }
  }

  /** The jump at `j`, with the registers before and after its controlling test wrote. */
  function Take(sem: Sem, code: seq<Instr>, j: nat, hi: nat, before: Regs, after: Regs): Outcome
    requires j < |code| && code[j].Jmp?
    decreases if j < hi then 2 * (hi - j) - 1 else 1
  {
    match code[j].dest
    case None => Exit(j, before)
    case Some(d) => if d <= j then Error else Run(sem, code, d, hi, after)
  }
}
