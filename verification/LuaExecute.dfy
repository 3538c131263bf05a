/** The main loop of the virtual machine (lvm.c) over stored code, and expressions from source to value. */
module LuaExecute {
  import opened Basics
  import opened LuaVm
  import G = LuaGen
  import opened LuaRun
  import opened LuaFuncState
  import C = LuaCodeGen
  import S = LuaSound
  import State = LuaState
  import T = LuaTheorems
  import R = LuaReg

  lemma {:induction false} NilsCommute(r: Regs, a: nat, m: nat, j: nat)
    requires m < j
    ensures SetNils(Set(r, j, Nil), a, m) == Set(SetNils(r, a, m), j, Nil)
    decreases m
  {
    if m < a {
    } else if m == 0 {
      SetTwice(r, 0, j);
    } else {
      NilsCommute(r, a, m - 1, j);
      SetTwice(SetNils(r, a, m - 1), m, j);
    }
  }

  lemma SetTwice(r: Regs, a: nat, b: nat)
    requires a != b
    ensures Set(Set(r, a, Nil), b, Nil) == Set(Set(r, b, Nil), a, Nil)
  {
  }

  /** A Lua call: its registers, and the instruction to execute next */
  class Frame {
    var regs: Regs
    var pc: nat

    constructor (regs: Regs)
      ensures this.regs == regs && pc == 0
    {
      this.regs, pc := regs, 0;
    }

    /** OP_LOADNIL, from the last register down */
    method LoadNils(a: nat, b: nat)
      modifies this`regs
      ensures regs == SetNils(old(regs), a, b)
    {
      var rb: int := b;
      while rb >= a
        invariant rb <= b
        invariant (if rb < a then regs else SetNils(regs, a, rb)) == SetNils(old(regs), a, b)
        decreases rb - a
      {
        ghost var r := regs;
        if rb > 0 { NilsCommute(r, a, rb - 1, rb); }
        regs := Set(regs, rb, Nil);
        rb := rb - 1;
      }
    }

    /**
     luaV_execute on a finished expression: tests are followed by their jumps, jumps go forward.
     The result is false on a run-time error.
     */
    method Execute(sem: Sem, code: seq<Cell>) returns (ok: bool)
      requires CellsOk(code, {}) && WF(Instrs(code, {}), 0) && pc == 0
      modifies this
      ensures Run(sem, Instrs(code, {}), 0, |code|, old(regs)) == if ok then Fall(regs) else Error
    {
      hide Instrs, InstrAt, CellOk, SetNils, InstrValue, Jumps, Run, Take;
      ghost var instrs := Instrs(code, {});
      while pc < |code|
        invariant Run(sem, instrs, pc, |code|, regs) == Run(sem, instrs, 0, |code|, old(regs))
        decreases |code| - pc
      {
        OneStep(sem, code, pc, regs);
        var at := pc;
        var c := code[pc];
        pc := pc + 1;
        if c.Goto? {
          pc := pc + c.sbx;
        } else if IsTest(c.i) {
          var jumps := Jumps(sem, c.i, regs);
          if jumps.None? { return false; }
          if jumps.value {
            if c.i.TestSet? { regs := Set(regs, c.i.a, Get(regs, c.i.b)); }
            pc := pc + code[pc].sbx;
          }
          pc := pc + 1;
        } else if c.i.LoadNil? {
          LoadNils(c.i.a, c.i.b);
        } else {
          var v := InstrValue(sem, c.i, regs);
          if v.None? { return false; }
          regs := Set(regs, c.i.a, v.value);
          if c.i.LoadBool? && c.i.skip { pc := pc + 1; }
        }
      }
      RunEnd(sem, instrs, pc, |code|, regs);
      ok := true;
    }
  }

  lemma RunEnd(sem: Sem, instrs: seq<Instr>, pc: nat, hi: nat, r: Regs)
    requires pc >= hi
    ensures Run(sem, instrs, pc, hi, r) == Fall(r)
  {
  }

  /** What one round of the loop has to do */
  lemma OneStep(sem: Sem, code: seq<Cell>, pc: nat, r: Regs)
    requires CellsOk(code, {}) && WF(Instrs(code, {}), 0) && pc < |code|
    ensures var run := Run(sem, Instrs(code, {}), pc, |code|, r);
      match code[pc]
      case Goto(sbx) => sbx >= 0 && run == Run(sem, Instrs(code, {}), pc + 1 + sbx, |code|, r)
      case Op(i) =>
        if IsTest(i) then
          && pc + 1 < |code| && code[pc + 1].Goto? && code[pc + 1].sbx >= 0
          && run == (match Jumps(sem, i, r)
               case None => Error
               case Some(true) => Run(sem, Instrs(code, {}), pc + 2 + code[pc + 1].sbx, |code|, if i.TestSet? then
                   Set(r, i.a, Get(r, i.b)) else r)
               case Some(false) => Run(sem, Instrs(code, {}), pc + 2, |code|, r))
        else if i.LoadNil? then run == Run(sem, Instrs(code, {}), pc + 1, |code|, SetNils(r, i.a, i.b))
        else !i.Jmp? && run == (match InstrValue(sem, i, r)
               case None => Error
               case Some(v) => Run(sem, Instrs(code, {}), if i.LoadBool? && i.skip then pc + 2
                   else pc + 1, |code|, Set(r, i.a, v)))
  {
    hide InstrValue, Jumps, SetNils;
    var instrs := Instrs(code, {});
    assert CellOk(code, {}, pc) && WfAt(instrs, pc);
    if pc + 1 < |code| { assert CellOk(code, {}, pc + 1) && WfAt(instrs, pc + 1); }
  }

  // ---- from source to value -------------------------------------------------------

  /** The code of a single expression, all of its jumps with their targets */
  function Compiled(sem: Sem, n: nat, x: G.Expr): seq<Instr> {
    G.DischargeJpc(T.ToNextReg(sem, T.Fresh(n), x)).code
  }

  lemma CompiledWF(sem: Sem, n: nat, x: G.Expr, y: Regs)
    requires S.Scoped(x, n) && n + S.Height(x) < S.MAXSTACK && S.Exact(sem, T.Fresh(n), x, true)
    requires forall a :: a >= n ==> Get(y, a) == Nil
    ensures WF(Compiled(sem, n, x), 0)
  {
    hide T.ToNextReg, S.Exact, G.Eval, S.Height, G.DischargeJpc;
    assert Run(sem, [], 0, 0, y) == Fall(y);
    T.ValuePreserved(sem, T.Fresh(n), x, 0, y, y);
    State.DischargeOk(sem, T.ToNextReg(sem, T.Fresh(n), x), 0);
  }

  /** The generator on an expression by itself; no jump is left waiting. */
  method Compile(sem: Sem, n: nat, x: G.Expr) returns (fs: FuncState)
    ensures fresh(fs) && CellsOk(fs.code, {}) && Instrs(fs.code, {}) == Compiled(sem, n, x)
  {
    hide C.Beside, C.Held, C.Owned, G.Gen, G.Exp2NextReg, G.DischargeJpc, Chain, CellOk, InstrAt, Instrs;
    fs := new FuncState(n);
    ghost var s := C.Stored(fs);
    var e := new C.ExpDesc(G.VNil);
    C.SubExpr(sem, fs, e, x);
    ghost var s1, o1 := C.Stored(fs), C.Owned(e.View());
    NoJumps(fs.View(), e.View());
    C.Exp2NextReg(fs, e);
    ghost var s2 := C.Stored(fs);
    C.BesideTrans(s, {}, s1, o1, s2, C.Owned(e.View()));
    fs.DischargeJpc();
    NoneWaits(s, s2, C.Owned(e.View()), fs.waiting);
  }

  /**
   The whole way: compiling an expression and running the stored code yields the
   value of the expression, or fails if the expression does.
   */
  method Evaluate(sem: Sem, n: nat, x: G.Expr, y: Regs) returns (v: Option<Value>)
    requires S.Scoped(x, n) && n + S.Height(x) < S.MAXSTACK && S.Exact(sem, T.Fresh(n), x, true)
    requires forall a :: a >= n ==> Get(y, a) == Nil
    ensures v == G.Eval(sem, x, y)
  {
    hide S.Exact, S.Height, S.Scoped, Compiled, Run, G.Eval, CellOk, Instrs, WF;
    CompiledWF(sem, n, x, y);
    CompiledRuns(sem, n, x, y);
    var fs := Compile(sem, n, x);
    var f := new Frame(y);
    var ok := f.Execute(sem, fs.code);
    v := if ok then Some(Get(f.regs, n)) else None;
  }

  /** The same for every expression whose text is simple, a condition on the source alone */
  method EvaluateSimple(sem: Sem, n: nat, x: G.Expr, y: Regs) returns (v: Option<Value>)
    requires S.Scoped(x, n) && n + S.Height(x) < S.MAXSTACK && T.Simple(x, true) && T.Numerals(sem, x)
    requires forall m :: !sem.nan(m) ==> !sem.nan(sem.neg(m))
    requires forall a :: a >= n ==> Get(y, a) == Nil
    ensures v == G.Eval(sem, x, y)
  {
    hide S.Exact, G.Eval, S.Height;
    FreshGood(sem, n, x);
    T.SimpleExact(sem, T.Fresh(n), x, 0, true);
    v := Evaluate(sem, n, x, y);
  }

  lemma FreshGood(sem: Sem, n: nat, x: G.Expr)
    requires S.Scoped(x, n) && n + S.Height(x) < S.MAXSTACK && T.Simple(x, true) && T.Numerals(sem, x)
    requires forall m :: !sem.nan(m) ==> !sem.nan(sem.neg(m))
    ensures T.Good(sem, T.Fresh(n), x, 0, true)
  {
  }

  lemma CompiledRuns(sem: Sem, n: nat, x: G.Expr, y: Regs)
    requires S.Scoped(x, n) && n + S.Height(x) < S.MAXSTACK && S.Exact(sem, T.Fresh(n), x, true)
    requires forall a :: a >= n ==> Get(y, a) == Nil
    ensures var o, v := Run(sem, Compiled(sem, n, x), 0, |Compiled(sem, n, x)|, y), G.Eval(sem, x, y);
      if v.None? then o == Error else o.Fall? && Get(o.regs, n) == v.value
  {
    hide S.Exact, S.Height, S.Scoped, T.ToNextReg, G.DischargeJpc, Run, G.Eval;
    T.WholeValue(sem, n, x, y);
  }

  lemma NoJumps(fs: G.FS, e: G.Exp)
    ensures C.Owned(G.Exp2NextReg(fs, e).1) == {}
  {
    hide G.Discharge2Reg, G.CloseJumps, G.DischargeVars;
  }

  /** After the pending jumps got their targets none is left. */
  lemma NoneWaits(s: C.Store, s2: C.Store, own: set<nat>, waiting: set<nat>)
    requires C.Beside(s, {}, s2, own) && s.waiting == {} && own == {} && waiting == s2.waiting - Elems(s2.here)
    ensures waiting == {}
  {
  }
}
