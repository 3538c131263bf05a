/** What every step of the code generator keeps, and what emitting an instruction does to runs. */
module LuaState {
  import opened Basics
  import opened LuaVm
  import opened LuaGen
  import opened LuaRun

  /** The instruction at `p` sends control to `to`, past the next instruction. */
  predicate Lands(code: seq<Instr>, p: nat, to: nat)
    requires p < |code|
  {
    || (code[p].Jmp? && code[p].dest == Some(to))
    || (code[p].LoadBool? && code[p].skip && p + 2 == to)
  }

  /** The invariant of the generator's state; `start` is where the code under study begins. */
  ghost predicate Ok(fs: FS, start: nat) {
    && WF(fs.code, start)
    && Waiting(fs.code, fs.jpc)
    && fs.lasttarget <= |fs.code|
    && (fs.jpc != [] ==> fs.lasttarget == |fs.code|)
    && (forall p :: start <= p < |fs.code| && Lands(fs.code, p, |fs.code|) ==> fs.lasttarget == |fs.code|)
    && (start == |fs.code| && start > 0 ==> fs.lasttarget == |fs.code| || !fs.code[start - 1].LoadNil?)
    && fs.nactvar <= fs.freereg
  }

  /** At the start of a function the registers above the parameters hold nil. */
  ghost predicate Init(fs: FS, start: nat, r: Regs) {
    start == 0 ==> forall x :: x >= fs.nactvar ==> Get(r, x) == Nil
  }

  /** The jumps waiting for the next instruction arrive at the end of the code. */
  function Arrived(o: Outcome, jpc: seq<nat>): Outcome {
    if o.Exit? && o.j in jpc then Fall(o.regs) else o
  }

  /** Running the code generated so far. */
  function Arr(sem: Sem, fs: FS, start: nat, r: Regs): Outcome {
    Arrived(Run(sem, fs.code, start, |fs.code|, r), fs.jpc)
  }

  // ---- frames ---------------------------------------------------------------

  predicate IsWaiting(code: seq<Instr>, j: nat) { j < |code| && code[j] == Jmp(None) }

  /** A waiting jump, its test included, is as it was. */
  predicate Kept(code: seq<Instr>, code': seq<Instr>, j: nat) {
    && IsWaiting(code, j) && IsWaiting(code', j)
    && (j > 0 ==> IsTest(code'[j - 1]) == IsTest(code[j - 1]) && (IsTest(code[j - 1]) ==> code'[j - 1] == code[j - 1]))
  }

  /**
   A step that owns the jumps `o` before and `o'` after: it leaves all other
   waiting jumps alone, and acquires new ones only.
   */
  ghost predicate Evolves(fs: FS, o: set<nat>, fs': FS, o': set<nat>) {
    && |fs.code| <= |fs'.code| && fs'.nactvar == fs.nactvar && fs.k <= fs'.k
    && (forall j :: j in fs'.jpc || j in o' ==> j in fs.jpc || j in o || j >= |fs.code|)
    && (forall j :: IsWaiting(fs.code, j) && j !in fs.jpc && j !in o ==> Kept(fs.code, fs'.code, j))
  }

  lemma EvolvesTrans(fs: FS, o: set<nat>, fs1: FS, o1: set<nat>, fs2: FS, o2: set<nat>)
    requires Evolves(fs, o, fs1, o1) && Evolves(fs1, o1, fs2, o2)
    ensures Evolves(fs, o, fs2, o2)
  {
    forall j | IsWaiting(fs.code, j) && j !in fs.jpc && j !in o ensures Kept(fs.code, fs2.code, j) {
      assert Kept(fs.code, fs1.code, j);
      assert Kept(fs1.code, fs2.code, j);
    }
  }

  /** What another part of the generator still owns stays with it. */
  lemma EvolvesBeside(fs: FS, o: set<nat>, fs': FS, o': set<nat>, x: set<nat>)
    requires Evolves(fs, o, fs', o')
    requires forall j :: j in x ==> IsWaiting(fs.code, j) && j !in fs.jpc && j !in o
    ensures Evolves(fs, o + x, fs', o' + x)
    ensures forall j :: j in x ==> Kept(fs.code, fs'.code, j) && j !in fs'.jpc && j !in o'
  {
    forall j | j in x ensures Kept(fs.code, fs'.code, j) && j !in fs'.jpc && j !in o' {
      assert IsWaiting(fs.code, j);
    }
  }

  lemma WaitingKept(code: seq<Instr>, code': seq<Instr>, list: seq<nat>)
    requires Waiting(code, list) && forall j :: j in list ==> Kept(code, code', j)
    ensures Waiting(code', list)
    ensures forall j :: j in list ==> IsTestSet(code', j) == IsTestSet(code, j)
    ensures forall j :: j in list && IsTestSet(code, j) ==> code'[j - 1] == code[j - 1]
  {
    forall j | j in list ensures IsWaiting(code', j) { assert Kept(code, code', j); }
  }

  // ---- discharging the jumps that wait for the next instruction -------------

  lemma DischargeOk(sem: Sem, fs: FS, start: nat)
    requires Ok(fs, start)
    ensures var d := DischargeJpc(fs);
      && |d.code| == |fs.code| && Ok(d, start) && Evolves(fs, {}, d, {})
      && forall r :: Run(sem, d.code, start, |d.code|, r) == Arr(sem, fs, start, r)
  {
    var d := DischargeJpc(fs);
    var n := |fs.code|;
    var js := Elems(fs.jpc);
    PatchListExact(fs.code, fs.jpc, n, NO_REG, n);
    DischargeWF(fs, start, d, js);
    DischargeFrame(fs, d, js);
    forall r ensures Run(sem, d.code, start, n, r) == Arr(sem, fs, start, r) {
      RunPatched(sem, fs.code, d.code, start, js, n, NO_REG, n, start, n, r);
    }
  }

  lemma DischargeWF(fs: FS, start: nat, d: FS, js: set<nat>)
    requires Ok(fs, start) && js == Elems(fs.jpc)
    requires d == fs.(code := d.code, jpc := []) && Patched(fs.code, d.code, js, |fs.code|, NO_REG, |fs.code|)
    ensures Ok(d, start) && (js != {} ==> Boundary(fs.code, |fs.code|))
    ensures forall j :: j in js ==> j < |fs.code| && fs.code[j] == Jmp(None)
  {
    var n := |fs.code|;
    if js != {} && n > start { assert WfAt(fs.code, n - 1); }
    PatchedWF(fs.code, d.code, start, js, n, NO_REG, n);
    forall p | start <= p < n && Lands(d.code, p, n) ensures d.lasttarget == n {
      assert d.code[p] == PatchedAt(fs.code, js, n, NO_REG, n, p);
      if p in js { assert p in fs.jpc; } else { assert Lands(fs.code, p, n); }
    }
    if start == n && start > 0 {
      assert d.code[n - 1] == PatchedAt(fs.code, js, n, NO_REG, n, n - 1);
    }
  }

  lemma DischargeFrame(fs: FS, d: FS, js: set<nat>)
    requires d == fs.(code := d.code, jpc := []) && Patched(fs.code, d.code, js, |fs.code|, NO_REG, |fs.code|)
    requires js == Elems(fs.jpc) && Waiting(fs.code, fs.jpc)
    ensures Evolves(fs, {}, d, {})
  {
    forall j | IsWaiting(fs.code, j) && j !in fs.jpc ensures Kept(fs.code, d.code, j) {
      PatchedKept(fs.code, d.code, js, |fs.code|, NO_REG, |fs.code|, j);
    }
  }

  lemma PatchedKept(code: seq<Instr>, done: seq<Instr>, js: set<nat>, vt: nat, reg: nat, dt: nat, j: nat)
    requires Patched(code, done, js, vt, reg, dt) && IsWaiting(code, j) && j !in js
    requires forall x :: x in js ==> IsWaiting(code, x)
    ensures Kept(code, done, j)
  {
    assert done[j] == PatchedAt(code, js, vt, reg, dt, j);
    if j > 0 { assert done[j - 1] == PatchedAt(code, js, vt, reg, dt, j - 1); }
  }

  // ---- emitting instructions ------------------------------------------------

  /** Neither a jump nor a test, and it does not skip. */
  predicate Straight(i: Instr) { !i.Jmp? && !IsTest(i) && !(i.LoadBool? && i.skip) }

  /** The effect of a straight instruction. */
  function Effect(sem: Sem, i: Instr, r: Regs): Outcome {
    if i.LoadNil? then Fall(SetNils(r, i.a, i.b))
    else if Straight(i) then
      var v := InstrValue(sem, i, r);
      if v.None? then Error else Fall(Set(r, i.a, v.value))
    else Error
  }

  function AfterFall(sem: Sem, o: Outcome, i: Instr): Outcome {
    if o.Fall? then Effect(sem, i, o.regs) else o
  }

  lemma AppendWF(code: seq<Instr>, start: nat, tail: seq<Instr>)
    requires WF(code, start)
    requires forall p :: |code| <= p < |code| + |tail| ==> WfAt(code + tail, p)
    ensures WF(code + tail, start)
  {
    forall p | start <= p < |code + tail| ensures WfAt(code + tail, p) {
      if p < |code| { assert WfAt(code, p); }
    }
  }

  lemma CodeOk(sem: Sem, fs: FS, start: nat, i: Instr)
    requires Ok(fs, start) && Straight(i)
    ensures var c := Code(fs, i);
      && Ok(c, start) && Evolves(fs, {}, c, {})
      && forall r :: Arr(sem, c, start, r) == AfterFall(sem, Arr(sem, fs, start, r), i)
  {
    var d, c := DischargeJpc(fs), Code(fs, i);
    DischargeOk(sem, fs, start);
    AppendWF(d.code, start, [i]);
    forall p | start <= p < |c.code| ensures !Lands(c.code, p, |c.code|) {
      if p < |d.code| { assert WfAt(d.code, p); }
    }
    AppendFrame(d, [i], []);
    EvolvesTrans(fs, {}, d, {}, c, {});
    forall r ensures Arr(sem, c, start, r) == AfterFall(sem, Arr(sem, fs, start, r), i) {
      RunExtend(sem, d.code, c.code, start, start, |c.code|, r);
      StepOne(sem, c.code, |d.code|, Run(sem, d.code, start, |d.code|, r), i);
    }
  }

  lemma StepOne(sem: Sem, code: seq<Instr>, n: nat, o: Outcome, i: Instr)
    requires |code| == n + 1 && code[n] == i && Straight(i)
    ensures Then(sem, o, code, n, n + 1) == AfterFall(sem, o, i)
  {
    assert forall r :: Run(sem, code, n + 1, n + 1, r) == Fall(r);
  }

  lemma AppendFrame(fs: FS, tail: seq<Instr>, list: seq<nat>)
    requires forall j :: j in list ==> j in fs.jpc || j >= |fs.code|
    ensures Evolves(fs, {}, fs.(code := fs.code + tail, jpc := []), Elems(list))
  {
  }

  /** A bare jump joins the jumps that were waiting for it. */
  lemma JumpOk(sem: Sem, fs: FS, start: nat)
    requires Ok(fs, start)
    ensures var (c, list) := Jump(fs);
      && Ok(c, start) && c.jpc == [] && c == fs.(code := fs.code + [Jmp(None)], jpc := [])
      && Waiting(c.code, list) && Evolves(fs, {}, c, Elems(list))
      && forall r :: var o := Arr(sem, fs, start, r);
           if o.Fall? then exists j :: j in list && Run(sem, c.code, start, |c.code|, r) == Exit(j, o.regs)
           else Run(sem, c.code, start, |c.code|, r) == o && (o.Exit? ==> o.j !in list)
  {
    var (c, list) := Jump(fs);
    var n := |fs.code|;
    assert c.code == fs.code + [Jmp(None)];
    AppendWF(fs.code, start, [Jmp(None)]);
    forall p | start <= p < |c.code| ensures !Lands(c.code, p, |c.code|) {
      if p < n { assert WfAt(fs.code, p); }
    }
    forall a, b | 0 <= a < b < |list| ensures list[a] != list[b] {
      assert list[b] == fs.jpc[b - 1] && list[b] in fs.jpc;
      if a > 0 { assert list[a] == fs.jpc[a - 1]; }
    }
    AppendFrame(fs, [Jmp(None)], list);
    forall r ensures var o := Arr(sem, fs, start, r);
      if o.Fall? then exists j :: j in list && Run(sem, c.code, start, |c.code|, r) == Exit(j, o.regs)
      else Run(sem, c.code, start, |c.code|, r) == o && (o.Exit? ==> o.j !in list)
    {
      RunExtend(sem, fs.code, c.code, start, start, |c.code|, r);
      var b := Run(sem, fs.code, start, n, r);
      ExitsWaiting(sem, fs.code, start, start, n, r);
      if b.Fall? {
        assert n in list && Run(sem, c.code, n, n + 1, b.regs) == Exit(n, b.regs);
      } else if b.Exit? && b.j in fs.jpc { assert b.j in list; }
    }
  }

  /** A run leaves by a waiting jump only. */
  lemma {:induction false} ExitsWaiting(sem: Sem, code: seq<Instr>, start: nat, pc: nat, hi: nat, r: Regs)
    requires WF(code, start) && start <= pc
    ensures var o := Run(sem, code, pc, hi, r); o.Exit? ==> IsWaiting(code, o.j) && o.j >= start
    decreases if pc <= |code| then |code| - pc else 0
  {
    if pc < |code| && pc < hi {
      var i := code[pc];
      assert WfAt(code, pc);
      if IsTest(i) {
        var jumps := Jumps(sem, i, r);
        assert WfAt(code, pc + 1);
        if jumps == Some(true) && code[pc + 1].dest.Some? {
          ExitsWaiting(sem, code, start, code[pc + 1].dest.value, hi, if i.TestSet? then Set(r, i.a, Get(r, i.b))
              else r);
        } else if jumps == Some(false) {
          ExitsWaiting(sem, code, start, pc + 2, hi, r);
        }
      } else if i.Jmp? {
        if i.dest.Some? { ExitsWaiting(sem, code, start, i.dest.value, hi, r); }
      } else if i.LoadNil? {
        ExitsWaiting(sem, code, start, pc + 1, hi, SetNils(r, i.a, i.b));
      } else {
        var v := InstrValue(sem, i, r);
        if v.Some? {
          ExitsWaiting(sem, code, start, if i.LoadBool? && i.skip then pc + 2 else pc + 1, hi, Set(r, i.a, v.value));
        }
      }
    }
  }

  /** A test and its jump. */
  function AfterTest(sem: Sem, o: Outcome, test: Instr, j: nat): Outcome {
    if o.Fall? then
      match Jumps(sem, test, o.regs) {
        case None => Error
        case Some(b) => if b then Exit(j, o.regs) else o
      }
    else o
  }

  lemma CondJumpOk(sem: Sem, fs: FS, start: nat, test: Instr)
    requires Ok(fs, start) && IsTest(test)
    ensures var (c, list) := CondJump(fs, test);
      && list == [|fs.code| + 1] && Ok(c, start) && c.jpc == []
      && c == fs.(code := DischargeJpc(fs).code + [test, Jmp(None)], jpc := [])
      && Evolves(fs, {}, c, Elems(list)) && IsWaiting(c.code, |fs.code| + 1)
      && forall r :: Arr(sem, c, start, r) == AfterTest(sem, Arr(sem, fs, start, r), test, |fs.code| + 1)
  {
    var d := DischargeJpc(fs);
    var n := |fs.code|;
    var (c, list) := CondJump(fs, test);
    DischargeOk(sem, fs, start);
    assert c.code == d.code + [test, Jmp(None)];
    AppendWF(d.code, start, [test, Jmp(None)]);
    forall p | start <= p < |c.code| ensures !Lands(c.code, p, |c.code|) {
      if p < n { assert WfAt(d.code, p); }
    }
    AppendFrame(d, [test, Jmp(None)], list);
    EvolvesTrans(fs, {}, d, {}, c, Elems(list));
    forall r ensures Arr(sem, c, start, r) == AfterTest(sem, Arr(sem, fs, start, r), test, n + 1) {
      RunExtend(sem, d.code, c.code, start, start, |c.code|, r);
      StepTest(sem, c.code, n, Run(sem, d.code, start, n, r), test);
    }
  }

  lemma StepTest(sem: Sem, code: seq<Instr>, n: nat, o: Outcome, test: Instr)
    requires |code| == n + 2 && code[n] == test && code[n + 1] == Jmp(None) && IsTest(test)
    ensures Then(sem, o, code, n, n + 2) == AfterTest(sem, o, test, n + 1)
  {
    if o.Fall? {
      var r := o.regs;
      assert Run(sem, code, n + 2, n + 2, r) == Fall(r);
      var after := if test.TestSet? then Set(r, test.a, Get(r, test.b)) else r;
      assert Take(sem, code, n + 1, n + 2, r, after) == Exit(n + 1, r);
      match Jumps(sem, test, r)
      case None =>
      case Some(b) => if b { assert Run(sem, code, n, n + 2, r) == Exit(n + 1, r); }
    }
  }

  // ---- luaK_nil -------------------------------------------------------------

  lemma {:induction false} SetNilsAt(r: Regs, a: nat, b: nat, x: nat)
    ensures Get(SetNils(r, a, b), x) == if a <= x <= b then Nil else Get(r, x)
    decreases b
  {
    if b >= a && b > 0 { SetNilsAt(r, a, b - 1, x); }
  }

  /** LOADNIL a..b extended to reach `reg` */
  function Extended(i: Instr, reg: nat): Instr
    requires i.LoadNil?
  {
    if reg > i.b then LoadNil(i.a, reg) else i
  }

  lemma ExtendedEffect(i: Instr, reg: nat, r: Regs)
    requires i.LoadNil? && i.a <= reg <= i.b + 1
    ensures SetNils(r, i.a, Extended(i, reg).b) == Set(SetNils(r, i.a, i.b), reg, Nil)
  {
    SetNilsAt(r, i.a, i.b, reg);
  }

  /** When nothing jumps past the last instruction, a run that falls to the end has executed it. */
  lemma {:induction false} LastExecuted(sem: Sem, code: seq<Instr>, code': seq<Instr>, start: nat, pc: nat, r: Regs,
                                        reg: nat)
    requires WF(code, start) && start <= pc < |code| && Boundary(code, pc)
    requires forall p :: start <= p < |code| ==> !Lands(code, p, |code|)
    requires code[|code| - 1].LoadNil? && code[|code| - 1].a <= reg <= code[|code| - 1].b + 1
    requires code' == code[|code| - 1 := Extended(code[|code| - 1], reg)]
    ensures Run(sem, code', pc, |code|, r) ==
      var o := Run(sem, code, pc, |code|, r); if o.Fall? then Fall(Set(o.regs, reg, Nil)) else o
    decreases |code| - pc
  {
    var i, n := code[pc], |code|;
    assert WfAt(code, pc) && !Lands(code, pc, n);
    if pc == n - 1 {
      ExtendedEffect(i, reg, r);
      assert forall x :: Run(sem, code, n, n, x) == Fall(x) && Run(sem, code', n, n, x) == Fall(x);
    } else if IsTest(i) {
      var jumps := Jumps(sem, i, r);
      assert WfAt(code, pc + 1) && !Lands(code, pc + 1, n);
      if jumps == Some(true) && code[pc + 1].dest.Some? {
        LastExecuted(sem, code, code', start, code[pc + 1].dest.value,
                     if i.TestSet? then Set(r, i.a, Get(r, i.b)) else r, reg);
      } else if jumps == Some(false) {
        LastExecuted(sem, code, code', start, pc + 2, r, reg);
      }
    } else if i.Jmp? {
      if i.dest.Some? { LastExecuted(sem, code, code', start, i.dest.value, r, reg); }
    } else if i.LoadNil? {
      LastExecuted(sem, code, code', start, pc + 1, SetNils(r, i.a, i.b), reg);
    } else {
      var v := InstrValue(sem, i, r);
      if v.Some? {
        LastExecuted(sem, code, code', start, if i.LoadBool? && i.skip then pc + 2
            else pc + 1, Set(r, i.a, v.value), reg);
      }
    }
  }

  function WithNil(o: Outcome, reg: nat): Outcome {
    if o.Fall? then Fall(Set(o.regs, reg, Nil)) else o
  }

  /** luaK_nil gives the register nil, even when it only extends the previous LOADNIL or emits nothing. */
  lemma NilOk(sem: Sem, fs: FS, start: nat, reg: nat)
    requires Ok(fs, start) && reg >= fs.nactvar
    ensures var c := Nil1(fs, reg);
      && Ok(c, start) && Evolves(fs, {}, c, {}) && c == fs.(code := c.code, jpc := c.jpc)
      && forall r :: Init(fs, start, r) ==> Arr(sem, c, start, r) == WithNil(Arr(sem, fs, start, r), reg)
  {
    var n, c := |fs.code|, Nil1(fs, reg);
    if n > fs.lasttarget && n == 0 {
      forall r | Init(fs, start, r) ensures Arr(sem, c, start, r) == WithNil(Arr(sem, fs, start, r), reg) {
        assert Run(sem, fs.code, 0, 0, r) == Fall(r) && Get(r, reg) == Nil;
      }
    } else if n > fs.lasttarget && n > 0 && fs.code[n - 1].LoadNil? && fs.code[n - 1].a <= reg <= fs.code[n - 1].b + 1 {
      assert c.code == fs.code[n - 1 := Extended(fs.code[n - 1], reg)];
      MergeOk(fs, start, c, reg);
      forall r ensures Arr(sem, c, start, r) == WithNil(Arr(sem, fs, start, r), reg) {
        LastExecuted(sem, fs.code, c.code, start, start, r, reg);
      }
    } else {
      CodeOk(sem, fs, start, LoadNil(reg, reg));
      forall r ensures Arr(sem, c, start, r) == WithNil(Arr(sem, fs, start, r), reg) {
        var o := Arr(sem, fs, start, r);
        if o.Fall? { OneNil(o.regs, reg); }
      }
    }
  }

  lemma OneNil(r: Regs, reg: nat)
    ensures SetNils(r, reg, reg) == Set(r, reg, Nil)
  {
  }

  lemma MergeOk(fs: FS, start: nat, c: FS, reg: nat)
    requires Ok(fs, start) && |fs.code| > fs.lasttarget && |fs.code| > 0 && fs.code[|fs.code| - 1].LoadNil?
    requires c == fs.(code := fs.code[|fs.code| - 1 := Extended(fs.code[|fs.code| - 1], reg)])
    ensures Ok(c, start) && Evolves(fs, {}, c, {}) && start < |fs.code|
    ensures forall p :: start <= p < |fs.code| ==> !Lands(fs.code, p, |fs.code|)
  {
    var n := |fs.code|;
    forall p | start <= p < n ensures WfAt(c.code, p) && (Lands(c.code, p, n) ==> Lands(fs.code, p, n)) {
      assert WfAt(fs.code, p);
    }
    forall j | IsWaiting(fs.code, j) ensures Kept(fs.code, c.code, j) {}
  }
}
