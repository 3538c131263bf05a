/**
 The code generator as it works (lcode.c): every function updates the state and the descriptor
 in place. Each is proved to do to what they stand for what its counterpart in LuaGen does,
 and to leave alone the jumps that other descriptors hold.
 */
module LuaCodeGen {
  import opened Basics
  import opened LuaVm
  import G = LuaGen
  import opened LuaRun
  import opened LuaFuncState

  // ---- who holds which jumps ------------------------------------------------------

  /** The code, its waiting jumps, and those of them that wait for the next instruction */
  datatype Store = Store(code: seq<Cell>, waiting: set<nat>, here: seq<nat>)

  ghost function Stored(fs: FuncState): Store
    reads fs
  {
    Store(fs.code, fs.waiting, fs.here)
  }

  /** Two lists of waiting jumps, apart from each other and from the pending ones */
  ghost predicate ListsHeld(s: Store, ts: seq<nat>, fs: seq<nat>, t: int, f: int) {
    && Listed(s.code, s.waiting, t, ts) && Listed(s.code, s.waiting, f, fs)
    && Elems(ts) !! Elems(fs) && (Elems(ts) + Elems(fs)) !! Elems(s.here)
  }

  ghost predicate Held(s: Store, x: G.Exp, t: int, f: int) {
    && ListsHeld(s, x.t, x.f, t, f)
    && (x.k.VJmp? ==> Listed(s.code, s.waiting, x.k.pc, [x.k.pc]) && x.k.pc !in Elems(x.t) + Elems(x.f) + Elems(s.here))
    && (x.k.VReloc? ==> x.k.pc < |s.code| && s.code[x.k.pc].Op?)
  }

  /** The jumps of a descriptor */
  ghost function Owned(x: G.Exp): set<nat> {
    Elems(x.t) + Elems(x.f) + if x.k.VJmp? then {x.k.pc} else {}
  }

  ghost predicate SameOps(code: seq<Cell>, code2: seq<Cell>) {
    |code| <= |code2| && forall p :: 0 <= p < |code| && code[p].Op? ==> code2[p].Op?
  }

  /** A step that turns the jumps `own' into `own2' leaves all others waiting, with their links, and abandons none. */
  ghost predicate Beside(s: Store, own: set<nat>, s2: Store, own2: set<nat>) {
    && SameOps(s.code, s2.code)
    && (forall p :: p in s.waiting && p < |s.code| && p !in s.here && p !in own ==>
         p in s2.waiting && p !in s2.here && p !in own2 && s2.code[p] == s.code[p])
    && forall p :: p in s2.waiting ==> p in s2.here || p in own2 || (p in s.waiting && p !in s.here && p !in own)
  }

  lemma BesideTrans(s: Store, own: set<nat>, s1: Store, own1: set<nat>, s2: Store, own2: set<nat>)
    requires Beside(s, own, s1, own1) && Beside(s1, own1, s2, own2)
    ensures Beside(s, own, s2, own2)
  {
  }

  lemma BesideMore(s: Store, s2: Store, own: set<nat>, more: set<nat>)
    requires Beside(s, {}, s2, more)
    ensures Beside(s, own, s2, own + more)
  {
  }

  lemma BesideExtra(s: Store, own: set<nat>, s2: Store, own2: set<nat>, x: set<nat>)
    requires Beside(s, own, s2, own2)
    ensures Beside(s, own + x, s2, own2 + x)
  {
  }

  lemma BesideSame(s: Store, own: set<nat>)
    ensures Beside(s, own, s, own)
  {
  }

  /** What a descriptor holds survives a step beside it. */
  lemma ListedBeside(s: Store, own: set<nat>, s2: Store, own2: set<nat>, head: int, list: seq<nat>)
    requires Beside(s, own, s2, own2) && Listed(s.code, s.waiting, head, list)
    requires Elems(list) !! own && Elems(list) !! Elems(s.here)
    ensures Listed(s2.code, s2.waiting, head, list) && Elems(list) !! own2 && Elems(list) !! Elems(s2.here)
  {
    ChainJumps(s.code, head, list);
    forall j | j in list ensures j in s2.waiting && j !in own2 && j !in s2.here && s2.code[j] == s.code[j] {
      assert j in Elems(list);
    }
    ChainFrame(s.code, s2.code, head, list);
  }

  lemma ListsBeside(s: Store, own: set<nat>, s2: Store, own2: set<nat>, ts: seq<nat>, fs: seq<nat>, t: int, f: int)
    requires Beside(s, own, s2, own2) && ListsHeld(s, ts, fs, t, f) && (Elems(ts) + Elems(fs)) !! own
    ensures ListsHeld(s2, ts, fs, t, f) && (Elems(ts) + Elems(fs)) !! own2
  {
    hide Beside, Listed;
    ListedBeside(s, own, s2, own2, t, ts);
    ListedBeside(s, own, s2, own2, f, fs);
  }

  lemma OpsBeside(s: Store, own: set<nat>, s2: Store, own2: set<nat>)
    requires Beside(s, own, s2, own2)
    ensures SameOps(s.code, s2.code)
  {
  }

  lemma HeldBeside(s: Store, own: set<nat>, s2: Store, own2: set<nat>, x: G.Exp, t: int, f: int)
    requires Beside(s, own, s2, own2) && Held(s, x, t, f) && Owned(x) !! own
    ensures Held(s2, x, t, f) && Owned(x) !! own2
  {
    hide Beside, Listed;
    ListsBeside(s, own, s2, own2, x.t, x.f, t, f);
    OpsBeside(s, own, s2, own2);
    if x.k.VJmp? {
      assert Elems([x.k.pc]) == {x.k.pc};
      ListedBeside(s, own, s2, own2, x.k.pc, [x.k.pc]);
      assert x.k.pc in Elems([x.k.pc]);
    }
  }

  // ---- descriptors ----------------------------------------------------------------

  /** expdesc */
  class ExpDesc {
    var k: G.Kind
    var t: int                // patch list of `exit when true'
    var f: int                // patch list of `exit when false'
    ghost var ts: seq<nat>
    ghost var fs: seq<nat>

    /** init_exp */
    constructor (k: G.Kind)
      ensures View() == G.Plain(k) && t == f == NO_JUMP
    {
      this.k, t, f, ts, fs := k, NO_JUMP, NO_JUMP, [], [];
    }

    ghost function View(): G.Exp
      reads this
    {
      G.Exp(k, ts, fs)
    }

    ghost predicate Valid(s: FuncState)
      reads this, s
    {
      s.Valid() && Held(Stored(s), View(), t, f)
    }
  }

  /** hasjumps */
  lemma HasJumpsTest(s: Store, ts: seq<nat>, fs: seq<nat>, t: int, f: int)
    requires ListsHeld(s, ts, fs, t, f)
    ensures t != f <==> ts != [] || fs != []
  {
    assert ts != [] ==> ts[0] in Elems(ts);
    assert fs != [] ==> fs[0] in Elems(fs);
  }

  // ---- instructions ---------------------------------------------------------------

  /** luaK_code for anything but a jump */
  method Emit(fs: FuncState, i: Instr) returns (pc: nat)
    requires fs.Valid() && !i.Jmp?
    modifies fs
    ensures fs.Valid() && fs.View() == G.Code(old(fs.View()), i)
    ensures pc == old(|fs.code|) && |fs.code| == pc + 1 && fs.code[pc] == Op(i) && fs.here == []
    ensures Beside(old(Stored(fs)), {}, Stored(fs), {})
  {
    hide G.Code, Chain;
    pc := fs.Code(Op(i));
    assert fs.View().jpc == [];
  }

  /** The last instruction is taken back, or replaced. */
  lemma CellsCut(code: seq<Cell>, waiting: set<nat>)
    requires CellsOk(code, waiting) && code != [] && code[|code| - 1].Op?
    ensures var cut := code[..|code| - 1];
      CellsOk(cut, waiting) && Instrs(cut, waiting) == Instrs(code, waiting)[..|code| - 1]
  {
    var cut := code[..|code| - 1];
    assert CellOk(code, waiting, |code| - 1);
    forall p | 0 <= p < |cut| ensures CellOk(cut, waiting, p) && InstrAt(cut, waiting, p) == InstrAt(code, waiting, p) {
      assert CellOk(code, waiting, p);
    }
  }

  lemma CellsOp(code: seq<Cell>, waiting: set<nat>, p: nat, i: Instr)
    requires CellsOk(code, waiting) && p < |code| && code[p].Op? && !i.Jmp?
    ensures var code' := code[p := Op(i)];
      CellsOk(code', waiting) && Instrs(code', waiting) == Instrs(code, waiting)[p := i] && p !in waiting
    ensures Instrs(code, waiting)[p] == code[p].i
  {
    var code' := code[p := Op(i)];
    assert CellOk(code, waiting, p);
    forall q | 0 <= q < |code|
      ensures CellOk(code', waiting, q) && (q != p ==> InstrAt(code', waiting, q) == InstrAt(code, waiting, q)) {
      assert CellOk(code, waiting, q);
    }
  }

  /** SETARG: an instruction that is no jump is changed in place. */
  method Rewrite(fs: FuncState, p: nat, i: Instr)
    requires fs.Valid() && p < |fs.code| && fs.code[p].Op? && !i.Jmp?
    modifies fs`code
    ensures fs.Valid() && fs.code == old(fs.code)[p := Op(i)]
    ensures old(fs.View()).code[p] == old(fs.code)[p].i
    ensures fs.View() == old(fs.View()).(code := old(fs.View()).code[p := i])
    ensures Beside(old(Stored(fs)), {}, Stored(fs), {})
  {
    hide InstrAt, CellOk;
    CellsOp(fs.code, fs.waiting, p, i);
    fs.code := fs.code[p := Op(i)];
    ListedKept(old(fs.code), fs.waiting, fs.code, fs.waiting, fs.jpc, fs.here);
  }

  // ---- registers and constants ----------------------------------------------------

  /** luaK_reserveregs */
  method ReserveRegs(fs: FuncState, n: nat)
    modifies fs`freereg
    ensures fs.View() == G.ReserveRegs(old(fs.View()), n)
    ensures Stored(fs) == old(Stored(fs)) && (old(fs.Valid()) ==> fs.Valid())
  {
    fs.freereg := fs.freereg + n;
  }

  /** freereg */
  method FreeReg(fs: FuncState, reg: nat)
    modifies fs`freereg
    ensures fs.View() == G.FreeReg(old(fs.View()), reg)
    ensures Stored(fs) == old(Stored(fs)) && (old(fs.Valid()) ==> fs.Valid())
  {
    if reg >= fs.nactvar && fs.freereg > 0 { fs.freereg := fs.freereg - 1; }
  }

  method FreeRK(fs: FuncState, o: RK)
    modifies fs`freereg
    ensures fs.View() == G.FreeRK(old(fs.View()), o)
    ensures Stored(fs) == old(Stored(fs)) && (old(fs.Valid()) ==> fs.Valid())
  {
    if o.R? { FreeReg(fs, o.reg); }
  }

  /** freeexp */
  method FreeExp(fs: FuncState, e: ExpDesc)
    modifies fs`freereg
    ensures fs.View() == G.FreeExp(old(fs.View()), e.View())
    ensures Stored(fs) == old(Stored(fs)) && (old(fs.Valid()) ==> fs.Valid())
  {
    if e.k.VNonReloc? { FreeReg(fs, e.k.reg); }
  }

  /** addk */
  method AddK(fs: FuncState, v: Value) returns (i: nat)
    modifies fs`k
    ensures fs.View() == G.AddK(old(fs.View()), v) && i == G.IndexK(old(fs.k), v)
    ensures Stored(fs) == old(Stored(fs)) && (old(fs.Valid()) ==> fs.Valid())
  {
    i := G.IndexK(fs.k, v);
    if v !in fs.k { fs.k := fs.k + [v]; }
  }

  // ---- discharging ----------------------------------------------------------------

  /** luaK_nil for one register */
  method Nil1(fs: FuncState, reg: nat)
    requires fs.Valid()
    modifies fs
    ensures fs.Valid() && fs.View() == G.Nil1(old(fs.View()), reg)
    ensures Beside(old(Stored(fs)), {}, Stored(fs), {})
  {
    hide G.Code, FuncState.Valid;
    var pc := |fs.code|;
    if pc > fs.lasttarget {
      if pc == 0 {
        if reg >= fs.nactvar { BesideSame(Stored(fs), {}); return; }
      } else if fs.code[pc - 1].Op? && fs.code[pc - 1].i.LoadNil? {
        var i := fs.code[pc - 1].i;
        OpAt(fs.code, fs.waiting, pc - 1);
        if i.a <= reg <= i.b + 1 {
          if reg > i.b { Rewrite(fs, pc - 1, LoadNil(i.a, reg)); } else { BesideSame(Stored(fs), {}); }
          return;
        }
      } else {
        OpAt(fs.code, fs.waiting, pc - 1);
      }
    }
    var _ := Emit(fs, LoadNil(reg, reg));
  }

  lemma OpAt(code: seq<Cell>, waiting: set<nat>, p: nat)
    requires p < |code|
    ensures if code[p].Op? then Instrs(code, waiting)[p] == code[p].i else Instrs(code, waiting)[p].Jmp?
  {
  }

  /** A descriptor whose value an instruction computes for a register still to be chosen */
  method Relocatable(fs: FuncState, e: ExpDesc, i: Instr)
    requires e.Valid(fs) && !i.Jmp? && !e.k.VJmp?
    modifies fs, e
    ensures e.Valid(fs) && (fs.View(), e.View()) == G.Relocatable(old(fs.View()), old(e.View()), i)
    ensures Beside(old(Stored(fs)), old(Owned(e.View())), Stored(fs), Owned(e.View()))
  {
    hide Beside, Held, G.Code, FuncState.Valid;
    ghost var s, x := Stored(fs), e.View();
    var pc := Emit(fs, i);
    HeldReloc(s, Stored(fs), x, e.t, e.f, pc);
    e.k := G.VReloc(pc);
  }

  /** luaK_dischargevars */
  method DischargeVars(fs: FuncState, e: ExpDesc)
    requires e.Valid(fs)
    modifies fs, e
    ensures e.Valid(fs) && (fs.View(), e.View()) == G.DischargeVars(old(fs.View()), old(e.View()))
    ensures Beside(old(Stored(fs)), old(Owned(e.View())), Stored(fs), Owned(e.View()))
  {
    hide Beside, Listed, G.Code, G.Relocatable, FuncState.Valid;
    ghost var s, x := Stored(fs), e.View();
    BesideSame(s, Owned(x));
    match e.k
    case VLocal(r) =>
      e.k := G.VNonReloc(r);
      assert Owned(e.View()) == Owned(x);
    case VUpval(i) => Relocatable(fs, e, GetUpval(0, i));
    case VGlobal(name) => Relocatable(fs, e, GetGlobal(0, name));
    case VIndexed(r, key) =>
      FreeRK(fs, key);
      FreeReg(fs, r);
      Relocatable(fs, e, GetTable(0, r, key));
    case _ =>
  }

  /** A descriptor that gets its value into a register keeps its lists. */
  lemma HeldInReg(s: Store, s2: Store, x: G.Exp, t: int, f: int, reg: nat)
    requires Held(s, x, t, f) && !x.k.VJmp? && Beside(s, {}, s2, {})
    ensures var y := x.(k := G.VNonReloc(reg));
      Held(s2, y, t, f) && Beside(s, Owned(x), s2, Owned(y))
  {
    hide Beside, Listed;
    var y := x.(k := G.VNonReloc(reg));
    assert Held(s, y, t, f);
    HeldBeside(s, {}, s2, {}, y, t, f);
    BesideMore(s, s2, Owned(x), {});
    assert Owned(y) == Owned(x) + {};
  }

  lemma RelocOp(fs: FuncState, e: ExpDesc)
    requires e.Valid(fs) && e.k.VReloc?
    ensures var p := e.k.pc;
      p < |fs.code| && fs.code[p].Op? && !fs.code[p].i.Jmp? && fs.View().code[p] == fs.code[p].i
  {
    assert CellOk(fs.code, fs.waiting, e.k.pc);
  }

  /** discharge2reg after luaK_dischargevars */
  method ToReg(fs: FuncState, e: ExpDesc, reg: nat)
    requires e.Valid(fs)
    modifies fs, e
    ensures e.Valid(fs) && (fs.View(), e.View()) == G.ToReg(old(fs.View()), old(e.View()), reg)
    ensures Beside(old(Stored(fs)), old(Owned(e.View())), Stored(fs), Owned(e.View()))
  {
    hide Beside, Held, Owned, FuncState.Valid, G.Code, G.Nil1, G.SetA, Instrs;
    ghost var s, x := Stored(fs), e.View();
    BesideSame(s, Owned(x));
    BesideSame(s, {});
    match e.k {
      case VNil => Nil1(fs, reg);
      case VFalse => var _ := Emit(fs, LoadBool(reg, false, false));
      case VTrue => var _ := Emit(fs, LoadBool(reg, true, false));
      case VK(v) => var _ := Emit(fs, LoadK(reg, v));
      case VKNum(n) =>
        var _ := AddK(fs, Number(n));
        var _ := Emit(fs, LoadK(reg, Number(n)));
      case VReloc(p) =>
        RelocOp(fs, e);
        SetANoJump(fs.code[p].i, reg);
        Rewrite(fs, p, G.SetA(fs.code[p].i, reg));
      case VNonReloc(r) => if r != reg { var _ := Emit(fs, Move(reg, r)); }
      case _ => return;
    }
    HeldInReg(s, Stored(fs), x, e.t, e.f, reg);
    e.k := G.VNonReloc(reg);
  }

  lemma SetANoJump(i: Instr, reg: nat)
    requires !i.Jmp?
    ensures !G.SetA(i, reg).Jmp?
  {
  }

  /** discharge2reg */
  method Discharge2Reg(fs: FuncState, e: ExpDesc, reg: nat)
    requires e.Valid(fs)
    modifies fs, e
    ensures e.Valid(fs) && (fs.View(), e.View()) == G.Discharge2Reg(old(fs.View()), old(e.View()), reg)
    ensures Beside(old(Stored(fs)), old(Owned(e.View())), Stored(fs), Owned(e.View()))
  {
    hide Beside, Held, G.DischargeVars, G.ToReg, FuncState.Valid;
    ghost var s, o := Stored(fs), Owned(e.View());
    DischargeVars(fs, e);
    ghost var s1, o1 := Stored(fs), Owned(e.View());
    ToReg(fs, e, reg);
    BesideTrans(s, o, s1, o1, Stored(fs), Owned(e.View()));
  }

  /** discharge2anyreg */
  method Discharge2AnyReg(fs: FuncState, e: ExpDesc)
    requires e.Valid(fs)
    modifies fs, e
    ensures e.Valid(fs) && (fs.View(), e.View()) == G.Discharge2AnyReg(old(fs.View()), old(e.View()))
    ensures Beside(old(Stored(fs)), old(Owned(e.View())), Stored(fs), Owned(e.View()))
  {
    hide Beside, Held, G.Discharge2Reg, FuncState.Valid;
    BesideSame(Stored(fs), Owned(e.View()));
    if !e.k.VNonReloc? {
      ReserveRegs(fs, 1);
      Discharge2Reg(fs, e, fs.freereg - 1);
    }
  }

  // ---- the jumps of an expression get their targets -------------------------------

  /** code_label */
  method CodeLabel(fs: FuncState, a: nat, flag: bool, skip: bool) returns (pc: nat)
    requires fs.Valid()
    modifies fs
    ensures fs.Valid() && fs.View() == G.CodeLabel(old(fs.View()), a, flag, skip) && pc == old(|fs.code|)
    ensures |fs.code| == pc + 1 && fs.here == [] && Beside(old(Stored(fs)), {}, Stored(fs), {})
  {
    hide G.Code, Beside;
    var _ := fs.GetLabel();
    pc := Emit(fs, LoadBool(a, flag, skip));
  }

  /** luaK_jump; the new list is nobody else's. */
  method Jump(fs: FuncState) returns (j: int, ghost list: seq<nat>)
    requires fs.Valid()
    modifies fs
    ensures fs.Valid() && (fs.View(), list) == G.Jump(old(fs.View())) && Listed(fs.code, fs.waiting, j, list)
    ensures fs.here == [] && Beside(old(Stored(fs)), {}, Stored(fs), Elems(list))
  {
    hide G.Code, Chain, CellOk;
    ghost var s := Stored(fs);
    j, list := fs.Jump();
    assert fs.here == fs.View().jpc == [];
  }

  /** patchlistaux on the jumps of a list that does not wait for the next instruction */
  method PatchValues(fs: FuncState, list: int, vtarget: nat, reg: nat, dtarget: nat, ghost q: seq<nat>)
    requires fs.Valid() && Listed(fs.code, fs.waiting, list, q) && Elems(q) !! Elems(fs.here)
    modifies fs`code, fs`waiting
    ensures fs.Valid()
    ensures fs.View() == old(fs.View()).(code := G.PatchListAux(old(fs.View()).code, q, vtarget, reg, dtarget))
    ensures Beside(old(Stored(fs)), Elems(q), Stored(fs), {})
  {
    hide G.PatchListAux, InstrAt, CellOk, Chain;
    fs.PatchListAux(list, vtarget, reg, dtarget, q);
    forall j | j in fs.here ensures j in fs.waiting { assert j in Elems(fs.here); }
    ListedKept(old(fs.code), old(fs.waiting), fs.code, fs.waiting, fs.jpc, fs.here);
  }

  /** luaK_patchtohere */
  method PatchToHere(fs: FuncState, list: int, ghost q: seq<nat>)
    requires fs.Valid() && Listed(fs.code, fs.waiting, list, q) && Elems(q) !! Elems(fs.here)
    modifies fs
    ensures fs.Valid() && fs.View() == G.PatchToHere(old(fs.View()), q) && |fs.code| == old(|fs.code|)
    ensures Beside(old(Stored(fs)), Elems(q), Stored(fs), {})
  {
    hide Chain, InstrAt, CellOk;
    forall j | j in q ensures j !in fs.here { assert j in Elems(q); }
    fs.PatchToHere(list, q);
  }

  /** luaK_concat on two lists of the same or different descriptors */
  method Concat(fs: FuncState, l1: int, l2: int, ghost a: seq<nat>, ghost b: seq<nat>) returns (l: int)
    requires fs.Valid() && Listed(fs.code, fs.waiting, l1, a) && Listed(fs.code, fs.waiting, l2, b)
    requires Elems(a) !! Elems(b) && Elems(a) !! Elems(fs.here)
    modifies fs`code
    ensures fs.Valid() && fs.View() == old(fs.View()) && Listed(fs.code, fs.waiting, l, a + b)
    ensures Stored(fs) == old(Stored(fs)).(code := fs.code) && |fs.code| == old(|fs.code|)
    ensures SameOps(old(fs.code), fs.code)
    ensures forall p :: 0 <= p < |fs.code| && p !in Elems(a) ==> fs.code[p] == old(fs.code)[p]
  {
    hide Chain, InstrAt, CellOk;
    Apart(a, b);
    Apart(a, fs.here);
    l := fs.Concat(l1, l2, a, b);
    ListedKept(old(fs.code), fs.waiting, fs.code, fs.waiting, fs.jpc, fs.here);
  }

  lemma Apart(a: seq<nat>, b: seq<nat>)
    requires Elems(a) !! Elems(b)
    ensures forall j :: j in a ==> j !in b
  {
    forall j | j in a ensures j !in b {
      assert j in Elems(a);
      assert j in b ==> j in Elems(b);
    }
  }

  /** After luaK_concat: the joined list beside the other one of the descriptor */
  lemma ConcatHeld(s: Store, s2: Store, a: seq<nat>, b: seq<nat>, l: int, other: seq<nat>, o: int)
    requires s2 == s.(code := s2.code) && |s2.code| == |s.code| && SameOps(s.code, s2.code)
    requires forall p :: 0 <= p < |s.code| && p !in Elems(a) ==> s2.code[p] == s.code[p]
    requires Listed(s2.code, s2.waiting, l, a + b) && Listed(s.code, s.waiting, o, other)
    requires Elems(other) !! Elems(a) + Elems(b) && (Elems(other) + Elems(a) + Elems(b)) !! Elems(s.here)
    ensures ListsHeld(s2, a + b, other, l, o) && ListsHeld(s2, other, a + b, o, l)
    ensures Elems(a + b) == Elems(a) + Elems(b)
    ensures Beside(s, Elems(a) + Elems(b) + Elems(other), s2, Elems(a) + Elems(b) + Elems(other))
  {
    hide Chain;
    Apart(other, a);
    ChainFrame(s.code, s2.code, o, other);
    assert Elems(a + b) == Elems(a) + Elems(b);
  }

  method NeedsValue(fs: FuncState, e: ExpDesc) returns (need: bool)
    requires fs.Valid() && ListsHeld(Stored(fs), e.ts, e.fs, e.t, e.f)
    ensures need == (G.NeedValue(fs.View().code, e.ts) || G.NeedValue(fs.View().code, e.fs))
  {
    hide Listed, G.NeedValue;
    need := fs.NeedValue(e.t, e.ts);
    if !need { need := fs.NeedValue(e.f, e.fs); }
  }

  /** The state after exp2reg coded the two loads of a boolean */
  function BooleansLoaded(fs: G.FS, jmp: bool, reg: nat): (G.FS, nat) {
    var (fs1, fj) := if !jmp then G.Jump(fs) else (fs, []);
    (G.PatchToHere(G.CodeLabel(G.CodeLabel(fs1, reg, false, true), reg, true, false), fj), |fs1.code|)
  }

  method LoadBooleans(fs: FuncState, jmp: bool, reg: nat) returns (pf: nat, pt: nat)
    requires fs.Valid()
    modifies fs
    ensures fs.Valid() && (fs.View(), pf) == BooleansLoaded(old(fs.View()), jmp, reg) && pt == pf + 1
    ensures Beside(old(Stored(fs)), {}, Stored(fs), {})
  {
    hide Beside, Listed, FuncState.Valid, G.Jump, G.CodeLabel, G.PatchToHere, Instrs;
    ghost var s := Stored(fs);
    var fj := NO_JUMP;
    ghost var list: seq<nat> := [];
    assert Elems<nat>([]) == {};
    BesideSame(s, {});
    NoList(s);
    if !jmp { fj, list := Jump(fs); }
    ghost var s1 := Stored(fs);
    pf := CodeLabel(fs, reg, false, true);
    ghost var s2 := Stored(fs);
    pt := CodeLabel(fs, reg, true, false);
    ghost var s3 := Stored(fs);
    BesideTrans(s1, {}, s2, {}, s3, {});
    ListedBeside(s1, {}, s3, {}, fj, list);
    BesideMore(s1, s3, Elems(list), {});
    assert Elems(list) + {} == Elems(list);
    BesideTrans(s, {}, s1, Elems(list), s3, Elems(list));
    PatchToHere(fs, fj, list);
    BesideTrans(s, {}, s3, Elems(list), Stored(fs), {});
  }

  lemma NoList(s: Store)
    ensures Listed(s.code, s.waiting, NO_JUMP, [])
  {
  }

  lemma ClosedBy(fs: G.FS, e: G.Exp, reg: nat)
    ensures G.CloseJumps(fs, e, reg) ==
      var need := G.NeedValue(fs.code, e.t) || G.NeedValue(fs.code, e.f);
      var (fs1, pf) := if need then BooleansLoaded(fs, e.k.VJmp?, reg) else (fs, |fs.code|);
      var c := G.PatchListAux(fs1.code, e.f, |fs1.code|, reg, pf);
      G.GetLabel(fs1).(code := G.PatchListAux(c, e.t, |fs1.code|, reg, pf + 1))
  {
    hide G.NeedValue, G.PatchListAux, G.Code;
  }

  lemma TwoPatched(s: Store, s1: Store, s2: Store, s3: Store, ts: set<nat>, fs: set<nat>)
    requires Beside(s, {}, s1, {}) && Beside(s1, fs, s2, {}) && Beside(s2, ts, s3, {})
    ensures Beside(s, ts + fs, s3, {})
  {
  }

  /** The false list first, then the true list */
  method PatchBoth(fs: FuncState, e: ExpDesc, final: nat, reg: nat, pf: nat, pt: nat)
    requires fs.Valid() && ListsHeld(Stored(fs), e.ts, e.fs, e.t, e.f)
    modifies fs`code, fs`waiting
    ensures fs.Valid()
    ensures var c := G.PatchListAux(old(fs.View()).code, e.fs, final, reg, pf);
      fs.View() == old(fs.View()).(code := G.PatchListAux(c, e.ts, final, reg, pt))
    ensures Beside(old(Stored(fs)), Elems(e.ts) + Elems(e.fs), Stored(fs), {})
  {
    hide Beside, Listed, FuncState.Valid, G.PatchListAux, Instrs;
    ghost var s := Stored(fs);
    BesideSame(s, {});
    PatchValues(fs, e.f, final, reg, pf, e.fs);
    ghost var s1 := Stored(fs);
    ListedBeside(s, Elems(e.fs), s1, {}, e.t, e.ts);
    PatchValues(fs, e.t, final, reg, pt, e.ts);
    TwoPatched(s, s, s1, Stored(fs), Elems(e.ts), Elems(e.fs));
  }

  /** The part of exp2reg that gives the jumps of an expression their targets */
  method CloseJumps(fs: FuncState, e: ExpDesc, reg: nat)
    requires fs.Valid() && ListsHeld(Stored(fs), e.ts, e.fs, e.t, e.f)
    modifies fs
    ensures fs.Valid() && fs.View() == G.CloseJumps(old(fs.View()), e.View(), reg)
    ensures Beside(old(Stored(fs)), Elems(e.ts) + Elems(e.fs), Stored(fs), {})
  {
    hide Beside, ListsHeld, FuncState.Valid, G.NeedValue, BooleansLoaded, G.PatchListAux, G.CloseJumps, Instrs, Elems;
    ClosedBy(fs.View(), e.View(), reg);
    ghost var s, own := Stored(fs), Elems(e.ts) + Elems(e.fs);
    BesideSame(s, {});
    var need := NeedsValue(fs, e);
    var pf, pt := |fs.code|, |fs.code| + 1;    // not used unless a jump brings no value
    if need { pf, pt := LoadBooleans(fs, e.k.VJmp?, reg); }
    ghost var s1 := Stored(fs);
    ListsBeside(s, {}, s1, {}, e.ts, e.fs, e.t, e.f);
    var final := fs.GetLabel();
    PatchBoth(fs, e, final, reg, pf, pt);
    BesideMore(s, s1, own, {});
    assert own + {} == own;
    BesideTrans(s, own, s1, own, Stored(fs), {});
  }

  /** exp2reg */
  method Exp2Reg(fs: FuncState, e: ExpDesc, reg: nat)
    requires e.Valid(fs)
    modifies fs, e
    ensures e.Valid(fs) && (fs.View(), e.View()) == G.Exp2Reg(old(fs.View()), old(e.View()), reg)
    ensures Beside(old(Stored(fs)), old(Owned(e.View())), Stored(fs), Owned(e.View()))
  {
    hide Beside, FuncState.Valid, G.Discharge2Reg, G.CloseJumps, Listed;
    ghost var s, o := Stored(fs), Owned(e.View());
    Discharge2Reg(fs, e, reg);
    ghost var s1, o1 := Stored(fs), Owned(e.View());
    if e.k.VJmp? {
      ghost var ts, jump: seq<nat> := e.ts, [e.k.pc];
      assert Elems(jump) == {e.k.pc};
      e.t := Concat(fs, e.t, e.k.pc, ts, jump);
      e.ts := ts + jump;
      ConcatHeld(s1, Stored(fs), ts, jump, e.t, e.fs, e.f);
      assert o1 == Elems(ts) + Elems(jump) + Elems(e.fs);
    } else {
      BesideSame(s1, o1);
    }
    ghost var s2, o2 := Stored(fs), Elems(e.ts) + Elems(e.fs);
    assert ListsHeld(s2, e.ts, e.fs, e.t, e.f) && o1 == o2;
    HasJumpsTest(s2, e.ts, e.fs, e.t, e.f);
    BesideSame(s2, {});
    assert e.t == e.f ==> o2 == {};
    if e.t != e.f { CloseJumps(fs, e, reg); }
    BesideTrans(s, o, s1, o1, s2, o2);
    BesideTrans(s, o, s2, o2, Stored(fs), {});
    e.f, e.t, e.k := NO_JUMP, NO_JUMP, G.VNonReloc(reg);
    e.ts, e.fs := [], [];
    NoList(Stored(fs));
    assert Owned(e.View()) == {};
  }

  /** luaK_exp2nextreg */
  method Exp2NextReg(fs: FuncState, e: ExpDesc)
    requires e.Valid(fs)
    modifies fs, e
    ensures e.Valid(fs) && (fs.View(), e.View()) == G.Exp2NextReg(old(fs.View()), old(e.View()))
    ensures Beside(old(Stored(fs)), old(Owned(e.View())), Stored(fs), Owned(e.View()))
  {
    hide Beside, Held, FuncState.Valid, G.DischargeVars, G.Exp2Reg, G.FreeExp;
    ghost var s, o := Stored(fs), Owned(e.View());
    DischargeVars(fs, e);
    ghost var s1, o1 := Stored(fs), Owned(e.View());
    FreeExp(fs, e);
    ReserveRegs(fs, 1);
    Exp2Reg(fs, e, fs.freereg - 1);
    BesideTrans(s, o, s1, o1, Stored(fs), Owned(e.View()));
  }

  /** luaK_exp2anyreg */
  method Exp2AnyReg(fs: FuncState, e: ExpDesc)
    requires e.Valid(fs)
    modifies fs, e
    ensures e.Valid(fs) && (fs.View(), e.View()) == G.Exp2AnyReg(old(fs.View()), old(e.View()))
    ensures Beside(old(Stored(fs)), old(Owned(e.View())), Stored(fs), Owned(e.View()))
  {
    hide Beside, Held, FuncState.Valid, G.DischargeVars, G.Exp2Reg, G.Exp2NextReg;
    ghost var s, o := Stored(fs), Owned(e.View());
    DischargeVars(fs, e);
    ghost var s1, o1 := Stored(fs), Owned(e.View());
    HeldJumps(s1, e.View(), e.t, e.f);
    if e.k.VNonReloc? {
      if e.t == e.f { return; }                 // already in a register
      if e.k.reg >= fs.nactvar {                // not a local
        Exp2Reg(fs, e, e.k.reg);
        BesideTrans(s, o, s1, o1, Stored(fs), Owned(e.View()));
        return;
      }
    }
    Exp2NextReg(fs, e);
    BesideTrans(s, o, s1, o1, Stored(fs), Owned(e.View()));
  }

  lemma HeldJumps(s: Store, x: G.Exp, t: int, f: int)
    requires Held(s, x, t, f)
    ensures t != f <==> G.HasJumps(x)
  {
    HasJumpsTest(s, x.t, x.f, t, f);
  }

  /** luaK_exp2val */
  method Exp2Val(fs: FuncState, e: ExpDesc)
    requires e.Valid(fs)
    modifies fs, e
    ensures e.Valid(fs) && (fs.View(), e.View()) == G.Exp2Val(old(fs.View()), old(e.View()))
    ensures Beside(old(Stored(fs)), old(Owned(e.View())), Stored(fs), Owned(e.View()))
  {
    hide Beside, Held, FuncState.Valid, G.DischargeVars, G.Exp2AnyReg;
    HeldJumps(Stored(fs), e.View(), e.t, e.f);
    if e.t != e.f { Exp2AnyReg(fs, e); } else { DischargeVars(fs, e); }
  }

  /** luaK_exp2RK */
  method Exp2RK(fs: FuncState, e: ExpDesc) returns (rk: RK)
    requires e.Valid(fs)
    modifies fs, e
    ensures e.Valid(fs) && (fs.View(), e.View(), rk) == G.Exp2RK(old(fs.View()), old(e.View()))
    ensures Beside(old(Stored(fs)), old(Owned(e.View())), Stored(fs), Owned(e.View()))
    ensures e.ts == [] && e.fs == [] && !e.k.VJmp? && e.t == e.f == NO_JUMP
  {
    hide Beside, FuncState.Valid, G.Exp2Val, G.Exp2AnyReg, G.AddK, ListsHeld;
    RKPlain(fs.View(), e.View());
    ghost var s, o := Stored(fs), Owned(e.View());
    Exp2Val(fs, e);
    ghost var s1, o1 := Stored(fs), Owned(e.View());
    var c := G.ConstOf(e.k);
    if c.Some? {
      var i := if e.k.VK? then G.IndexK(fs.k, c.value) else |fs.k|;
      if i <= G.MAX_INDEX_RK {
        var _ := AddK(fs, c.value);             // a VK is there already
        e.k := G.VK(c.value);
        EmptyHeads(Stored(fs), e.View(), e.t, e.f);
        return K(c.value);
      }
    }
    AnyRegPlain(fs.View(), e.View());
    Exp2AnyReg(fs, e);
    BesideTrans(s, o, s1, o1, Stored(fs), Owned(e.View()));
    EmptyHeads(Stored(fs), e.View(), e.t, e.f);
    return R(e.k.reg);
  }

  lemma EmptyHeads(s: Store, x: G.Exp, t: int, f: int)
    requires Held(s, x, t, f) && x.t == [] && x.f == []
    ensures t == f == NO_JUMP
  {
  }

  /** An operand has no jumps left. */
  lemma RKPlain(fs: G.FS, e: G.Exp)
    ensures var x := G.Exp2RK(fs, e).1; x.t == [] && x.f == [] && (x.k.VNonReloc? || x.k.VK?)
  {
    hide G.Discharge2Reg, G.CloseJumps, G.AddK;
    ValPlain(fs, e);
    AnyRegPlain(G.Exp2Val(fs, e).0, G.Exp2Val(fs, e).1);
  }

  lemma AnyRegPlain(fs: G.FS, e: G.Exp)
    ensures var x := G.Exp2AnyReg(fs, e).1; x.t == [] && x.f == [] && x.k.VNonReloc?
  {
    hide G.Discharge2Reg, G.CloseJumps, G.DischargeVars;
  }

  lemma ValPlain(fs: G.FS, e: G.Exp)
    ensures !G.HasJumps(G.Exp2Val(fs, e).1)
  {
    hide G.Discharge2Reg, G.CloseJumps, G.Code;
    AnyRegPlain(fs, e);
  }

  // ---- conditions -----------------------------------------------------------------

  /** invertjump */
  method InvertJump(fs: FuncState, e: ExpDesc)
    requires e.Valid(fs) && e.k.VJmp?
    modifies fs`code
    ensures e.Valid(fs) && fs.View() == G.InvertJump(old(fs.View()), e.k.pc)
    ensures Beside(old(Stored(fs)), Owned(e.View()), Stored(fs), Owned(e.View()))
  {
    hide Chain, InstrAt, CellOk, G.InvertJump;
    ghost var s, x := Stored(fs), e.View();
    assert e.k.pc in fs.waiting by { assert e.k.pc in [e.k.pc]; }
    fs.InvertJump(e.k.pc);
    BesideKept(s, Stored(fs), x, e.t, e.f);
  }

  /** A change of operations only */
  lemma BesideKept(s: Store, s2: Store, x: G.Exp, t: int, f: int)
    requires Held(s, x, t, f) && s2 == s.(code := s2.code) && SameOps(s.code, s2.code)
    requires forall p :: p in s.waiting && p < |s.code| ==> s2.code[p] == s.code[p]
    ensures Held(s2, x, t, f) && Beside(s, Owned(x), s2, Owned(x))
  {
    hide Held;
    assert Beside(s, {}, s2, {});
    HeldBeside(s, {}, s2, {}, x, t, f);
    BesideMore(s, s2, Owned(x), {});
    assert Owned(x) + {} == Owned(x);
  }

  /** condjump */
  method CondJump(fs: FuncState, test: Instr) returns (j: int, ghost list: seq<nat>)
    requires fs.Valid() && !test.Jmp?
    modifies fs
    ensures fs.Valid() && (fs.View(), list) == G.CondJump(old(fs.View()), test) && Listed(fs.code, fs.waiting, j, list)
    ensures fs.here == [] && list == [old(|fs.code|) + 1] && j == list[0]
    ensures |fs.code| == old(|fs.code|) + 2 && fs.code[old(|fs.code|)].Op?
    ensures Beside(old(Stored(fs)), {}, Stored(fs), Elems(list))
  {
    hide G.Code, Chain, CellOk;
    ghost var s := Stored(fs);
    var _ := Emit(fs, test);
    ghost var s1 := Stored(fs);
    j, list := Jump(fs);
    ListHead(fs.code, j, list);
    assert |fs.View().code| == |s1.code| + 1;
    BesideTrans(s, {}, s1, {}, Stored(fs), Elems(list));
  }

  /** Taking back the last instruction, which is no jump */
  method TakeBack(fs: FuncState)
    requires fs.Valid() && fs.code != [] && fs.code[|fs.code| - 1].Op?
    modifies fs`code
    ensures fs.Valid() && Stored(fs) == old(Stored(fs)).(code := old(fs.code)[..old(|fs.code|) - 1])
    ensures fs.View() == old(fs.View()).(code := old(fs.View()).code[..old(|fs.code|) - 1])
  {
    hide Chain, InstrAt, CellOk;
    CellsCut(fs.code, fs.waiting);
    fs.code := fs.code[..|fs.code| - 1];
    ListedCut(old(Stored(fs)), Stored(fs), fs.jpc, fs.here);
  }

  lemma ListedCut(s: Store, s1: Store, head: int, list: seq<nat>)
    requires s.code != [] && s.code[|s.code| - 1].Op? && s1 == s.(code := s.code[..|s.code| - 1])
    requires Listed(s.code, s.waiting, head, list)
    ensures Listed(s1.code, s1.waiting, head, list)
  {
    ChainCut(s.code, s1.code, head, list);
  }

  lemma {:induction false} ChainCut(code: seq<Cell>, cut: seq<Cell>, head: int, list: seq<nat>)
    requires code != [] && code[|code| - 1].Op? && cut == code[..|code| - 1] && Chain(code, head, list)
    ensures Chain(cut, head, list)
    decreases |list|
  {
    if list != [] { ChainCut(code, cut, GetJump(code, list[0]), list[1..]); }
  }

  lemma CutBeside(s: Store, s1: Store, s2: Store, own: set<nat>, more: set<nat>)
    requires CellsOk(s.code, s.waiting) && s.code != [] && s.code[|s.code| - 1].Op?
    requires s1 == s.(code := s.code[..|s.code| - 1])
    requires Beside(s1, {}, s2, more) && |s2.code| >= |s.code| && s2.code[|s.code| - 1].Op?
    ensures Beside(s, own, s2, own + more)
  {
    assert CellOk(s.code, s.waiting, |s.code| - 1);
  }

  /** A relocatable value is computed by the last instruction. */
  predicate Last(fs: FuncState, e: ExpDesc)
    reads fs, e
  {
    e.k.VReloc? ==> e.k.pc == |fs.code| - 1
  }

  /** The first branch of jumponcond: OP_TEST in place of OP_NOT */
  method Unnot(fs: FuncState, e: ExpDesc, b: nat, cond: bool) returns (j: int, ghost list: seq<nat>)
    requires e.Valid(fs) && e.k.VReloc? && Last(fs, e)
    modifies fs
    ensures fs.Valid()
    ensures var f := old(fs.View()); (fs.View(), list) == G.CondJump(f.(code := f.code[..|f.code| - 1]), Test(b, !cond))
    ensures Listed(fs.code, fs.waiting, j, list) && fs.here == []
    ensures ListsHeld(Stored(fs), e.ts, e.fs, e.t, e.f) && Elems(list) !! Elems(e.ts) + Elems(e.fs)
    ensures Beside(old(Stored(fs)), Owned(e.View()), Stored(fs), Elems(e.ts) + Elems(e.fs) + Elems(list))
  {
    hide Beside, Chain, FuncState.Valid, G.CondJump, Instrs, InstrAt, CellOk, Elems;
    ghost var s := Stored(fs);
    assert CellsOk(s.code, s.waiting) by { ValidCells(fs); }
    TakeBack(fs);
    ghost var s1 := Stored(fs);
    ListedCut(s, s1, e.t, e.ts);
    ListedCut(s, s1, e.f, e.fs);
    j, list := CondJump(fs, Test(b, !cond));
    ListsBeside(s1, {}, Stored(fs), Elems(list), e.ts, e.fs, e.t, e.f);
    CutBeside(s, s1, Stored(fs), Owned(e.View()), Elems(list));
    assert Owned(e.View()) == Elems(e.ts) + Elems(e.fs);
  }

  lemma ValidCells(fs: FuncState)
    requires fs.Valid()
    ensures CellsOk(fs.code, fs.waiting)
  {
  }

  lemma ListHead(code: seq<Cell>, head: int, list: seq<nat>)
    requires Chain(code, head, list) && list != []
    ensures head == list[0]
  {
  }

  /** jumponcond: an OP_NOT just before is taken back and the test turned round. */
  method JumpOnCond(fs: FuncState, e: ExpDesc, cond: bool) returns (j: int, ghost list: seq<nat>)
    requires e.Valid(fs) && !e.k.VJmp? && Last(fs, e)
    modifies fs, e
    ensures fs.Valid() && (fs.View(), list) == G.JumpOnCond(old(fs.View()), old(e.View()), cond)
    ensures Listed(fs.code, fs.waiting, j, list) && fs.here == [] && e.ts == old(e.ts) && e.fs == old(e.fs)
    ensures ListsHeld(Stored(fs), e.ts, e.fs, e.t, e.f) && Elems(list) !! Elems(e.ts) + Elems(e.fs)
    ensures Beside(old(Stored(fs)), old(Owned(e.View())), Stored(fs), Elems(e.ts) + Elems(e.fs) + Elems(list))
  {
    hide Beside, Listed, FuncState.Valid, G.Discharge2AnyReg, G.CondJump, G.FreeExp, Instrs, Elems;
    ghost var s, o := Stored(fs), Owned(e.View());
    if e.k.VReloc? {
      LastOp(fs, e.k.pc);
      if fs.code[e.k.pc].i.Not? {
        j, list := Unnot(fs, e, fs.code[e.k.pc].i.b, cond);
        return;
      }
    }
    AnyRegLists(fs.View(), e.View());
    Discharge2AnyReg(fs, e);
    ghost var s1, o1 := Stored(fs), Owned(e.View());
    FreeExp(fs, e);
    j, list := CondJump(fs, TestSet(NO_REG, e.k.reg, cond));
    ListsBeside(s1, {}, Stored(fs), Elems(list), e.ts, e.fs, e.t, e.f);
    BesideMore(s1, Stored(fs), o1, Elems(list));
    BesideTrans(s, o, s1, o1, Stored(fs), o1 + Elems(list));
    assert o1 == Elems(e.ts) + Elems(e.fs);
  }

  lemma LastOp(fs: FuncState, p: nat)
    requires fs.Valid() && p < |fs.code| && fs.code[p].Op?
    ensures fs.View().code[p] == fs.code[p].i
  {
  }

  lemma AnyRegLists(fs: G.FS, e: G.Exp)
    requires !e.k.VJmp?
    ensures var x := G.Discharge2AnyReg(fs, e).1; x.t == e.t && x.f == e.f && x.k.VNonReloc?
  {
    hide G.Code, G.Nil1, G.SetA;
  }

  /** A jump to add to a list of the descriptor */
  ghost predicate Exit(s: Store, e: ExpDesc, pc: int, list: seq<nat>)
    reads e
  {
    && ListsHeld(s, e.ts, e.fs, e.t, e.f) && Listed(s.code, s.waiting, pc, list)
    && Elems(list) !! Elems(e.ts) + Elems(e.fs) && Elems(list) !! Elems(s.here)
  }

  lemma NoExit(s: Store, e: ExpDesc)
    requires Held(s, e.View(), e.t, e.f)
    ensures Exit(s, e, NO_JUMP, []) && (!e.k.VJmp? ==> Owned(e.View()) == Elems(e.ts) + Elems(e.fs) + Elems<nat>([]))
    ensures e.k.VJmp? ==> Exit(s, e, e.k.pc, [e.k.pc]) && Owned(e.View()) == Elems(e.ts) + Elems(e.fs) + Elems([e.k.pc])
  {
    assert Elems<nat>([]) == {};
    if e.k.VJmp? { assert Elems([e.k.pc]) == {e.k.pc}; }
  }

  /** luaK_jump for a constant condition; `here' joins the new list. */
  method JumpAway(fs: FuncState, e: ExpDesc) returns (pc: int, ghost list: seq<nat>)
    requires e.Valid(fs) && !e.k.VJmp?
    modifies fs
    ensures fs.Valid() && (fs.View(), list) == G.Jump(old(fs.View())) && Exit(Stored(fs), e, pc, list)
    ensures Beside(old(Stored(fs)), Owned(e.View()), Stored(fs), Elems(e.ts) + Elems(e.fs) + Elems(list))
  {
    hide Beside, Listed, FuncState.Valid, G.Jump;
    ghost var s := Stored(fs);
    pc, list := Jump(fs);
    ListsBeside(s, {}, Stored(fs), Elems(list), e.ts, e.fs, e.t, e.f);
    BesideMore(s, Stored(fs), Owned(e.View()), Elems(list));
    assert Owned(e.View()) == Elems(e.ts) + Elems(e.fs);
  }

  /** The jump that leaves when the condition is false; it is not yet in a list of `e'. */
  method FalseExit(fs: FuncState, e: ExpDesc) returns (pc: int, ghost list: seq<nat>)
    requires e.Valid(fs) && Last(fs, e)
    modifies fs, e
    ensures fs.Valid() && e.ts == old(e.ts) && e.fs == old(e.fs) && Exit(Stored(fs), e, pc, list)
    ensures (fs.View(), list) == ExitTrue(old(fs.View()), old(e.View()))
    ensures Beside(old(Stored(fs)), old(Owned(e.View())), Stored(fs), Elems(e.ts) + Elems(e.fs) + Elems(list))
  {
    hide Beside, Held, Exit, FuncState.Valid, G.Jump, G.JumpOnCond, G.InvertJump;
    ghost var s, o := Stored(fs), Owned(e.View());
    BesideSame(s, o);
    NoExit(s, e);
    match e.k
    case VK(_) => pc, list := NO_JUMP, [];
    case VKNum(_) => pc, list := NO_JUMP, [];
    case VTrue => pc, list := NO_JUMP, [];
    case VFalse => pc, list := JumpAway(fs, e);
    case VJmp(p) =>
      InvertJump(fs, e);
      pc, list := p, [p];
      NoExit(Stored(fs), e);
    case _ =>
      pc, list := JumpOnCond(fs, e, false);
      assert Exit(Stored(fs), e, pc, list) by { ExitNow(Stored(fs), e, pc, list); }
  }

  lemma ExitNow(s: Store, e: ExpDesc, pc: int, list: seq<nat>)
    requires ListsHeld(s, e.ts, e.fs, e.t, e.f) && Listed(s.code, s.waiting, pc, list)
    requires Elems(list) !! Elems(e.ts) + Elems(e.fs) && s.here == []
    ensures Exit(s, e, pc, list)
  {
  }

  /** The switch of luaK_goiftrue */
  function ExitTrue(fs: G.FS, e: G.Exp): (G.FS, seq<nat>) {
    match e.k
    case VK(_) => (fs, [])
    case VKNum(_) => (fs, [])
    case VTrue => (fs, [])
    case VFalse => G.Jump(fs)
    case VJmp(p) => (G.InvertJump(fs, p), [p])
    case _ => G.JumpOnCond(fs, e, false)
  }

  /** The switch of luaK_goiffalse */
  function ExitFalse(fs: G.FS, e: G.Exp): (G.FS, seq<nat>) {
    match e.k
    case VNil => (fs, [])
    case VFalse => (fs, [])
    case VTrue => G.Jump(fs)
    case VJmp(p) => (fs, [p])
    case _ => G.JumpOnCond(fs, e, true)
  }

  method TrueExit(fs: FuncState, e: ExpDesc) returns (pc: int, ghost list: seq<nat>)
    requires e.Valid(fs) && Last(fs, e)
    modifies fs, e
    ensures fs.Valid() && e.ts == old(e.ts) && e.fs == old(e.fs) && Exit(Stored(fs), e, pc, list)
    ensures (fs.View(), list) == ExitFalse(old(fs.View()), old(e.View()))
    ensures Beside(old(Stored(fs)), old(Owned(e.View())), Stored(fs), Elems(e.ts) + Elems(e.fs) + Elems(list))
  {
    hide Beside, Held, Exit, FuncState.Valid, G.Jump, G.JumpOnCond;
    ghost var s, o := Stored(fs), Owned(e.View());
    BesideSame(s, o);
    NoExit(s, e);
    match e.k
    case VNil => pc, list := NO_JUMP, [];
    case VFalse => pc, list := NO_JUMP, [];
    case VTrue => pc, list := JumpAway(fs, e);
    case VJmp(p) => pc, list := p, [p];
    case _ =>
      pc, list := JumpOnCond(fs, e, true);
      assert Exit(Stored(fs), e, pc, list) by { ExitNow(Stored(fs), e, pc, list); }
  }

  /** luaK_goiftrue; what becomes of the kind does not matter. */
  method GoIfTrue(fs: FuncState, e: ExpDesc)
    requires e.Valid(fs) && Last(fs, e)
    modifies fs, e
    ensures fs.Valid() && e.ts == [] && e.t == NO_JUMP && ListsHeld(Stored(fs), [], e.fs, NO_JUMP, e.f)
    ensures (fs.View(), e.fs) == var (c, x) := G.GoIfTrue(old(fs.View()), old(e.View())); (c, x.f)
    ensures Beside(old(Stored(fs)), old(Owned(e.View())), Stored(fs), Elems(e.fs))
  {
    hide Beside, Listed, FuncState.Valid, G.DischargeVars, ExitTrue, G.PatchToHere;
    TrueSplit(fs.View(), e.View());
    ghost var s, o := Stored(fs), Owned(e.View());
    DischargedLast(fs.View(), e.View());
    DischargeVars(fs, e);
    ghost var s1, o1 := Stored(fs), Owned(e.View());
    var pc, list := FalseExit(fs, e);
    ghost var s2, o2, q := Stored(fs), Elems(e.ts) + Elems(e.fs) + Elems(list), e.fs;
    BesideTrans(s, o, s1, o1, s2, o2);
    e.f := Concat(fs, e.f, pc, q, list);
    ConcatHeld(s2, Stored(fs), q, list, e.f, e.ts, e.t);
    e.fs := q + list;
    assert o2 == Elems(q) + Elems(list) + Elems(e.ts);
    BesideTrans(s, o, s2, o2, Stored(fs), o2);
    assert o2 == Elems(e.ts) + Elems(e.fs);
    PatchRest(fs, e.t, e.ts, e.f, e.fs, s, o);
    e.t, e.ts := NO_JUMP, [];
  }

  /** luaK_patchtohere on one list of a descriptor, while the other goes on waiting */
  method PatchRest(fs: FuncState, l: int, ghost q: seq<nat>, ghost r: int, ghost rest: seq<nat>, ghost s: Store,
                   ghost o: set<nat>)
    requires fs.Valid() && ListsHeld(Stored(fs), q, rest, l, r) && Beside(s, o, Stored(fs), Elems(q) + Elems(rest))
    modifies fs
    ensures fs.Valid() && fs.View() == G.PatchToHere(old(fs.View()), q)
    ensures ListsHeld(Stored(fs), [], rest, NO_JUMP, r) && ListsHeld(Stored(fs), rest, [], r, NO_JUMP)
    ensures Beside(s, o, Stored(fs), Elems(rest))
  {
    hide Beside, FuncState.Valid, G.PatchToHere, Chain;
    ghost var s1 := Stored(fs);
    PatchToHere(fs, l, q);
    ListedBeside(s1, Elems(q), Stored(fs), {}, r, rest);
    BesideExtra(s1, Elems(q), Stored(fs), {}, Elems(rest));
    assert {} + Elems(rest) == Elems(rest) && Elems<nat>([]) == {};
    NoList(Stored(fs));
    BesideTrans(s, o, s1, Elems(q) + Elems(rest), Stored(fs), Elems(rest));
  }

  lemma DischargedLast(fs: G.FS, e: G.Exp)
    requires e.k.VReloc? ==> e.k.pc == |fs.code| - 1
    ensures var (c, x) := G.DischargeVars(fs, e); x.k.VReloc? ==> x.k.pc == |c.code| - 1
  {
  }

  lemma TrueSplit(fs: G.FS, e: G.Exp)
    ensures G.GoIfTrue(fs, e) ==
      var (fs1, e1) := G.DischargeVars(fs, e);
      var (fs2, list) := ExitTrue(fs1, e1);
      (G.PatchToHere(fs2, e1.t), G.Exp(e1.k, [], e1.f + list))
  {
    hide G.DischargeVars, G.JumpOnCond, G.InvertJump, G.Jump;
  }

  lemma FalseSplit(fs: G.FS, e: G.Exp)
    ensures G.GoIfFalse(fs, e) ==
      var (fs1, e1) := G.DischargeVars(fs, e);
      var (fs2, list) := ExitFalse(fs1, e1);
      (G.PatchToHere(fs2, e1.f), G.Exp(e1.k, e1.t + list, []))
  {
    hide G.DischargeVars, G.JumpOnCond, G.InvertJump, G.Jump;
  }

  /** luaK_goiffalse */
  method GoIfFalse(fs: FuncState, e: ExpDesc)
    requires e.Valid(fs) && Last(fs, e)
    modifies fs, e
    ensures fs.Valid() && e.fs == [] && e.f == NO_JUMP && ListsHeld(Stored(fs), e.ts, [], e.t, NO_JUMP)
    ensures (fs.View(), e.ts) == var (c, x) := G.GoIfFalse(old(fs.View()), old(e.View())); (c, x.t)
    ensures Beside(old(Stored(fs)), old(Owned(e.View())), Stored(fs), Elems(e.ts))
  {
    hide Beside, Listed, FuncState.Valid, G.DischargeVars, ExitFalse, G.PatchToHere;
    FalseSplit(fs.View(), e.View());
    ghost var s, o := Stored(fs), Owned(e.View());
    DischargedLast(fs.View(), e.View());
    DischargeVars(fs, e);
    ghost var s1, o1 := Stored(fs), Owned(e.View());
    var pc, list := TrueExit(fs, e);
    ghost var s2, o2, q := Stored(fs), Elems(e.ts) + Elems(e.fs) + Elems(list), e.ts;
    BesideTrans(s, o, s1, o1, s2, o2);
    e.t := Concat(fs, e.t, pc, q, list);
    ConcatHeld(s2, Stored(fs), q, list, e.t, e.fs, e.f);
    e.ts := q + list;
    assert o2 == Elems(q) + Elems(list) + Elems(e.fs);
    BesideTrans(s, o, s2, o2, Stored(fs), o2);
    assert o2 == Elems(e.fs) + Elems(e.ts);
    PatchRest(fs, e.f, e.fs, e.t, e.ts, s, o);
    e.f, e.fs := NO_JUMP, [];
  }

  // ---- operators ------------------------------------------------------------------

  /** codenot */
  method CodeNot(fs: FuncState, e: ExpDesc)
    requires e.Valid(fs)
    modifies fs, e
    ensures e.Valid(fs) && (fs.View(), e.View()) == G.CodeNot(old(fs.View()), old(e.View()))
    ensures Beside(old(Stored(fs)), old(Owned(e.View())), Stored(fs), Owned(e.View()))
  {
    hide Beside, Held, Owned, FuncState.Valid, G.DischargeVars, Negated, G.RemoveValues;
    NotSplit(fs.View(), e.View());
    ghost var s, o := Stored(fs), Owned(e.View());
    DischargeVars(fs, e);
    ghost var s1, o1 := Stored(fs), Owned(e.View());
    Negate(fs, e);
    ghost var s2, o2 := Stored(fs), Owned(e.View());
    BesideTrans(s, o, s1, o1, s2, o2);
    Swapped(s2, e.View(), e.t, e.f);
    e.f, e.t := e.t, e.f;
    e.fs, e.ts := e.ts, e.fs;
    DropValues(fs, e, e.f, e.fs);
    ghost var s3 := Stored(fs);
    BesideTrans(s, o, s2, o2, s3, o2);
    DropValues(fs, e, e.t, e.ts);
    BesideTrans(s, o, s3, o2, Stored(fs), o2);
  }

  lemma Swapped(s: Store, x: G.Exp, t: int, f: int)
    requires Held(s, x, t, f)
    ensures var y := G.Exp(x.k, x.f, x.t); Held(s, y, f, t) && Owned(y) == Owned(x)
  {
  }

  /** removevalues on one list of a descriptor */
  method DropValues(fs: FuncState, e: ExpDesc, list: int, ghost q: seq<nat>)
    requires e.Valid(fs) && ((list == e.t && q == e.ts) || (list == e.f && q == e.fs))
    modifies fs`code
    ensures e.Valid(fs) && fs.View() == old(fs.View()).(code := G.RemoveValues(old(fs.View()).code, q))
    ensures Beside(old(Stored(fs)), Owned(e.View()), Stored(fs), Owned(e.View()))
  {
    hide Chain, InstrAt, CellOk, G.RemoveValues;
    ghost var s := Stored(fs);
    fs.RemoveValues(list, q);
    ListedKept(s.code, fs.waiting, fs.code, fs.waiting, fs.jpc, fs.here);
    BesideKept(s, Stored(fs), e.View(), e.t, e.f);
  }

  /** The switch of codenot */
  function Negated(fs: G.FS, e: G.Exp): (G.FS, G.Exp) {
    match e.k
    case VNil => (fs, e.(k := G.VTrue))
    case VFalse => (fs, e.(k := G.VTrue))
    case VK(_) => (fs, e.(k := G.VFalse))
    case VKNum(_) => (fs, e.(k := G.VFalse))
    case VTrue => (fs, e.(k := G.VFalse))
    case VJmp(p) => (G.InvertJump(fs, p), e)
    case _ => NotEmitted(fs, e)
  }

  function NotEmitted(fs: G.FS, e: G.Exp): (G.FS, G.Exp) {
    var (fs2, e2) := G.Discharge2AnyReg(fs, e);
    var fs3 := G.FreeExp(fs2, e2);
    (G.Code(fs3, Not(0, if e2.k.VNonReloc? then e2.k.reg else 0)), e.(k := G.VReloc(|fs3.code|)))
  }

  lemma NotSplit(fs: G.FS, e: G.Exp)
    ensures G.CodeNot(fs, e) ==
      var (fs1, e1) := G.DischargeVars(fs, e);
      var (fs2, e2) := Negated(fs1, e1);
      (fs2.(code := G.RemoveValues(G.RemoveValues(fs2.code, e2.t), e2.f)), G.Exp(e2.k, e2.f, e2.t))
  {
    hide G.DischargeVars, G.Discharge2AnyReg, G.InvertJump, G.Code, G.RemoveValues;
    var (fs1, e1) := G.DischargeVars(fs, e);
    if !e1.k.VJmp? { AnyRegLists(fs1, e1); }
  }

  method Negate(fs: FuncState, e: ExpDesc)
    requires e.Valid(fs)
    modifies fs, e
    ensures e.Valid(fs) && (fs.View(), e.View()) == Negated(old(fs.View()), old(e.View()))
    ensures Beside(old(Stored(fs)), old(Owned(e.View())), Stored(fs), Owned(e.View()))
  {
    hide Beside, ListsHeld, FuncState.Valid, NotEmitted, G.InvertJump;
    ghost var s, o := Stored(fs), Owned(e.View());
    BesideSame(s, o);
    match e.k
    case VNil => e.k := G.VTrue;
    case VFalse => e.k := G.VTrue;
    case VK(_) => e.k := G.VFalse;
    case VKNum(_) => e.k := G.VFalse;
    case VTrue => e.k := G.VFalse;
    case VJmp(_) => InvertJump(fs, e);
    case _ => EmitNot(fs, e);
  }

  /** The branch of codenot for a value in a register */
  method EmitNot(fs: FuncState, e: ExpDesc)
    requires e.Valid(fs) && !e.k.VJmp?
    modifies fs, e
    ensures e.Valid(fs) && (fs.View(), e.View()) == NotEmitted(old(fs.View()), old(e.View()))
    ensures Beside(old(Stored(fs)), old(Owned(e.View())), Stored(fs), Owned(e.View()))
  {
    hide Beside, Held, FuncState.Valid, G.Discharge2AnyReg, G.FreeExp, G.Code;
    ghost var s, o := Stored(fs), Owned(e.View());
    AnyRegLists(fs.View(), e.View());
    Discharge2AnyReg(fs, e);
    ghost var s1, x1, o1 := Stored(fs), e.View(), Owned(e.View());
    FreeExp(fs, e);
    var pc := Emit(fs, Not(0, e.k.reg));
    HeldReloc(s1, Stored(fs), x1, e.t, e.f, pc);
    e.k := G.VReloc(pc);
    BesideTrans(s, o, s1, o1, Stored(fs), Owned(e.View()));
  }

  /** A descriptor whose value the instruction at `pc' computes now */
  lemma HeldReloc(s: Store, s2: Store, x: G.Exp, t: int, f: int, pc: nat)
    requires Held(s, x, t, f) && !x.k.VJmp? && Beside(s, {}, s2, {}) && pc < |s2.code| && s2.code[pc].Op?
    ensures var y := x.(k := G.VReloc(pc));
      Held(s2, y, t, f) && Beside(s, Owned(x), s2, Owned(y))
  {
    hide Beside, Listed;
    HeldBeside(s, {}, s2, {}, x, t, f);
    BesideMore(s, s2, Owned(x), {});
    assert Owned(x.(k := G.VReloc(pc))) == Owned(x) + {};
  }

  /** A first operand, after luaK_infix: it holds no jumps. */
  predicate Simple(e: ExpDesc)
    reads e
  {
    e.t == e.f == NO_JUMP && !e.k.VJmp?
  }

  lemma SimpleOwns(s: Store, x: G.Exp, t: int, f: int)
    requires Held(s, x, t, f) && t == f == NO_JUMP && !x.k.VJmp?
    ensures Owned(x) == {} && x.t == [] && x.f == []
  {
  }

  /** isnumeral */
  method IsNumeral(fs: FuncState, e: ExpDesc) returns (yes: bool)
    requires e.Valid(fs)
    ensures yes == G.IsNumeral(e.View())
  {
    HeldJumps(Stored(fs), e.View(), e.t, e.f);
    yes := e.k.VKNum? && e.t == e.f;
  }

  /** Both operands of an operator, the second freshly compiled */
  method LoadTwo(fs: FuncState, e1: ExpDesc, e2: ExpDesc) returns (o1: RK, o2: RK)
    requires e1 != e2 && e1.Valid(fs) && e2.Valid(fs) && Simple(e1)
    modifies fs, e1, e2
    ensures e1.Valid(fs) && e2.Valid(fs) && Simple(e1) && Simple(e2)
    ensures var (c, _, o) := G.Exp2RK(old(fs.View()), old(e2.View()));
      o2 == o && (fs.View(), e1.View(), o1) == G.Exp2RK(c, old(e1.View()))
    ensures Beside(old(Stored(fs)), old(Owned(e2.View())), Stored(fs), {})
  {
    hide Beside, Held, FuncState.Valid, G.Exp2RK;
    ghost var s, x1, own := Stored(fs), e1.View(), Owned(e2.View());
    SimpleOwns(s, x1, e1.t, e1.f);
    o2 := Exp2RK(fs, e2);
    ghost var s1, x2 := Stored(fs), e2.View();
    SimpleOwns(s1, x2, e2.t, e2.f);
    HeldBeside(s, own, s1, {}, x1, e1.t, e1.f);
    o1 := Exp2RK(fs, e1);
    SimpleOwns(Stored(fs), e1.View(), e1.t, e1.f);
    HeldBeside(s1, {}, Stored(fs), {}, x2, e2.t, e2.f);
    BesideTrans(s, own, s1, {}, Stored(fs), {});
  }

  /** codearith for a binary operator */
  method CodeArith(sem: Sem, fs: FuncState, op: ArithOp, e1: ExpDesc, e2: ExpDesc)
    requires e1 != e2 && e1.Valid(fs) && e2.Valid(fs) && Simple(e1)
    modifies fs, e1, e2
    ensures e1.Valid(fs)
    ensures (fs.View(), e1.View()) == G.CodeArith(sem, old(fs.View()), op, old(e1.View()), old(e2.View()))
    ensures Simple(e1) && Beside(old(Stored(fs)), old(Owned(e2.View())), Stored(fs), {})
  {
    hide Beside, Held, FuncState.Valid, G.Exp2RK, G.FreeTwo, G.Code, G.FoldArith, Owned;
    ghost var s, own := Stored(fs), Owned(e2.View());
    SimpleOwns(s, e1.View(), e1.t, e1.f);
    var n1 := IsNumeral(fs, e1);
    var n2 := IsNumeral(fs, e2);
    if n1 && n2 {
      var folded := G.FoldArith(sem, op, e1.k.n, e2.k.n);
      if folded.Some? {
        NumeralSimple(s, e2.View(), e2.t, e2.f);
        BesideSame(s, {});
        e1.k := G.VKNum(folded.value);
        assert e1.Valid(fs) by { PlainHeld(s, e1.k); }
        return;
      }
    }
    var o1, o2 := LoadTwo(fs, e1, e2);
    ghost var s1 := Stored(fs);
    SimpleOwns(s1, e1.View(), e1.t, e1.f);
    FreeTwo(fs, o1, o2);
    Computed(fs, e1, Arith(op, 0, o1, o2));
    BesideTrans(s, own, s1, {}, Stored(fs), {});
  }

  /** freeexp on both operands, the higher register first */
  method FreeTwo(fs: FuncState, o1: RK, o2: RK)
    modifies fs`freereg
    ensures fs.View() == G.FreeTwo(old(fs.View()), o1, o2)
    ensures Stored(fs) == old(Stored(fs)) && (old(fs.Valid()) ==> fs.Valid())
  {
    hide FuncState.Valid;
    if o1.K? || (o2.R? && o1.reg > o2.reg) {
      FreeRK(fs, o1);
      FreeRK(fs, o2);
    } else {
      FreeRK(fs, o2);
      FreeRK(fs, o1);
    }
  }

  /** The instruction of an operator; its target is still to be chosen. */
  method Computed(fs: FuncState, e: ExpDesc, i: Instr)
    requires fs.Valid() && e.t == e.f == NO_JUMP && e.ts == [] && e.fs == [] && !i.Jmp?
    modifies fs, e`k
    ensures e.Valid(fs) && Simple(e) && fs.View() == G.Code(old(fs.View()), i)
    ensures e.View() == G.Plain(G.VReloc(old(|fs.code|)))
    ensures Beside(old(Stored(fs)), {}, Stored(fs), {}) && Owned(e.View()) == {}
  {
    hide Beside, Held, FuncState.Valid, G.Code;
    var pc := Emit(fs, i);
    e.k := G.VReloc(pc);
    PlainHeld(Stored(fs), e.k);
  }

  lemma SameLists(s: Store, x: G.Exp, y: G.Exp, t: int, f: int)
    requires Held(s, x, t, f) && y.t == x.t && y.f == x.f && !x.k.VJmp? && !y.k.VJmp? && !y.k.VReloc?
    ensures Held(s, y, t, f) && Owned(y) == Owned(x)
  {
  }

  lemma PlainHeld(s: Store, k: G.Kind)
    requires !k.VJmp? && (k.VReloc? ==> k.pc < |s.code| && s.code[k.pc].Op?)
    ensures Held(s, G.Plain(k), NO_JUMP, NO_JUMP) && Owned(G.Plain(k)) == {}
  {
  }

  /** codecomp */
  method CodeComp(fs: FuncState, op: G.CompOp, e1: ExpDesc, e2: ExpDesc)
    requires e1 != e2 && e1.Valid(fs) && e2.Valid(fs) && Simple(e1)
    modifies fs, e1, e2
    ensures e1.Valid(fs) && (fs.View(), e1.View()) == G.CodeComp(old(fs.View()), op, old(e1.View()), old(e2.View()))
    ensures Beside(old(Stored(fs)), old(Owned(e2.View())), Stored(fs), Owned(e1.View()))
  {
    hide Beside, Held, FuncState.Valid, G.Exp2RK, G.FreeRK, G.CondJump, Owned, Listed;
    ghost var s, x2, own := Stored(fs), e2.View(), Owned(e2.View());
    SimpleOwns(s, e1.View(), e1.t, e1.f);
    var o1 := Exp2RK(fs, e1);
    ghost var s1 := Stored(fs);
    SimpleOwns(s1, e1.View(), e1.t, e1.f);
    HeldBeside(s, {}, s1, {}, x2, e2.t, e2.f);
    BesideMore(s, s1, own, {});
    assert own + {} == own;
    var o2 := Exp2RK(fs, e2);
    ghost var s2 := Stored(fs);
    SimpleOwns(s2, e2.View(), e2.t, e2.f);
    BesideTrans(s, own, s1, own, s2, {});
    FreeRK(fs, o2);
    FreeRK(fs, o1);
    var j, list := CondJump(fs, G.Comparison(op, o1, o2));
    e1.k := G.VJmp(j);
    JmpHeld(Stored(fs), j, list);
    BesideTrans(s, own, s2, {}, Stored(fs), Elems(list));
  }

  lemma JmpHeld(s: Store, j: nat, list: seq<nat>)
    requires Listed(s.code, s.waiting, j, list) && list == [j] && s.here == []
    ensures Held(s, G.Plain(G.VJmp(j)), NO_JUMP, NO_JUMP) && Owned(G.Plain(G.VJmp(j))) == Elems(list)
  {
    assert Elems(list) == {j} && Elems<nat>([]) == {};
  }

  /** luaK_prefix for `-' */
  method CodeMinus(sem: Sem, fs: FuncState, e: ExpDesc)
    requires e.Valid(fs)
    modifies fs, e
    ensures e.Valid(fs) && (fs.View(), e.View()) == G.CodeMinus(sem, old(fs.View()), old(e.View()))
    ensures Beside(old(Stored(fs)), old(Owned(e.View())), Stored(fs), Owned(e.View()))
  {
    hide Beside, Held, Owned, FuncState.Valid, G.Exp2AnyReg, G.Exp2RK, G.FreeRK, G.Code;
    ghost var s, o := Stored(fs), Owned(e.View());
    BesideSame(s, o);
    if e.k.VK? { Exp2AnyReg(fs, e); }
    ghost var s1, o1 := Stored(fs), Owned(e.View());
    var num := IsNumeral(fs, e);
    if num && !sem.nan(sem.neg(e.k.n)) {
      ghost var x := e.View();
      e.k := G.VKNum(sem.neg(e.k.n));
      SameLists(s1, x, e.View(), e.t, e.f);
      return;
    }
    var o0 := Exp2RK(fs, e);
    ghost var s2 := Stored(fs);
    SimpleOwns(s2, e.View(), e.t, e.f);
    FreeRK(fs, o0);
    Computed(fs, e, Unm(0, o0));
    BesideTrans(s, o, s1, o1, s2, {});
    BesideTrans(s, o, s2, {}, Stored(fs), {});
  }

  /** luaK_prefix for `#' */
  method CodeLen(fs: FuncState, e: ExpDesc)
    requires e.Valid(fs)
    modifies fs, e
    ensures e.Valid(fs) && (fs.View(), e.View()) == G.CodeLen(old(fs.View()), old(e.View()))
    ensures Beside(old(Stored(fs)), old(Owned(e.View())), Stored(fs), Owned(e.View()))
  {
    hide Beside, Held, Owned, FuncState.Valid, G.Exp2AnyReg, G.Exp2RK, G.FreeRK, G.Code;
    ghost var s, o := Stored(fs), Owned(e.View());
    Exp2AnyReg(fs, e);
    ghost var s1, o1 := Stored(fs), Owned(e.View());
    var o0 := Exp2RK(fs, e);
    ghost var s2 := Stored(fs);
    SimpleOwns(s2, e.View(), e.t, e.f);
    FreeRK(fs, o0);
    Computed(fs, e, Len(0, o0));
    BesideTrans(s, o, s1, o1, s2, {});
    BesideTrans(s, o, s2, {}, Stored(fs), {});
  }

  // ---- subexpr --------------------------------------------------------------------

  /** luaK_infix for an arithmetic operator */
  method InfixArith(fs: FuncState, e: ExpDesc)
    requires e.Valid(fs)
    modifies fs, e
    ensures e.Valid(fs) && Simple(e) && (fs.View(), e.View()) == G.InfixArith(old(fs.View()), old(e.View()))
    ensures Beside(old(Stored(fs)), old(Owned(e.View())), Stored(fs), {})
  {
    hide Beside, Held, FuncState.Valid, G.Exp2RK;
    ghost var s := Stored(fs);
    var num := IsNumeral(fs, e);
    if num {
      NumeralSimple(s, e.View(), e.t, e.f);
      BesideSame(s, {});
    } else {
      var _ := Exp2RK(fs, e);
      SimpleOwns(Stored(fs), e.View(), e.t, e.f);
    }
  }

  lemma NumeralSimple(s: Store, x: G.Exp, t: int, f: int)
    requires Held(s, x, t, f) && G.IsNumeral(x)
    ensures t == f == NO_JUMP && Owned(x) == {}
  {
  }

  /** subexpr, with the operators that generate no jumps of their own to merge */
  method SubExpr(sem: Sem, fs: FuncState, e: ExpDesc, x: G.Expr)
    requires fs.Valid()
    modifies fs, e
    ensures e.Valid(fs) && (fs.View(), e.View()) == G.Gen(sem, old(fs.View()), x)
    ensures Beside(old(Stored(fs)), {}, Stored(fs), Owned(e.View()))
    decreases x, 1
  {
    hide Beside, Held, Owned, FuncState.Valid, G.Gen;
    match x
    case EAnd(a, b) => SubAnd(sem, fs, e, a, b);
    case EOr(a, b) => SubOr(sem, fs, e, a, b);
    case EArith(op, a, b) => SubArith(sem, fs, e, op, a, b);
    case EComp(op, a, b) => SubComp(sem, fs, e, op, a, b);
    case EIndex(t, key) => SubIndex(sem, fs, e, t, key);
    case EParen(e0) => SubUnary(sem, fs, e, x, e0);
    case ENot(e0) => SubUnary(sem, fs, e, x, e0);
    case EMinus(e0) => SubUnary(sem, fs, e, x, e0);
    case ELen(e0) => SubUnary(sem, fs, e, x, e0);
    case _ => SimpleExp(sem, fs, e, x);
  }

  /** simpleexp and singlevar */
  method SimpleExp(sem: Sem, fs: FuncState, e: ExpDesc, x: G.Expr)
    requires fs.Valid()
    requires x.ENil? || x.ETrue? || x.EFalse? || x.ENum? || x.EStr? || x.ELocal? || x.EUpval? || x.EGlobal?
    modifies fs, e
    ensures e.Valid(fs) && (fs.View(), e.View()) == G.Gen(sem, old(fs.View()), x)
    ensures Beside(old(Stored(fs)), {}, Stored(fs), Owned(e.View()))
  {
    hide Beside, Held, Owned, FuncState.Valid, G.AddK;
    match x {
      case ENil => e.k := G.VNil;
      case ETrue => e.k := G.VTrue;
      case EFalse => e.k := G.VFalse;
      case ENum(n) => e.k := G.VKNum(n);
      case EStr(s) =>
        var _ := AddK(fs, s);
        e.k := G.VK(s);
      case ELocal(r) => e.k := G.VLocal(r);
      case EUpval(i) => e.k := G.VUpval(i);
      case EGlobal(name) =>
        var _ := AddK(fs, name);
        e.k := G.VGlobal(name);
    }
    e.t, e.f, e.ts, e.fs := NO_JUMP, NO_JUMP, [], [];
    PlainHeld(Stored(fs), e.k);
    BesideSame(Stored(fs), {});
  }

  /** A parenthesis, or an operator with one operand */
  method SubUnary(sem: Sem, fs: FuncState, e: ExpDesc, x: G.Expr, a: G.Expr)
    requires fs.Valid() && (x == G.EParen(a) || x == G.ENot(a) || x == G.EMinus(a) || x == G.ELen(a))
    modifies fs, e
    ensures e.Valid(fs) && (fs.View(), e.View()) == G.Gen(sem, old(fs.View()), x)
    ensures Beside(old(Stored(fs)), {}, Stored(fs), Owned(e.View()))
    decreases x, 0
  {
    hide Beside, Held, Owned, FuncState.Valid, G.DischargeVars, G.CodeNot, G.CodeMinus, G.CodeLen;
    ghost var s := Stored(fs);
    SubExpr(sem, fs, e, a);
    ghost var s1, o1 := Stored(fs), Owned(e.View());
    match x {
      case EParen(_) => DischargeVars(fs, e);
      case ENot(_) => CodeNot(fs, e);
      case EMinus(_) => CodeMinus(sem, fs, e);
      case ELen(_) => CodeLen(fs, e);
    }
    BesideTrans(s, {}, s1, o1, Stored(fs), Owned(e.View()));
  }

  method SubArith(sem: Sem, fs: FuncState, e: ExpDesc, op: ArithOp, a: G.Expr, b: G.Expr)
    requires fs.Valid()
    modifies fs, e
    ensures e.Valid(fs) && (fs.View(), e.View()) == G.Gen(sem, old(fs.View()), G.EArith(op, a, b))
    ensures Beside(old(Stored(fs)), {}, Stored(fs), Owned(e.View()))
    decreases G.EArith(op, a, b), 0
  {
    hide Beside, Held, Owned, FuncState.Valid, G.InfixArith, G.CodeArith, G.Gen;
    ArithGen(sem, fs.View(), op, a, b);
    ghost var s := Stored(fs);
    SubExpr(sem, fs, e, a);
    ghost var s1, o1 := Stored(fs), Owned(e.View());
    InfixArith(fs, e);
    ghost var s2, x := Stored(fs), e.View();
    SimpleOwns(s2, x, e.t, e.f);
    BesideTrans(s, {}, s1, o1, s2, {});
    var e2 := new ExpDesc(G.VNil);
    SubExpr(sem, fs, e2, b);
    ghost var s3, o3 := Stored(fs), Owned(e2.View());
    HeldBeside(s2, {}, s3, o3, x, e.t, e.f);
    BesideTrans(s, {}, s2, {}, s3, o3);
    CodeArith(sem, fs, op, e, e2);
    SimpleOwns(Stored(fs), e.View(), e.t, e.f);
    BesideTrans(s, {}, s3, o3, Stored(fs), {});
  }

  method SubComp(sem: Sem, fs: FuncState, e: ExpDesc, op: G.CompOp, a: G.Expr, b: G.Expr)
    requires fs.Valid()
    modifies fs, e
    ensures e.Valid(fs) && (fs.View(), e.View()) == G.Gen(sem, old(fs.View()), G.EComp(op, a, b))
    ensures Beside(old(Stored(fs)), {}, Stored(fs), Owned(e.View()))
    decreases G.EComp(op, a, b), 0
  {
    hide Beside, Held, Owned, FuncState.Valid, G.Exp2RK, G.CodeComp, G.Gen;
    CompGen(sem, fs.View(), op, a, b);
    ghost var s := Stored(fs);
    SubExpr(sem, fs, e, a);
    ghost var s1, o1 := Stored(fs), Owned(e.View());
    var _ := Exp2RK(fs, e);
    ghost var s2, x := Stored(fs), e.View();
    SimpleOwns(s2, x, e.t, e.f);
    BesideTrans(s, {}, s1, o1, s2, {});
    var e2 := new ExpDesc(G.VNil);
    SubExpr(sem, fs, e2, b);
    ghost var s3, o3 := Stored(fs), Owned(e2.View());
    HeldBeside(s2, {}, s3, o3, x, e.t, e.f);
    BesideTrans(s, {}, s2, {}, s3, o3);
    CodeComp(fs, op, e, e2);
    BesideTrans(s, {}, s3, o3, Stored(fs), Owned(e.View()));
  }

  method SubIndex(sem: Sem, fs: FuncState, e: ExpDesc, t: G.Expr, key: G.Expr)
    requires fs.Valid()
    modifies fs, e
    ensures e.Valid(fs) && (fs.View(), e.View()) == G.Gen(sem, old(fs.View()), G.EIndex(t, key))
    ensures Beside(old(Stored(fs)), {}, Stored(fs), Owned(e.View()))
    decreases G.EIndex(t, key), 0
  {
    hide Beside, Held, Owned, FuncState.Valid, G.Exp2AnyReg, G.Exp2Val, G.Exp2RK, G.Gen;
    IndexGen(sem, fs.View(), t, key);
    ghost var s := Stored(fs);
    SubExpr(sem, fs, e, t);
    ghost var s1, o1 := Stored(fs), Owned(e.View());
    AnyRegPlain(fs.View(), e.View());
    Exp2AnyReg(fs, e);
    ghost var s2, x := Stored(fs), e.View();
    EmptyHeads(s2, x, e.t, e.f);
    SimpleOwns(s2, x, e.t, e.f);
    BesideTrans(s, {}, s1, o1, s2, {});
    var e2 := new ExpDesc(G.VNil);
    SubExpr(sem, fs, e2, key);
    ghost var s3, o3 := Stored(fs), Owned(e2.View());
    BesideTrans(s, {}, s2, {}, s3, o3);
    Exp2Val(fs, e2);
    ghost var s4, o4 := Stored(fs), Owned(e2.View());
    BesideTrans(s, {}, s3, o3, s4, o4);
    var rk := Exp2RK(fs, e2);
    SimpleOwns(Stored(fs), e2.View(), e2.t, e2.f);
    BesideTrans(s, {}, s4, o4, Stored(fs), {});
    e.k := G.VIndexed(e.k.reg, rk);
    PlainHeld(Stored(fs), e.k);
  }

  /** luaK_posfix for `and' and `or': a list of the first operand goes behind that of the second. */
  lemma Merged(s: Store, s2: Store, x: G.Exp, t: int, f: int, list: seq<nat>, l: int, onTrue: bool)
    requires Held(s, x, t, f) && Elems(list) !! Owned(x) && Elems(list) !! Elems(s.here)
    requires s2 == s.(code := s2.code) && |s2.code| == |s.code| && SameOps(s.code, s2.code)
    requires var a := if onTrue then x.t else x.f;
      && (forall p :: 0 <= p < |s.code| && p !in Elems(a) ==> s2.code[p] == s.code[p])
      && Listed(s2.code, s2.waiting, l, a + list)
    ensures var y := if onTrue then x.(t := x.t + list) else x.(f := x.f + list);
      && (if onTrue then Held(s2, y, l, f) else Held(s2, y, t, l))
      && Owned(y) == Owned(x) + Elems(list)
      && Beside(s, Owned(x) + Elems(list), s2, Owned(y))
  {
    hide Listed, Elems;
    if onTrue { ConcatHeld(s, s2, x.t, list, l, x.f, f); } else { ConcatHeld(s, s2, x.f, list, l, x.t, t); }
    if x.k.VJmp? { JumpKept(s, s2, x.k.pc, if onTrue then x.t else x.f); }
  }

  lemma JumpKept(s: Store, s2: Store, pc: nat, a: seq<nat>)
    requires Listed(s.code, s.waiting, pc, [pc]) && pc !in Elems(a) && s2 == s.(code := s2.code)
    requires |s2.code| == |s.code|
    requires forall p :: 0 <= p < |s.code| && p !in Elems(a) ==> s2.code[p] == s.code[p]
    ensures Listed(s2.code, s2.waiting, pc, [pc])
  {
    ChainFrame(s.code, s2.code, pc, [pc]);
  }

  /** luaK_posfix for `and' */
  method PosfixAnd(fs: FuncState, e: ExpDesc, e2: ExpDesc)
    requires e != e2 && e2.Valid(fs) && Listed(fs.code, fs.waiting, e.f, e.fs)
    requires Elems(e.fs) !! Owned(e2.View()) && Elems(e.fs) !! Elems(fs.here)
    modifies fs, e, e2
    ensures e.Valid(fs)
    ensures (fs.View(), e.View()) ==
      var (c, y) := G.DischargeVars(old(fs.View()), old(e2.View())); (c, y.(f := y.f + old(e.fs)))
    ensures Beside(old(Stored(fs)), old(Owned(e2.View()) + Elems(e.fs)), Stored(fs), Owned(e.View()))
  {
    hide Beside, Listed, FuncState.Valid, G.DischargeVars, Elems;
    ghost var s, o, list := Stored(fs), Owned(e2.View()), e.fs;
    DischargeVars(fs, e2);
    ghost var s1, o1 := Stored(fs), Owned(e2.View());
    ListedBeside(s, o, s1, o1, e.f, list);
    BesideExtra(s, o, s1, o1, Elems(list));
    var l := Concat(fs, e2.f, e.f, e2.fs, list);
    Merged(s1, Stored(fs), e2.View(), e2.t, e2.f, list, l, false);
    e.k, e.t, e.f := e2.k, e2.t, l;
    e.ts, e.fs := e2.ts, e2.fs + list;
    BesideTrans(s, o + Elems(list), s1, o1 + Elems(list), Stored(fs), Owned(e.View()));
  }

  /** luaK_posfix for `or' */
  method PosfixOr(fs: FuncState, e: ExpDesc, e2: ExpDesc)
    requires e != e2 && e2.Valid(fs) && Listed(fs.code, fs.waiting, e.t, e.ts)
    requires Elems(e.ts) !! Owned(e2.View()) && Elems(e.ts) !! Elems(fs.here)
    modifies fs, e, e2
    ensures e.Valid(fs)
    ensures (fs.View(), e.View()) ==
      var (c, y) := G.DischargeVars(old(fs.View()), old(e2.View())); (c, y.(t := y.t + old(e.ts)))
    ensures Beside(old(Stored(fs)), old(Owned(e2.View()) + Elems(e.ts)), Stored(fs), Owned(e.View()))
  {
    hide Beside, Listed, FuncState.Valid, G.DischargeVars, Elems;
    ghost var s, o, list := Stored(fs), Owned(e2.View()), e.ts;
    DischargeVars(fs, e2);
    ghost var s1, o1 := Stored(fs), Owned(e2.View());
    ListedBeside(s, o, s1, o1, e.t, list);
    BesideExtra(s, o, s1, o1, Elems(list));
    var l := Concat(fs, e2.t, e.t, e2.ts, list);
    Merged(s1, Stored(fs), e2.View(), e2.t, e2.f, list, l, true);
    e.k, e.f, e.t := e2.k, e2.f, l;
    e.fs, e.ts := e2.fs, e2.ts + list;
    BesideTrans(s, o + Elems(list), s1, o1 + Elems(list), Stored(fs), Owned(e.View()));
  }

  /** A value that an instruction computes is computed by the last one. */
  lemma {:induction false} GenLast(sem: Sem, fs: G.FS, x: G.Expr)
    ensures var (c, e) := G.Gen(sem, fs, x); e.k.VReloc? ==> e.k.pc == |c.code| - 1
    decreases x
  {
    hide G.Exp2RK, G.Exp2AnyReg, G.Exp2Val, G.GoIfTrue, G.GoIfFalse, G.InfixArith, G.InfixComp, G.DischargeVars,
         G.CodeNot,
         G.CodeMinus, G.CodeLen, G.CodeArith, G.CodeComp;
    match x
    case EParen(a) =>
      GenLast(sem, fs, a);
      DischargedLast(G.Gen(sem, fs, a).0, G.Gen(sem, fs, a).1);
    case ENot(a) => UnaryLast(sem, G.Gen(sem, fs, a).0, G.Gen(sem, fs, a).1);
    case EMinus(a) => UnaryLast(sem, G.Gen(sem, fs, a).0, G.Gen(sem, fs, a).1);
    case ELen(a) => UnaryLast(sem, G.Gen(sem, fs, a).0, G.Gen(sem, fs, a).1);
    case EArith(op, a, b) =>
      var (fs1, e1) := G.Gen(sem, fs, a);
      var (fs2, e2) := G.InfixArith(fs1, e1);
      var (fs3, e3) := G.Gen(sem, fs2, b);
      BinaryLast(sem, fs3, op, e2, e3);
    case EComp(op, a, b) =>
      var (fs1, e1) := G.Gen(sem, fs, a);
      var (fs2, e2) := G.InfixComp(fs1, e1);
      var (fs3, e3) := G.Gen(sem, fs2, b);
      CompLast(fs3, op, e2, e3);
    case EAnd(a, b) =>
      var (fs1, e1) := G.Gen(sem, fs, a);
      var (fs2, e2) := G.GoIfTrue(fs1, e1);
      GenLast(sem, fs2, b);
      DischargedLast(G.Gen(sem, fs2, b).0, G.Gen(sem, fs2, b).1);
    case EOr(a, b) =>
      var (fs1, e1) := G.Gen(sem, fs, a);
      var (fs2, e2) := G.GoIfFalse(fs1, e1);
      GenLast(sem, fs2, b);
      DischargedLast(G.Gen(sem, fs2, b).0, G.Gen(sem, fs2, b).1);
    case _ =>
  }

  lemma UnaryLast(sem: Sem, fs: G.FS, e: G.Exp)
    ensures var (c, x) := G.CodeNot(fs, e); x.k.VReloc? ==> x.k.pc == |c.code| - 1
    ensures var (c, x) := G.CodeMinus(sem, fs, e); x.k.VReloc? ==> x.k.pc == |c.code| - 1
    ensures var (c, x) := G.CodeLen(fs, e); x.k.VReloc? ==> x.k.pc == |c.code| - 1
  {
    hide G.Exp2RK, G.Exp2AnyReg, G.Discharge2AnyReg, G.DischargeVars, G.InvertJump, G.Code, G.FreeExp, G.FreeRK,
         G.RemoveValues;
  }

  lemma BinaryLast(sem: Sem, fs: G.FS, op: ArithOp, e1: G.Exp, e2: G.Exp)
    ensures var (c, x) := G.CodeArith(sem, fs, op, e1, e2); x.k.VReloc? ==> x.k.pc == |c.code| - 1
  {
    hide G.Exp2RK, G.Code, G.FreeTwo;
  }

  lemma CompLast(fs: G.FS, op: G.CompOp, e1: G.Exp, e2: G.Exp)
    ensures !G.CodeComp(fs, op, e1, e2).1.k.VReloc?
  {
    hide G.Exp2RK, G.CondJump, G.FreeRK;
  }

  method SubAnd(sem: Sem, fs: FuncState, e: ExpDesc, a: G.Expr, b: G.Expr)
    requires fs.Valid()
    modifies fs, e
    ensures e.Valid(fs) && (fs.View(), e.View()) == G.Gen(sem, old(fs.View()), G.EAnd(a, b))
    ensures Beside(old(Stored(fs)), {}, Stored(fs), Owned(e.View()))
    decreases G.EAnd(a, b), 0
  {
    hide Beside, Held, Listed, Owned, FuncState.Valid, G.GoIfTrue, G.DischargeVars, G.Gen;
    AndGen(sem, fs.View(), a, b);
    ghost var s := Stored(fs);
    GenLast(sem, fs.View(), a);
    SubExpr(sem, fs, e, a);
    ghost var s1, o1 := Stored(fs), Owned(e.View());
    GoIfTrue(fs, e);
    ghost var s2, list := Stored(fs), Elems(e.fs);
    BesideTrans(s, {}, s1, o1, s2, list);
    var e2 := new ExpDesc(G.VNil);
    SubExpr(sem, fs, e2, b);
    ghost var s3, o3 := Stored(fs), Owned(e2.View());
    ListedBeside(s2, {}, s3, o3, e.f, e.fs);
    BesideExtra(s2, {}, s3, o3, list);
    assert {} + list == list;
    BesideTrans(s, {}, s2, list, s3, o3 + list);
    PosfixAnd(fs, e, e2);
    BesideTrans(s, {}, s3, o3 + list, Stored(fs), Owned(e.View()));
  }

  method SubOr(sem: Sem, fs: FuncState, e: ExpDesc, a: G.Expr, b: G.Expr)
    requires fs.Valid()
    modifies fs, e
    ensures e.Valid(fs) && (fs.View(), e.View()) == G.Gen(sem, old(fs.View()), G.EOr(a, b))
    ensures Beside(old(Stored(fs)), {}, Stored(fs), Owned(e.View()))
    decreases G.EOr(a, b), 0
  {
    hide Beside, Held, Listed, Owned, FuncState.Valid, G.GoIfFalse, G.DischargeVars, G.Gen;
    OrGen(sem, fs.View(), a, b);
    ghost var s := Stored(fs);
    GenLast(sem, fs.View(), a);
    SubExpr(sem, fs, e, a);
    ghost var s1, o1 := Stored(fs), Owned(e.View());
    GoIfFalse(fs, e);
    ghost var s2, list := Stored(fs), Elems(e.ts);
    BesideTrans(s, {}, s1, o1, s2, list);
    var e2 := new ExpDesc(G.VNil);
    SubExpr(sem, fs, e2, b);
    ghost var s3, o3 := Stored(fs), Owned(e2.View());
    ListedBeside(s2, {}, s3, o3, e.t, e.ts);
    BesideExtra(s2, {}, s3, o3, list);
    assert {} + list == list;
    BesideTrans(s, {}, s2, list, s3, o3 + list);
    PosfixOr(fs, e, e2);
    BesideTrans(s, {}, s3, o3 + list, Stored(fs), Owned(e.View()));
  }

  /** cond: the result is the list of the jumps taken when the condition does not hold. */
  method Cond(sem: Sem, fs: FuncState, x: G.Expr) returns (head: int, ghost list: seq<nat>)
    requires fs.Valid()
    modifies fs
    ensures fs.Valid() && (fs.View(), list) == G.Cond(sem, old(fs.View()), x)
    ensures Listed(fs.code, fs.waiting, head, list) && Elems(list) !! Elems(fs.here)
    ensures Beside(old(Stored(fs)), {}, Stored(fs), Elems(list))
  {
    hide Beside, Listed, FuncState.Valid, G.Gen, G.GoIfTrue;
    ghost var s := Stored(fs);
    var v := new ExpDesc(G.VNil);
    GenLast(sem, fs.View(), x);
    SubExpr(sem, fs, v, x);
    ghost var s1, o1 := Stored(fs), Owned(v.View());
    if v.k.VNil? { v.k := G.VFalse; }           // `falses' are all equal here
    assert Owned(v.View()) == o1;
    GoIfTrue(fs, v);
    BesideTrans(s, {}, s1, o1, Stored(fs), Elems(v.fs));
    head, list := v.f, v.fs;
  }

  // ---- one step of G.Gen ----------------------------------------------------------

  lemma AndGen(sem: Sem, fs: G.FS, a: G.Expr, b: G.Expr)
    ensures var (fs1, e1) := G.Gen(sem, fs, a);
      var (fs2, e2) := G.GoIfTrue(fs1, e1);
      var (fs3, e3) := G.Gen(sem, fs2, b);
      var (fs4, e4) := G.DischargeVars(fs3, e3);
      G.Gen(sem, fs, G.EAnd(a, b)) == (fs4, e4.(f := e4.f + e2.f))
  {
    hide G.GoIfTrue, G.GoIfFalse, G.DischargeVars, G.InfixArith, G.InfixComp, G.CodeArith, G.CodeComp, G.CodeNot,
         G.CodeMinus, G.CodeLen,
         G.Exp2AnyReg, G.Exp2Val, G.Exp2RK, G.AddK;
  }

  lemma OrGen(sem: Sem, fs: G.FS, a: G.Expr, b: G.Expr)
    ensures var (fs1, e1) := G.Gen(sem, fs, a);
      var (fs2, e2) := G.GoIfFalse(fs1, e1);
      var (fs3, e3) := G.Gen(sem, fs2, b);
      var (fs4, e4) := G.DischargeVars(fs3, e3);
      G.Gen(sem, fs, G.EOr(a, b)) == (fs4, e4.(t := e4.t + e2.t))
  {
    hide G.GoIfTrue, G.GoIfFalse, G.DischargeVars, G.InfixArith, G.InfixComp, G.CodeArith, G.CodeComp, G.CodeNot,
         G.CodeMinus, G.CodeLen,
         G.Exp2AnyReg, G.Exp2Val, G.Exp2RK, G.AddK;
  }

  lemma ArithGen(sem: Sem, fs: G.FS, op: ArithOp, a: G.Expr, b: G.Expr)
    ensures var (fs1, e1) := G.Gen(sem, fs, a);
      var (fs2, e2) := G.InfixArith(fs1, e1);
      var (fs3, e3) := G.Gen(sem, fs2, b);
      G.Gen(sem, fs, G.EArith(op, a, b)) == G.CodeArith(sem, fs3, op, e2, e3)
  {
    hide G.GoIfTrue, G.GoIfFalse, G.DischargeVars, G.InfixArith, G.InfixComp, G.CodeArith, G.CodeComp, G.CodeNot,
         G.CodeMinus, G.CodeLen,
         G.Exp2AnyReg, G.Exp2Val, G.Exp2RK, G.AddK;
  }

  lemma CompGen(sem: Sem, fs: G.FS, op: G.CompOp, a: G.Expr, b: G.Expr)
    ensures var (fs1, e1) := G.Gen(sem, fs, a);
      var (fs2, e2) := G.InfixComp(fs1, e1);
      var (fs3, e3) := G.Gen(sem, fs2, b);
      G.Gen(sem, fs, G.EComp(op, a, b)) == G.CodeComp(fs3, op, e2, e3)
  {
    hide G.GoIfTrue, G.GoIfFalse, G.DischargeVars, G.InfixArith, G.InfixComp, G.CodeArith, G.CodeComp, G.CodeNot,
         G.CodeMinus, G.CodeLen,
         G.Exp2AnyReg, G.Exp2Val, G.Exp2RK, G.AddK;
  }

  lemma IndexGen(sem: Sem, fs: G.FS, t: G.Expr, key: G.Expr)
    ensures var (fs1, e1) := G.Gen(sem, fs, t);
      var (fs2, e2) := G.Exp2AnyReg(fs1, e1);
      var (fs3, e3) := G.Gen(sem, fs2, key);
      var (fs4, e4) := G.Exp2Val(fs3, e3);
      var (fs5, _, o) := G.Exp2RK(fs4, e4);
      G.Gen(sem, fs, G.EIndex(t, key)) == (fs5, G.Plain(G.VIndexed(if e2.k.VNonReloc? then e2.k.reg else 0, o)))
  {
    hide G.GoIfTrue, G.GoIfFalse, G.DischargeVars, G.InfixArith, G.InfixComp, G.CodeArith, G.CodeComp, G.CodeNot,
         G.CodeMinus, G.CodeLen,
         G.Exp2AnyReg, G.Exp2Val, G.Exp2RK, G.AddK;
  }
}
