/**
 The generator's state as it is stored (lcode.c, lcode.h, lopcodes.h): a jump holds an offset, a
 waiting jump's offset is the link to the next jump of its list, and every operation
 updates the code in place.
 */
module LuaFuncState {
  import opened Basics
  import opened LuaVm
  import G = LuaGen
  import opened LuaRun

  /** An instruction; OP_JMP holds its signed offset. */
  datatype Cell = Op(i: Instr) | Goto(sbx: int)

  /** end of patch list: an offset that points to the jump itself */
  const NO_JUMP: int := -1

  // ---- threaded lists -------------------------------------------------------

  /** getjump */
  function GetJump(code: seq<Cell>, pc: nat): int
    requires pc < |code| && code[pc].Goto?
  {
    if code[pc].sbx == NO_JUMP then NO_JUMP else pc + 1 + code[pc].sbx
  }

  /** From `head`, the links visit exactly the jumps of `list`, in order, and end. */
  ghost predicate Chain(code: seq<Cell>, head: int, list: seq<nat>)
    decreases |list|
  {
    if list == [] then head == NO_JUMP
    else
      && head == list[0] && list[0] < |code| && code[list[0]].Goto?
      && Chain(code, GetJump(code, list[0]), list[1..])
  }

  /** A chain only depends on its own jumps. */
  lemma {:induction false} ChainFrame(code: seq<Cell>, code': seq<Cell>, head: int, list: seq<nat>)
    requires Chain(code, head, list) && |code| <= |code'|
    requires forall j :: j in list && j < |code| ==> code'[j] == code[j]
    ensures Chain(code', head, list)
    decreases |list|
  {
    if list != [] { ChainFrame(code, code', GetJump(code, list[0]), list[1..]); }
  }

  lemma {:induction false} ChainJumps(code: seq<Cell>, head: int, list: seq<nat>)
    requires Chain(code, head, list)
    ensures forall j :: j in list ==> j < |code| && code[j].Goto?
    decreases |list|
  {
    if list != [] {
      ChainJumps(code, GetJump(code, list[0]), list[1..]);
      assert list == [list[0]] + list[1..];
    }
  }

  /** A head determines its list: two chains from the same head are the same. */
  lemma {:induction false} ChainUnique(code: seq<Cell>, head: int, a: seq<nat>, b: seq<nat>)
    requires Chain(code, head, a) && Chain(code, head, b)
    ensures a == b
    decreases |a|
  {
    if a != [] && b != [] { ChainUnique(code, GetJump(code, a[0]), a[1..], b[1..]); }
  }

  /** A finite chain visits no jump twice. */
  lemma {:induction false} ChainAcyclic(code: seq<Cell>, head: int, list: seq<nat>)
    requires Chain(code, head, list)
    ensures NoDup(list)
    decreases |list|
  {
    if list != [] {
      ChainAcyclic(code, GetJump(code, list[0]), list[1..]);
      forall b | 0 < b < |list| ensures list[b] != list[0] {
        ChainFrom(code, head, list, b);
        if list[b] == list[0] { ChainUnique(code, list[0], list, list[b..]); }
      }
    }
  }

  lemma {:induction false} ChainFrom(code: seq<Cell>, head: int, list: seq<nat>, b: nat)
    requires Chain(code, head, list) && b < |list|
    ensures Chain(code, list[b], list[b..])
    decreases b
  {
    if b > 0 {
      ChainFrom(code, GetJump(code, list[0]), list[1..], b - 1);
      assert list[1..][b - 1..] == list[b..];
    }
  }

  /** Two chains of one code are disjoint, or one is the end of the other. */
  lemma {:induction false} ChainsMeet(code: seq<Cell>, x: int, a: seq<nat>, y: int, b: seq<nat>, i: nat, j: nat)
    requires Chain(code, x, a) && Chain(code, y, b) && i < |a| && j < |b| && a[i] == b[j]
    ensures a[i..] == b[j..]
  {
    ChainFrom(code, x, a, i);
    ChainFrom(code, y, b, j);
    ChainUnique(code, a[i], a[i..], b[j..]);
  }

  /** Linking the last jump of one chain to another chain. */
  lemma {:induction false} ChainLinked(code: seq<Cell>, code': seq<Cell>, head: int, a: seq<nat>, other: int,
                                       b: seq<nat>)
    requires Chain(code, head, a) && a != [] && Chain(code, other, b) && NoDup(a) && other != NO_JUMP
    requires var last := a[|a| - 1];
      last < |code| && code' == code[last := Goto(other - (last + 1))] && last !in b
    ensures Chain(code', head, a + b)
    decreases |a|
  {
    var last := a[|a| - 1];
    if |a| == 1 {
      ChainFrame(code, code', other, b);
      assert (a + b)[1..] == b;
    } else {
      assert a[1..][|a| - 2] == last && a[0] != last;
      ChainLinked(code, code', GetJump(code, a[0]), a[1..], other, b);
      assert (a + b)[1..] == a[1..] + b;
    }
  }

  // ---- what the stored code stands for ----------------------------------------

  /** The instruction at `p`: a jump of `waiting` has no target yet. */
  function InstrAt(code: seq<Cell>, waiting: set<nat>, p: nat): Instr
    requires p < |code|
  {
    match code[p]
    case Op(i) => i
    case Goto(sbx) => if p in waiting || p + 1 + sbx < 0 then Jmp(None) else Jmp(Some(p + 1 + sbx))
  }

  function Instrs(code: seq<Cell>, waiting: set<nat>): (r: seq<Instr>)
    ensures |r| == |code|
  {
    seq(|code|, p requires 0 <= p < |code| => InstrAt(code, waiting, p))
  }

  predicate CellOk(code: seq<Cell>, waiting: set<nat>, p: nat)
    requires p < |code|
  {
    match code[p]
    case Op(i) => !i.Jmp? && p !in waiting
    case Goto(sbx) => p in waiting || p + 1 + sbx >= 0
  }

  /** Operations are no jumps; the waiting jumps are jumps, and all others have targets. */
  ghost predicate CellsOk(code: seq<Cell>, waiting: set<nat>) {
    (forall j :: j in waiting ==> j < |code|) && forall p :: 0 <= p < |code| ==> CellOk(code, waiting, p)
  }

  /** A chain of jumps that wait. */
  ghost predicate Listed(code: seq<Cell>, waiting: set<nat>, head: int, list: seq<nat>) {
    Chain(code, head, list) && forall j :: j in list ==> j in waiting
  }

  lemma ListedKept(code: seq<Cell>, waiting: set<nat>, code': seq<Cell>, waiting': set<nat>, head: int, list: seq<nat>)
    requires Listed(code, waiting, head, list) && CellsOk(code, waiting) && |code| <= |code'|
    requires forall j :: j in list && j in waiting ==> j in waiting' && (j < |code| ==> code'[j] == code[j])
    ensures Listed(code', waiting', head, list)
  {
    ChainFrame(code, code', head, list);
  }

  lemma ListedWaits(code: seq<Cell>, waiting: set<nat>, head: int, list: seq<nat>)
    requires Listed(code, waiting, head, list) && CellsOk(code, waiting)
    ensures Waiting(Instrs(code, waiting), list)
  {
    ChainAcyclic(code, head, list);
    ChainJumps(code, head, list);
  }

  /** Relinking a waiting jump */
  lemma CellsSet(code: seq<Cell>, waiting: set<nat>, p: nat, sbx: int)
    requires CellsOk(code, waiting) && p in waiting && p < |code|
    ensures var code' := code[p := Goto(sbx)];
      CellsOk(code', waiting) && Instrs(code', waiting) == Instrs(code, waiting)
  {
    var code' := code[p := Goto(sbx)];
    assert CellOk(code, waiting, p);
    forall q | 0 <= q < |code|
      ensures CellOk(code', waiting, q) && InstrAt(code', waiting, q) == InstrAt(code, waiting, q) {
      assert CellOk(code, waiting, q);
    }
  }

  /** Operations stay operations, and jumps jumps. */
  ghost predicate SameShape(code: seq<Cell>, code': seq<Cell>) {
    |code| <= |code'| && forall p :: 0 <= p < |code| ==> code'[p].Op? == code[p].Op?
  }

  class FuncState {
    var code: seq<Cell>
    var jpc: int              // list of pending jumps to `pc'
    var lasttarget: int
    var freereg: nat
    var nactvar: nat
    var k: seq<Value>
    ghost var waiting: set<nat>
    ghost var here: seq<nat>  // the jumps of jpc

    ghost function View(): G.FS
      reads this
    {
      G.FS(Instrs(code, waiting), here, lasttarget, freereg, nactvar, k)
    }

    ghost predicate Valid()
      reads this
    {
      CellsOk(code, waiting) && Listed(code, waiting, jpc, here)
    }

    constructor (params: nat)
      ensures Valid() && View() == G.FS([], [], -1, params, params, []) && waiting == {}
    {
      code, jpc, lasttarget, freereg, nactvar, k := [], NO_JUMP, -1, params, params, [];
      waiting, here := {}, [];
      new;
      assert Instrs([], {}) == [];
    }

    /** fixjump, for a link of a list or for a target */
    method FixJump(pc: nat, dest: nat)
      requires pc < |code| && code[pc].Goto?
      modifies this`code
      ensures code == old(code)[pc := Goto(dest - (pc + 1))]
    {
      code := code[pc := Goto(dest - (pc + 1))];
    }

    /** luaK_concat: the second list comes after the first, and the code stands for what it did. */
    method Concat(l1: int, l2: int, ghost a: seq<nat>, ghost b: seq<nat>) returns (l: int)
      requires CellsOk(code, waiting) && Listed(code, waiting, l1, a) && Listed(code, waiting, l2, b)
      requires forall j :: j in a ==> j !in b
      modifies this`code
      ensures CellsOk(code, waiting) && Listed(code, waiting, l, a + b)
      ensures |code| == old(|code|) && Instrs(code, waiting) == old(Instrs(code, waiting)) && SameShape(old(code), code)
      ensures forall p :: 0 <= p < |code| && p !in a ==> code[p] == old(code)[p]
    {
      ChainJumps(code, l1, a);
      if l2 == NO_JUMP {
        assert a + b == a;
        return l1;
      } else if l1 == NO_JUMP {
        assert a + b == b;
        return l2;
      }
      ghost var at := 0;
      var list: nat := l1;
      var next := GetJump(code, list);
      while next != NO_JUMP
        invariant at < |a| && list == a[at] && list in a && code == old(code)
        invariant next == GetJump(code, list)
        invariant Chain(code, next, a[at + 1..])
        decreases |a| - at
      {
        assert a[at + 1..][1..] == a[at + 2..];
        list := next;
        next := GetJump(code, list);
        at := at + 1;
        assert a[at] in a;
      }
      assert at == |a| - 1;
      ChainAcyclic(code, l1, a);
      FixJump(list, l2);
      ChainLinked(old(code), code, l1, a, l2, b);
      CellsSet(old(code), waiting, list, l2 - (list + 1));
      return l1;
    }
  
    /** getjumpcontrol */
    method GetJumpControl(pc: nat) returns (c: nat)
      requires pc < |code|
      ensures c == G.Control(Instrs(code, waiting), pc) && c <= pc
    {
      if pc >= 1 && code[pc - 1].Op? && IsTest(code[pc - 1].i) { return pc - 1; }
      return pc;
    }

    /** need_value: whether some jump of the list brings no value */
    method NeedValue(list: int, ghost q: seq<nat>) returns (need: bool)
      requires CellsOk(code, waiting) && Listed(code, waiting, list, q)
      ensures need == G.NeedValue(Instrs(code, waiting), q)
    {
      var l := list;
      ghost var at := 0;
      ChainJumps(code, list, q);
      while l != NO_JUMP
        invariant at <= |q| && Chain(code, l, q[at..])
        invariant forall a :: 0 <= a < at ==> G.IsTestSet(Instrs(code, waiting), q[a])
        decreases |q| - at
      {
        assert q[at] in q && l == q[at] && q[at..][1..] == q[at + 1..];
        var c := GetJumpControl(l);
        if !(code[c].Op? && code[c].i.TestSet?) { return true; }
        l := GetJump(code, l);
        at := at + 1;
      }
      return false;
    }

    /** patchtestreg */
    method PatchTestReg(node: nat, reg: nat) returns (patched: bool)
      requires CellsOk(code, waiting) && node in waiting
      modifies this`code
      ensures CellsOk(code, waiting) && patched == G.IsTestSet(old(Instrs(code, waiting)), node)
      ensures (patched ==> node >= 1)
      ensures Instrs(code, waiting) ==
        var was := old(Instrs(code, waiting));
        if patched then was[node - 1 := Retarget(was[node - 1], reg)] else was
      ensures |code| == old(|code|) && SameShape(old(code), code)
      ensures forall p :: p in waiting ==> code[p] == old(code)[p]
    {
      assert CellOk(code, waiting, node);
      var c := GetJumpControl(node);
      if !(code[c].Op? && code[c].i.TestSet?) { return false; }
      code := code[c := Op(Retarget(code[c].i, reg))];
      forall p | 0 <= p < |code|
        ensures CellOk(code, waiting, p) && (p != c ==> InstrAt(code, waiting, p) == InstrAt(old(code), waiting, p))
      {
        assert CellOk(old(code), waiting, p);
      }
      return true;
    }

    /** removevalues */
    method RemoveValues(list: int, ghost q: seq<nat>)
      requires CellsOk(code, waiting) && Listed(code, waiting, list, q)
      modifies this`code
      ensures CellsOk(code, waiting) && Instrs(code, waiting) == G.RemoveValues(old(Instrs(code, waiting)), q)
      ensures |code| == old(|code|) && SameShape(old(code), code)
      ensures forall p :: p in waiting ==> code[p] == old(code)[p]
    {
      var l := list;
      ghost var at := 0;
      ChainJumps(code, list, q);
      assert q[0..] == q;
      while l != NO_JUMP
        invariant at <= |q| && Chain(code, l, q[at..])
        invariant CellsOk(code, waiting) && |code| == old(|code|) && SameShape(old(code), code)
        invariant G.RemoveValues(Instrs(code, waiting), q[at..]) == G.RemoveValues(old(Instrs(code, waiting)), q)
        invariant forall p :: p in waiting ==> code[p] == old(code)[p]
        decreases |q| - at
      {
        assert q[at] in q && l == q[at] && q[at..][1..] == q[at + 1..];
        ghost var before := code;
        var _ := PatchTestReg(l, NO_REG);
        ListedKept(before, waiting, code, waiting, l, q[at..]);
        l := GetJump(code, l);
        at := at + 1;
      }
    }

    /** patchlistaux: the jumps of the list get their targets, and wait no longer. */
    method PatchListAux(list: int, vtarget: nat, reg: nat, dtarget: nat, ghost q: seq<nat>)
      requires CellsOk(code, waiting) && Listed(code, waiting, list, q)
      modifies this`code, this`waiting
      ensures CellsOk(code, waiting) && waiting == old(waiting) - Elems(q)
      ensures Instrs(code, waiting) == G.PatchListAux(old(Instrs(code, waiting)), q, vtarget, reg, dtarget)
      ensures |code| == old(|code|) && SameShape(old(code), code)
      ensures forall p :: p in waiting ==> code[p] == old(code)[p]
    {
      hide InstrAt, CellOk, G.PatchOne, Retarget, G.IsTestSet, Instrs;
      var l := list;
      ghost var rest: seq<nat> := q;
      ChainJumps(code, list, q);
      ChainAcyclic(code, list, q);
      while l != NO_JUMP
        invariant CellsOk(code, waiting) && |code| == old(|code|) && SameShape(old(code), code)
        invariant Listed(code, waiting, l, rest) && NoDup(rest)
        invariant waiting == old(waiting) - Elems(q) + Elems(rest) && Elems(rest) <= Elems(q) <= old(waiting)
        invariant G.PatchListAux(Instrs(code, waiting), rest, vtarget, reg, dtarget)
                  == G.PatchListAux(old(Instrs(code, waiting)), q, vtarget, reg, dtarget)
        invariant forall p :: p in waiting ==> code[p] == old(code)[p]
        decreases |rest|
      {
        assert rest == [l] + rest[1..];
        assert Elems(rest) == Elems(rest[1..]) + {l as nat} && l !in rest[1..];
        var next := GetJump(code, l);
        ghost var was, w := code, waiting;
        var patched := PatchTestReg(l, reg);
        ghost var mid := code;
        FixJump(l, if patched then vtarget else dtarget);
        waiting := waiting - {l as nat};
        PatchedOne(was, mid, code, w, l, vtarget, reg, dtarget, patched);
        ListedKept(was, w, code, waiting, next, rest[1..]);
        rest := rest[1..];
        l := next;
      }
    }

    /** dischargejpc */
    method DischargeJpc()
      requires Valid()
      modifies this`code, this`waiting, this`jpc, this`here
      ensures Valid() && View() == G.DischargeJpc(old(View())) && jpc == NO_JUMP
      ensures waiting == old(waiting) - Elems(old(here)) && SameShape(old(code), code)
      ensures forall p :: p in waiting ==> code[p] == old(code)[p]
    {
      PatchListAux(jpc, |code|, NO_REG, |code|, here);
      jpc, here := NO_JUMP, [];
    }

    /** luaK_code; a jump is coded with an empty list. */
    method Code(c: Cell) returns (pc: nat)
      requires Valid() && (c.Op? ==> !c.i.Jmp?) && (c.Goto? ==> c.sbx == NO_JUMP)
      modifies this`code, this`waiting, this`jpc, this`here
      ensures Valid() && pc == old(|code|) && View() == G.Code(old(View()), if c.Op? then c.i else Jmp(None))
      ensures waiting == old(waiting) - Elems(old(here)) + (if c.Goto? then {pc} else {})
      ensures |code| == pc + 1 && code[pc] == c && jpc == NO_JUMP && SameShape(old(code), code)
      ensures forall p :: p in waiting && p != pc ==> code[p] == old(code)[p]
    {
      DischargeJpc();
      pc := |code|;
      ghost var before, w := code, waiting;
      code := code + [c];
      if c.Goto? { waiting := waiting + {pc as nat}; }
      forall p | 0 <= p < |before|
        ensures CellOk(code, waiting, p) && InstrAt(code, waiting, p) == InstrAt(before, w, p) {
        assert CellOk(before, w, p);
      }
    }

    /** luaK_getlabel */
    method GetLabel() returns (pc: nat)
      modifies this`lasttarget
      ensures View() == G.GetLabel(old(View())) && pc == |code| && (old(Valid()) ==> Valid())
    {
      lasttarget := |code|;
      pc := |code|;
    }

    /** luaK_jump: the jumps that were pending to here join the list of the new jump. */
    method Jump() returns (j: int, ghost list: seq<nat>)
      requires Valid()
      modifies this`code, this`waiting, this`jpc, this`here
      ensures Valid() && (View(), list) == G.Jump(old(View())) && Listed(code, waiting, j, list)
      ensures waiting == old(waiting) + {old(|code|)} && SameShape(old(code), code)
      ensures forall p :: p in old(waiting) ==> code[p] == old(code)[p]
    {
      ghost var w, before, pending: seq<nat> := waiting, code, here;
      var hold := jpc;
      jpc, here := NO_JUMP, [];
      var pc := Code(Goto(NO_JUMP));
      ChainJumps(before, hold, pending);
      ListedKept(before, w, code, waiting, hold, pending);
      j := Concat(pc, hold, [pc], pending);
      list := [pc] + pending;
    }

    /** condjump */
    method CondJump(test: Instr) returns (j: int, ghost list: seq<nat>)
      requires Valid() && !test.Jmp?
      modifies this`code, this`waiting, this`jpc, this`here
      ensures Valid() && (View(), list) == G.CondJump(old(View()), test) && Listed(code, waiting, j, list)
      ensures waiting == old(waiting) - Elems(old(here)) + {old(|code|) + 1} && SameShape(old(code), code)
      ensures forall p :: p in old(waiting) && p in waiting ==> code[p] == old(code)[p]
    {
      var _ := Code(Op(test));
      j, list := Jump();
    }

    /** luaK_patchtohere */
    method PatchToHere(list: int, ghost q: seq<nat>)
      requires Valid() && Listed(code, waiting, list, q) && forall j :: j in q ==> j !in here
      modifies this`code, this`jpc, this`here, this`lasttarget
      ensures Valid() && View() == G.PatchToHere(old(View()), q)
      ensures |code| == old(|code|) && SameShape(old(code), code)
      ensures forall p :: 0 <= p < |code| && p !in old(here) ==> code[p] == old(code)[p]
    {
      var _ := GetLabel();
      jpc := Concat(jpc, list, here, q);
      here := here + q;
    }

    /** invertjump, on the jump of a pending comparison */
    method InvertJump(pc: nat)
      requires Valid() && pc in waiting
      modifies this`code
      ensures Valid() && View() == G.InvertJump(old(View()), pc)
      ensures |code| == old(|code|) && SameShape(old(code), code)
      ensures forall p :: p in waiting ==> code[p] == old(code)[p]
    {
      assert CellOk(code, waiting, pc);
      var c := GetJumpControl(pc);
      if code[c].Op? && IsComp(code[c].i) {
        code := code[c := Op(G.Inverted(code[c].i))];
        forall p | 0 <= p < |code|
          ensures CellOk(code, waiting, p) && (p != c ==> InstrAt(code, waiting, p) == InstrAt(old(code), waiting, p))
        {
          assert CellOk(old(code), waiting, p);
        }
        ChainJumps(old(code), jpc, here);
        ListedKept(old(code), waiting, code, waiting, jpc, here);
      }
    }
  }

  /** What patchtestreg makes of a TESTSET */
  function Retarget(i: Instr, reg: nat): Instr {
    if !i.TestSet? then i
    else if reg != NO_REG && reg != i.b then TestSet(reg, i.b, i.c)
    else Test(i.b, i.c)
  }

  /** One round of patchlistaux */
  lemma PatchedOne(was: seq<Cell>, mid: seq<Cell>, done: seq<Cell>, w: set<nat>, j: nat,
                   vt: nat, reg: nat, dt: nat, patched: bool)
    requires CellsOk(was, w) && CellsOk(mid, w) && j in w && |mid| == |was|
    requires patched == G.IsTestSet(Instrs(was, w), j) && (patched ==> j >= 1)
    requires Instrs(mid, w) ==
      if patched then Instrs(was, w)[j - 1 := Retarget(Instrs(was, w)[j - 1], reg)] else Instrs(was, w)
    requires done == mid[j := Goto((if patched then vt else dt) - (j + 1))]
    ensures CellsOk(done, w - {j})
    ensures Instrs(done, w - {j}) == G.PatchOne(Instrs(was, w), j, vt, reg, dt)
  {
    assert CellOk(was, w, j) && CellOk(mid, w, j);
    forall p | 0 <= p < |done|
      ensures CellOk(done, w - {j}, p) && (p != j ==> InstrAt(done, w - {j}, p) == InstrAt(mid, w, p))
    {
      assert CellOk(mid, w, p);
    }
    var instrs, one := Instrs(was, w), G.PatchOne(Instrs(was, w), j, vt, reg, dt);
    assert G.IsTestSet(instrs, j) ==> G.Control(instrs, j) == j - 1;
    forall p | 0 <= p < |done| ensures InstrAt(done, w - {j}, p) == one[p] {
      assert InstrAt(mid, w, p) == Instrs(mid, w)[p];
    }
  }
}
