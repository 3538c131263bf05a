/**
 Precompiled chunks (ldump.c, lundump.c): function prototypes, the bytes they are saved as, and
 how these are read back.
 */
module Chunk {
  import opened Basics

  /** A constant; a number is kept as the bytes of its representation. */
  datatype Const = CNil | CBool(b: bool) | CNumber(image: bytes) | CString(s: bytes)

  datatype LocVar = LocVar(varname: Option<bytes>, startpc: int, endpc: int)

  datatype Proto = Proto(
    source: Option<bytes>,
    linedefined: int, lastlinedefined: int,
    nups: byte, numparams: byte, isVararg: byte, maxstacksize: byte,
    code: seq<nat>,
    k: seq<Const>,
    p: seq<Proto>,
    lineinfo: seq<int>,
    locvars: seq<LocVar>,
    upvalues: seq<Option<bytes>>)

  const SIZE_INT: nat := 4
  const SIZE_SIZE_T: nat := 8
  const SIZE_INSTRUCTION: nat := 4
  const SIZE_NUMBER: nat := 8

  const LUA_TNIL: byte := 0
  const LUA_TBOOLEAN: byte := 1
  const LUA_TNUMBER: byte := 3
  const LUA_TSTRING: byte := 4

  /** luaU_header: signature, version, format, endianness, the sizes of the types, and whether numbers are integral */
  const HEADER: bytes := [27, 'L' as int, 'u' as int, 'a' as int, 0x51, 0, 1, SIZE_INT, SIZE_SIZE_T, SIZE_INSTRUCTION,
      SIZE_NUMBER, 0]

  function Pow256(k: nat): (p: nat)
    ensures p > 0
  {
    if k == 0 then 1 else 256 * Pow256(k - 1)
  }

  // ---- fixed-size integers, least significant byte first ------------------------------

  function Enc(n: nat, k: nat): (r: bytes)
    ensures |r| == k
    decreases k
  {
    if k == 0 then [] else [n % 256] + Enc(n / 256, k - 1)
  }

  function Dec(s: bytes): nat
    decreases |s|
  {
    if s == [] then 0 else s[0] + 256 * Dec(s[1..])
  }

  lemma {:induction false} DecEnc(n: nat, k: nat)
    requires n < Pow256(k)
    ensures Dec(Enc(n, k)) == n
    decreases k
  {
    if k > 0 { DecEnc(n / 256, k - 1); }
  }

  /** The image of an int and of an instruction: four bytes, the least significant one first */
  lemma FourBytes(n: nat)
    ensures Enc(n, 4) == [n % 256, n / 0x100 % 256, n / 0x1_0000 % 256, n / 0x100_0000 % 256]
  {
    hide Enc;
    EncStep(n, 4);
    EncStep(n / 0x100, 3);
    EncStep(n / 0x1_0000, 2);
    EncStep(n / 0x100_0000, 1);
    assert n / 0x100 / 0x100 == n / 0x1_0000 && n / 0x1_0000 / 0x100 == n / 0x100_0000;
    assert Enc(n / 0x100_0000 / 0x100, 0) == [];
  }

  lemma EncStep(n: nat, k: nat)
    requires k > 0
    ensures Enc(n, k) == [n % 0x100] + Enc(n / 0x100, k - 1)
  {
  }

  lemma {:induction false} DecBound(s: bytes)
    ensures Dec(s) < Pow256(|s|)
    decreases |s|
  {
    if s != [] { DecBound(s[1..]); }
  }

  /** The images of an int: two's complement */
  const INT_RANGE: nat := Pow256(SIZE_INT)

  predicate IsInt(x: int) { -(INT_RANGE / 2) <= x < INT_RANGE / 2 }

  function EncInt(x: int): (r: bytes)
    requires IsInt(x)
    ensures |r| == SIZE_INT
  {
    Enc(if x < 0 then x + INT_RANGE else x, SIZE_INT)
  }

  function DecInt(s: bytes): int {
    var n := Dec(s);
    if n >= INT_RANGE / 2 then n - INT_RANGE else n
  }

  lemma DecEncInt(x: int)
    requires IsInt(x)
    ensures DecInt(EncInt(x)) == x
  {
    DecEnc(if x < 0 then x + INT_RANGE else x, SIZE_INT);
  }

  // ---- what can be dumped ---------------------------------------------------------------

  predicate StringOk(s: Option<bytes>) { s.Some? ==> |s.value| + 1 < Pow256(SIZE_SIZE_T) }

  predicate ConstOk(c: Const) {
    match c
    case CNumber(image) => |image| == SIZE_NUMBER
    case CString(s) => StringOk(Some(s))
    case _ => true
  }

  /** A C int that is not negative, as LoadInt wants it */
  predicate IsNat(x: int) { 0 <= x < INT_RANGE / 2 }

  predicate LocVarOk(v: LocVar) { StringOk(v.varname) && IsNat(v.startpc) && IsNat(v.endpc) }

  /** The values fit their types, and every function has a source. */
  predicate ProtoOk(f: Proto)
    decreases f
  {
    && f.source.Some? && StringOk(f.source) && IsNat(f.linedefined) && IsNat(f.lastlinedefined)
    && IsNat(|f.code|) && (forall i :: 0 <= i < |f.code| ==> f.code[i] < Pow256(SIZE_INSTRUCTION))
    && IsNat(|f.k|) && (forall i :: 0 <= i < |f.k| ==> ConstOk(f.k[i]))
    && IsNat(|f.p|) && (forall i :: 0 <= i < |f.p| ==> ProtoOk(f.p[i]))
    && IsNat(|f.lineinfo|) && (forall i :: 0 <= i < |f.lineinfo| ==> IsInt(f.lineinfo[i]))
    && IsNat(|f.locvars|) && (forall i :: 0 <= i < |f.locvars| ==> LocVarOk(f.locvars[i]))
    && IsNat(|f.upvalues|) && (forall i :: 0 <= i < |f.upvalues| ==> StringOk(f.upvalues[i]))
  }

  // ---- dumping ----------------------------------------------------------------------------

  /** DumpString: the size counts the ending zero; size 0 stands for NULL. */
  function DumpString(s: Option<bytes>): bytes
    requires StringOk(s)
  {
    if s.None? then Enc(0, SIZE_SIZE_T) else Enc(|s.value| + 1, SIZE_SIZE_T) + (s.value + [0])
  }

  function DumpConst(c: Const): bytes
    requires ConstOk(c)
  {
    match c
    case CNil => [LUA_TNIL]
    case CBool(b) => [LUA_TBOOLEAN] + [if b then 1 else 0]
    case CNumber(image) => [LUA_TNUMBER] + image
    case CString(s) => [LUA_TSTRING] + DumpString(Some(s))
  }

  function DumpLocVar(v: LocVar): bytes
    requires LocVarOk(v)
  {
    DumpString(v.varname) + EncInt(v.startpc) + EncInt(v.endpc)
  }

  function DumpCodes(q: seq<nat>): bytes
    decreases |q|
  {
    if q == [] then [] else Enc(q[0], SIZE_INSTRUCTION) + DumpCodes(q[1..])
  }

  function DumpConsts(q: seq<Const>): bytes
    requires forall i :: 0 <= i < |q| ==> ConstOk(q[i])
    decreases |q|
  {
    if q == [] then [] else DumpConst(q[0]) + DumpConsts(q[1..])
  }

  function DumpInts(q: seq<int>): bytes
    requires forall i :: 0 <= i < |q| ==> IsInt(q[i])
    decreases |q|
  {
    if q == [] then [] else EncInt(q[0]) + DumpInts(q[1..])
  }

  function DumpLocVars(q: seq<LocVar>): bytes
    requires forall i :: 0 <= i < |q| ==> LocVarOk(q[i])
    decreases |q|
  {
    if q == [] then [] else DumpLocVar(q[0]) + DumpLocVars(q[1..])
  }

  function DumpStrings(q: seq<Option<bytes>>): bytes
    requires forall i :: 0 <= i < |q| ==> StringOk(q[i])
    decreases |q|
  {
    if q == [] then [] else DumpString(q[0]) + DumpStrings(q[1..])
  }

  /** DumpFunction; `p' is the source of the enclosing function. */
  function DumpFunction(f: Proto, p: Option<bytes>, strip: bool): bytes
    requires ProtoOk(f)
    decreases f, 1
  {
    DumpString(if f.source == p || strip then None else f.source)
    + EncInt(f.linedefined) + EncInt(f.lastlinedefined)
    + [f.nups, f.numparams, f.isVararg, f.maxstacksize]
    + (EncInt(|f.code|) + DumpCodes(f.code))
    + (EncInt(|f.k|) + DumpConsts(f.k))
    + (EncInt(|f.p|) + DumpProtos(f, 0, strip))
    + DumpDebug(f, strip)
  }

  /** The functions inside `f', from the `i'th on */
  function DumpProtos(f: Proto, i: nat, strip: bool): bytes
    requires ProtoOk(f) && i <= |f.p|
    decreases f, 0, |f.p| - i
  {
    if i == |f.p| then [] else DumpFunction(f.p[i], f.source, strip) + DumpProtos(f, i + 1, strip)
  }

  function DumpDebug(f: Proto, strip: bool): bytes
    requires ProtoOk(f)
  {
    if strip then EncInt(0) + EncInt(0) + EncInt(0)
    else
      (EncInt(|f.lineinfo|) + DumpInts(f.lineinfo))
      + (EncInt(|f.locvars|) + DumpLocVars(f.locvars))
      + (EncInt(|f.upvalues|) + DumpStrings(f.upvalues))
  }

  /** luaU_dump */
  function Dump(f: Proto, strip: bool): bytes
    requires ProtoOk(f)
  {
    HEADER + DumpFunction(f, None, strip)
  }
}
