/** Loading chunks (lundump.c), as functions of the bytes still to come, and the round trip. */
module ChunkLoad {
  import opened Basics
  import opened Chunk

  /** A value and the bytes behind it; anything else raises an error. */
  datatype R<T> = Ok(v: T, rest: bytes) | Bad

  /** LoadBlock */
  function LoadBlock(s: bytes, n: nat): R<bytes> {
    if n <= |s| then Ok(s[..n], s[n..]) else Bad
  }

  function LoadChar(s: bytes): (r: R<byte>)
    ensures r.Ok? ==> |r.rest| < |s|
  {
    if s == [] then Bad else Ok(s[0], s[1..])
  }

  /** LoadInt: a negative integer is an error. */
  function LoadInt(s: bytes): (r: R<nat>)
    ensures r.Ok? ==> |r.rest| < |s|
  {
    match LoadBlock(s, SIZE_INT)
    case Bad => Bad
    case Ok(b, rest) => if DecInt(b) < 0 then Bad else Ok(DecInt(b), rest)
  }

  function LoadSize(s: bytes): (r: R<nat>)
    ensures r.Ok? ==> |r.rest| < |s|
  {
    match LoadBlock(s, SIZE_SIZE_T)
    case Bad => Bad
    case Ok(b, rest) => Ok(Dec(b), rest)
  }

  /** LoadString: the ending zero is dropped. */
  function LoadString(s: bytes): (r: R<Option<bytes>>)
    ensures r.Ok? ==> |r.rest| < |s|
  {
    match LoadSize(s)
    case Bad => Bad
    case Ok(n, rest) =>
      if n == 0 then Ok(None, rest)
      else
        match LoadBlock(rest, n) {
          case Bad => Bad
          case Ok(b, rest2) => Ok(Some(b[..n - 1]), rest2)
        }
  }

  /** The instructions in a block of memory */
  function Words(b: bytes, n: nat): seq<nat>
    requires |b| == SIZE_INSTRUCTION * n
  {
    if n == 0 then [] else [Dec(b[..SIZE_INSTRUCTION])] + Words(b[SIZE_INSTRUCTION..], n - 1)
  }

  function Ints(b: bytes, n: nat): seq<int>
    requires |b| == SIZE_INT * n
  {
    if n == 0 then [] else [DecInt(b[..SIZE_INT])] + Ints(b[SIZE_INT..], n - 1)
  }

  function LoadCodes(s: bytes, n: nat): (r: R<seq<nat>>)
    ensures r.Ok? ==> |r.rest| <= |s|
  {
    match LoadBlock(s, SIZE_INSTRUCTION * n)
    case Bad => Bad
    case Ok(b, rest) => Ok(Words(b, n), rest)
  }

  /** A string constant without a string would be stored as it is; only a damaged chunk has one. */
  function LoadConst(s: bytes): (r: R<Const>)
    ensures r.Ok? ==> |r.rest| <= |s|
  {
    match LoadChar(s)
    case Bad => Bad
    case Ok(t, rest) =>
      if t == LUA_TNIL then Ok(CNil, rest)
      else if t == LUA_TBOOLEAN then
        match LoadChar(rest) {
          case Bad => Bad
          case Ok(b, rest2) => Ok(CBool(b != 0), rest2)
        }
      else if t == LUA_TNUMBER then
        match LoadBlock(rest, SIZE_NUMBER) {
          case Bad => Bad
          case Ok(b, rest2) => Ok(CNumber(b), rest2)
        }
      else if t == LUA_TSTRING then
        match LoadString(rest) {
          case Bad => Bad
          case Ok(x, rest2) => if x.Some? then Ok(CString(x.value), rest2) else Bad
        }
      else Bad
  }

  function LoadConsts(s: bytes, n: nat): (r: R<seq<Const>>)
    ensures r.Ok? ==> |r.rest| <= |s|
    decreases n
  {
    if n == 0 then Ok([], s)
    else
      match LoadConst(s) {
        case Bad => Bad
        case Ok(c, rest) =>
          match LoadConsts(rest, n - 1) {
            case Bad => Bad
            case Ok(q, rest2) => Ok([c] + q, rest2)
          }
      }
  }

  /** A vector of ints is copied as it is. */
  function LoadInts(s: bytes, n: nat): (r: R<seq<int>>)
    ensures r.Ok? ==> |r.rest| <= |s|
  {
    match LoadBlock(s, SIZE_INT * n)
    case Bad => Bad
    case Ok(b, rest) => Ok(Ints(b, n), rest)
  }

  function LoadLocVar(s: bytes): (r: R<LocVar>)
    ensures r.Ok? ==> |r.rest| <= |s|
  {
    match LoadString(s)
    case Bad => Bad
    case Ok(name, rest) =>
      match LoadInt(rest)
      case Bad => Bad
      case Ok(startpc, rest2) =>
        match LoadInt(rest2)
        case Bad => Bad
        case Ok(endpc, rest3) => Ok(LocVar(name, startpc, endpc), rest3)
  }

  function LoadLocVars(s: bytes, n: nat): (r: R<seq<LocVar>>)
    ensures r.Ok? ==> |r.rest| <= |s|
    decreases n
  {
    if n == 0 then Ok([], s)
    else
      match LoadLocVar(s) {
        case Bad => Bad
        case Ok(v, rest) =>
          match LoadLocVars(rest, n - 1) {
            case Bad => Bad
            case Ok(q, rest2) => Ok([v] + q, rest2)
          }
      }
  }

  function LoadStrings(s: bytes, n: nat): (r: R<seq<Option<bytes>>>)
    ensures r.Ok? ==> |r.rest| <= |s|
    decreases n
  {
    if n == 0 then Ok([], s)
    else
      match LoadString(s) {
        case Bad => Bad
        case Ok(v, rest) =>
          match LoadStrings(rest, n - 1) {
            case Bad => Bad
            case Ok(q, rest2) => Ok([v] + q, rest2)
          }
      }
  }

  /** What LoadFunction reads before the functions inside */
  function LoadHead(s: bytes, p: Option<bytes>): (r: R<Proto>)
    ensures r.Ok? ==> |r.rest| < |s|
  {
    match LoadString(s)
    case Bad => Bad
    case Ok(source, r1) =>
      match LoadInt(r1)
      case Bad => Bad
      case Ok(linedefined, r2) =>
        match LoadInt(r2)
        case Bad => Bad
        case Ok(lastlinedefined, r3) =>
          match LoadBlock(r3, 4)
          case Bad => Bad
          case Ok(b, r4) =>
            match LoadInt(r4)
            case Bad => Bad
            case Ok(n, r5) =>
              match LoadCodes(r5, n)
              case Bad => Bad
              case Ok(code, r6) =>
                match LoadInt(r6)
                case Bad => Bad
                case Ok(nk, r7) =>
                  match LoadConsts(r7, nk)
                  case Bad => Bad
                  case Ok(k, r8) =>
                    Ok(Proto(if source.None? then p else source, linedefined, lastlinedefined, b[0], b[1], b[2], b[3],
                             code, k, [], [], [], []), r8)
  }

  /** LoadDebug */
  function LoadDebug(s: bytes, f: Proto): (r: R<Proto>)
    ensures r.Ok? ==> |r.rest| <= |s|
  {
    match LoadInt(s)
    case Bad => Bad
    case Ok(n, r1) =>
      match LoadInts(r1, n)
      case Bad => Bad
      case Ok(lineinfo, r2) =>
        match LoadInt(r2)
        case Bad => Bad
        case Ok(m, r3) =>
          match LoadLocVars(r3, m)
          case Bad => Bad
          case Ok(locvars, r4) =>
            match LoadInt(r4)
            case Bad => Bad
            case Ok(u, r5) =>
              match LoadStrings(r5, u)
              case Bad => Bad
              case Ok(upvalues, r6) => Ok(f.(lineinfo := lineinfo, locvars := locvars, upvalues := upvalues), r6)
  }

  /** LoadFunction; `check' is luaG_checkcode. */
  function LoadFunction(s: bytes, p: Option<bytes>, check: Proto -> bool): (r: R<Proto>)
    ensures r.Ok? ==> |r.rest| < |s|
    decreases |s|, 0
  {
    match LoadHead(s, p)
    case Bad => Bad
    case Ok(f, r1) =>
      match LoadInt(r1)
      case Bad => Bad
      case Ok(n, r2) =>
        match LoadProtos(r2, n, f.source, check)
        case Bad => Bad
        case Ok(ps, r3) =>
          match LoadDebug(r3, f.(p := ps))
          case Bad => Bad
          case Ok(g, r4) => if check(g) then Ok(g, r4) else Bad
  }

  function LoadProtos(s: bytes, n: nat, source: Option<bytes>, check: Proto -> bool): (r: R<seq<Proto>>)
    ensures r.Ok? ==> |r.rest| <= |s|
    decreases |s|, n
  {
    if n == 0 then Ok([], s)
    else
      match LoadFunction(s, source, check) {
        case Bad => Bad
        case Ok(f, rest) =>
          match LoadProtos(rest, n - 1, source, check) {
            case Bad => Bad
            case Ok(q, rest2) => Ok([f] + q, rest2)
          }
      }
  }

  /** "=?", the source of a main function that was saved without one */
  const UNKNOWN: Option<bytes> := Some(['=' as int, '?' as int])

  /** luaU_undump */
  function Undump(s: bytes, check: Proto -> bool): R<Proto> {
    match LoadBlock(s, |HEADER|)
    case Bad => Bad
    case Ok(h, rest) => if h != HEADER then Bad else LoadFunction(rest, UNKNOWN, check)
  }

  // ---- the round trip -----------------------------------------------------------------

  lemma TakeBack(a: bytes, t: bytes)
    ensures LoadBlock(a + t, |a|) == Ok(a, t)
  {
  }

  lemma IntBack(x: int, t: bytes)
    requires IsNat(x)
    ensures LoadInt(EncInt(x) + t) == Ok(x, t)
  {
    TakeBack(EncInt(x), t);
    DecEncInt(x);
  }

  lemma StringBack(s: Option<bytes>, t: bytes)
    requires StringOk(s)
    ensures LoadString(DumpString(s) + t) == Ok(s, t)
  {
    var n := if s.None? then 0 else |s.value| + 1;
    var e := Enc(n, SIZE_SIZE_T);
    DecEnc(n, SIZE_SIZE_T);
    if s.None? {
      TakeBack(e, t);
    } else {
      assert e + (s.value + [0]) + t == e + (s.value + [0] + t);
      TakeBack(e, s.value + [0] + t);
      TakeBack(s.value + [0], t);
      assert (s.value + [0])[..n - 1] == s.value;
    }
  }

  lemma CodesBack(q: seq<nat>, t: bytes)
    requires forall i :: 0 <= i < |q| ==> q[i] < Pow256(SIZE_INSTRUCTION)
    ensures LoadCodes(DumpCodes(q) + t, |q|) == Ok(q, t)
  {
    WordsBack(q);
    TakeBack(DumpCodes(q), t);
  }

  lemma {:induction false} WordsBack(q: seq<nat>)
    requires forall i :: 0 <= i < |q| ==> q[i] < Pow256(SIZE_INSTRUCTION)
    ensures |DumpCodes(q)| == SIZE_INSTRUCTION * |q| && Words(DumpCodes(q), |q|) == q
    decreases |q|
  {
    if q != [] {
      var e, r := Enc(q[0], SIZE_INSTRUCTION), DumpCodes(q[1..]);
      assert (e + r)[..SIZE_INSTRUCTION] == e && (e + r)[SIZE_INSTRUCTION..] == r;
      DecEnc(q[0], SIZE_INSTRUCTION);
      WordsBack(q[1..]);
      assert [q[0]] + q[1..] == q;
    }
  }

  lemma ConstBack(c: Const, t: bytes)
    requires ConstOk(c)
    ensures LoadConst(DumpConst(c) + t) == Ok(c, t)
  {
    hide Enc, Dec, DumpString, LoadString, Pow256, StringOk;
    match c
    case CNil => assert (DumpConst(c) + t)[1..] == t;
    case CBool(b) => 
      assert (DumpConst(c) + t)[1..] == [if b then 1 else 0] + t;
      assert ([if b then 1 else 0] + t)[1..] == t;
    case CNumber(image) =>
      assert (DumpConst(c) + t)[1..] == image + t;
      TakeBack(image, t);
    case CString(s) =>
      assert (DumpConst(c) + t)[1..] == DumpString(Some(s)) + t;
      StringBack(Some(s), t);
  }

  lemma {:induction false} ConstsBack(q: seq<Const>, t: bytes)
    requires forall i :: 0 <= i < |q| ==> ConstOk(q[i])
    ensures LoadConsts(DumpConsts(q) + t, |q|) == Ok(q, t)
    decreases |q|
  {
    if q == [] {
      assert [] + t == t;
    } else {
      var e, r := DumpConst(q[0]), DumpConsts(q[1..]);
      assert e + r + t == e + (r + t);
      ConstBack(q[0], r + t);
      ConstsBack(q[1..], t);
      assert [q[0]] + q[1..] == q;
    }
  }

  lemma IntsBack(q: seq<int>, t: bytes)
    requires forall i :: 0 <= i < |q| ==> IsInt(q[i])
    ensures LoadInts(DumpInts(q) + t, |q|) == Ok(q, t)
  {
    IntVectorBack(q);
    TakeBack(DumpInts(q), t);
  }

  lemma {:induction false} IntVectorBack(q: seq<int>)
    requires forall i :: 0 <= i < |q| ==> IsInt(q[i])
    ensures |DumpInts(q)| == SIZE_INT * |q| && Ints(DumpInts(q), |q|) == q
    decreases |q|
  {
    if q != [] {
      var e, r := EncInt(q[0]), DumpInts(q[1..]);
      assert (e + r)[..SIZE_INT] == e && (e + r)[SIZE_INT..] == r;
      DecEncInt(q[0]);
      IntVectorBack(q[1..]);
      assert [q[0]] + q[1..] == q;
    }
  }

  lemma LocVarBack(v: LocVar, t: bytes)
    requires LocVarOk(v)
    ensures LoadLocVar(DumpLocVar(v) + t) == Ok(v, t)
  {
    hide DumpString, LoadString, EncInt, LoadInt;
    var a, b, c := DumpString(v.varname), EncInt(v.startpc), EncInt(v.endpc);
    assert a + b + c + t == a + (b + (c + t));
    StringBack(v.varname, b + (c + t));
    IntBack(v.startpc, c + t);
    IntBack(v.endpc, t);
  }

  lemma {:induction false} LocVarsBack(q: seq<LocVar>, t: bytes)
    requires forall i :: 0 <= i < |q| ==> LocVarOk(q[i])
    ensures LoadLocVars(DumpLocVars(q) + t, |q|) == Ok(q, t)
    decreases |q|
  {
    hide DumpLocVar, LoadLocVar;
    if q == [] {
      assert [] + t == t;
    } else {
      var e, r := DumpLocVar(q[0]), DumpLocVars(q[1..]);
      assert e + r + t == e + (r + t);
      LocVarBack(q[0], r + t);
      LocVarsBack(q[1..], t);
      assert [q[0]] + q[1..] == q;
    }
  }

  lemma {:induction false} StringsBack(q: seq<Option<bytes>>, t: bytes)
    requires forall i :: 0 <= i < |q| ==> StringOk(q[i])
    ensures LoadStrings(DumpStrings(q) + t, |q|) == Ok(q, t)
    decreases |q|
  {
    if q == [] {
      assert [] + t == t;
    } else {
      var e, r := DumpString(q[0]), DumpStrings(q[1..]);
      assert e + r + t == e + (r + t);
      StringBack(q[0], r + t);
      StringsBack(q[1..], t);
      assert [q[0]] + q[1..] == q;
    }
  }

  /** What comes back: the function itself, or, stripped, all of it but debug data, with one source for all. */
  function Loaded(f: Proto, p: Option<bytes>, strip: bool): Proto
    decreases f, 1
  {
    if strip then
      f.(source := p, p := LoadedAll(f, 0, p, strip), lineinfo := [], locvars := [], upvalues := [])
    else f
  }

  function LoadedAll(f: Proto, i: nat, p: Option<bytes>, strip: bool): (r: seq<Proto>)
    requires i <= |f.p|
    ensures |r| == |f.p| - i
    decreases f, 0, |f.p| - i
  {
    if i == |f.p| then [] else [Loaded(f.p[i], p, strip)] + LoadedAll(f, i + 1, p, strip)
  }

  /** The code check accepts the function and all inside. */
  predicate Checked(f: Proto, check: Proto -> bool)
    decreases f
  {
    check(f) && forall i :: 0 <= i < |f.p| ==> Checked(f.p[i], check)
  }

  /** The source of the enclosing function, when the reader has to supply it, is the one the writer had. */
  predicate SourceKnown(p: Option<bytes>, p': Option<bytes>, strip: bool) { strip || p.None? || p' == p }

  lemma HeadBack(f: Proto, p: Option<bytes>, p': Option<bytes>, strip: bool, t: bytes)
    requires ProtoOk(f) && SourceKnown(p, p', strip)
    ensures var s := DumpString(if f.source == p || strip then None else f.source)
        + EncInt(f.linedefined) + EncInt(f.lastlinedefined)
        + [f.nups, f.numparams, f.isVararg, f.maxstacksize]
        + (EncInt(|f.code|) + DumpCodes(f.code))
        + (EncInt(|f.k|) + DumpConsts(f.k));
      LoadHead(s + t, p')
        == Ok(f.(source := if strip then p' else f.source, p := [], lineinfo := [], locvars := [], upvalues := []), t)
  {
    hide DumpString, LoadString, EncInt, LoadInt, DumpCodes, LoadCodes, DumpConsts, LoadConsts, LoadBlock;
    var src := if f.source == p || strip then None else f.source;
    var a, b, c := DumpString(src), EncInt(f.linedefined), EncInt(f.lastlinedefined);
    var d, e, g := [f.nups, f.numparams, f.isVararg, f.maxstacksize], EncInt(|f.code|), DumpCodes(f.code);
    var h, i := EncInt(|f.k|), DumpConsts(f.k);
    var t8 := i + t;
    var t7 := h + t8;
    var t6 := g + t7;
    var t5 := e + t6;
    var t4 := d + t5;
    var t3 := c + t4;
    var t2 := b + t3;
    assert a + b + c + d + (e + g) + (h + i) + t == a + t2;
    StringBack(src, t2);
    IntBack(f.linedefined, t3);
    IntBack(f.lastlinedefined, t4);
    TakeBack(d, t5);
    IntBack(|f.code|, t6);
    CodesBack(f.code, t7);
    IntBack(|f.k|, t8);
    ConstsBack(f.k, t);
  }

  lemma NoneBack(t: bytes)
    ensures LoadInts(t, 0) == Ok([], t) && LoadLocVars(t, 0) == Ok([], t) && LoadStrings(t, 0) == Ok([], t)
  {
  }

  lemma DebugBack(f: Proto, g: Proto, strip: bool, t: bytes)
    requires ProtoOk(f)
    ensures LoadDebug(DumpDebug(f, strip) + t, g)
      == Ok(g.(lineinfo := if strip then [] else f.lineinfo, locvars := if strip then [] else f.locvars,
               upvalues := if strip then [] else f.upvalues), t)
  {
    hide DumpStrings, LoadStrings, EncInt, LoadInt, DumpInts, LoadInts, DumpLocVars, LoadLocVars;
    if strip {
      var z := EncInt(0);
      NoneBack(t);
      NoneBack(z + t);
      NoneBack(z + (z + t));
      assert z + z + z + t == z + (z + (z + t));
      IntBack(0, z + (z + t));
      IntBack(0, z + t);
      IntBack(0, t);
    } else {
      var a, b, c := EncInt(|f.lineinfo|), DumpInts(f.lineinfo), EncInt(|f.locvars|);
      var d, e, h := DumpLocVars(f.locvars), EncInt(|f.upvalues|), DumpStrings(f.upvalues);
      var t5 := h + t;
      var t4 := e + t5;
      var t3 := d + t4;
      var t2 := c + t3;
      var t1 := b + t2;
      assert (a + b) + (c + d) + (e + h) + t == a + t1;
      IntBack(|f.lineinfo|, t1);
      IntsBack(f.lineinfo, t2);
      IntBack(|f.locvars|, t3);
      LocVarsBack(f.locvars, t4);
      IntBack(|f.upvalues|, t5);
      StringsBack(f.upvalues, t);
    }
  }

  lemma {:induction false} FunctionBack(f: Proto, p: Option<bytes>, p': Option<bytes>, strip: bool,
                                        check: Proto -> bool, t: bytes)
    requires ProtoOk(f) && SourceKnown(p, p', strip) && Checked(Loaded(f, p', strip), check)
    ensures LoadFunction(DumpFunction(f, p, strip) + t, p', check) == Ok(Loaded(f, p', strip), t)
    decreases f, 1
  {
    hide DumpString, EncInt, DumpCodes, DumpConsts, DumpDebug, LoadHead, LoadInt, LoadDebug, DumpProtos, LoadProtos,
         LoadedAll, Checked;
    var d := DumpDebug(f, strip) + t;
    var ps := DumpProtos(f, 0, strip) + d;
    var n := EncInt(|f.p|) + ps;
    var head := DumpString(if f.source == p || strip then None else f.source)
        + EncInt(f.linedefined) + EncInt(f.lastlinedefined)
        + [f.nups, f.numparams, f.isVararg, f.maxstacksize]
        + (EncInt(|f.code|) + DumpCodes(f.code))
        + (EncInt(|f.k|) + DumpConsts(f.k));
    assert DumpFunction(f, p, strip) + t == head + n;
    HeadBack(f, p, p', strip, n);
    IntBack(|f.p|, ps);
    var src := if strip then p' else f.source;
    InnerChecked(f, p', strip, check);
    ProtosBack(f, 0, src, strip, check, d);
    var h := f.(source := src, p := LoadedAll(f, 0, src, strip), lineinfo := [], locvars := [], upvalues := []);
    DebugBack(f, h, strip, t);
    if !strip { AllLoaded(f, 0, src); }
  }

  lemma InnerChecked(f: Proto, p: Option<bytes>, strip: bool, check: Proto -> bool)
    requires Checked(Loaded(f, p, strip), check)
    ensures check(Loaded(f, p, strip))
    ensures var src := if strip then p else f.source;
      forall j :: 0 <= j < |f.p| ==> Checked(Loaded(f.p[j], src, strip), check)
  {
    forall j | 0 <= j < |f.p|
      ensures LoadedAll(f, 0, p, strip)[j] == Loaded(f.p[j], p, strip) { LoadedAt(f, 0, j, p, strip); }
    var g := Loaded(f, p, strip);
    if strip {
      forall j | 0 <= j < |f.p|
        ensures Checked(Loaded(f.p[j], p, strip), check) { assert g.p[j] == Loaded(f.p[j], p, strip); }
    }
  }

  lemma {:induction false} LoadedAt(f: Proto, i: nat, j: nat, p: Option<bytes>, strip: bool)
    requires i + j < |f.p|
    ensures LoadedAll(f, i, p, strip)[j] == Loaded(f.p[i + j], p, strip)
    decreases j
  {
    if j > 0 { LoadedAt(f, i + 1, j - 1, p, strip); }
  }

  lemma {:induction false} AllLoaded(f: Proto, i: nat, p: Option<bytes>)
    requires i <= |f.p|
    ensures LoadedAll(f, i, p, false) == f.p[i..]
    decreases |f.p| - i
  {
    if i < |f.p| { AllLoaded(f, i + 1, p); }
  }

  lemma ProtosOk(f: Proto)
    requires ProtoOk(f)
    ensures forall i :: 0 <= i < |f.p| ==> ProtoOk(f.p[i])
    ensures f.source.Some?
  {
  }

  lemma {:induction false} ProtosBack(f: Proto, i: nat, src: Option<bytes>, strip: bool, check: Proto -> bool, t: bytes)
    requires ProtoOk(f) && i <= |f.p| && (!strip ==> src == f.source)
    requires forall j :: i <= j < |f.p| ==> Checked(Loaded(f.p[j], src, strip), check)
    ensures LoadProtos(DumpProtos(f, i, strip) + t, |f.p| - i, src, check) == Ok(LoadedAll(f, i, src, strip), t)
    decreases f, 0, |f.p| - i
  {
    hide DumpFunction, LoadFunction, Checked, ProtoOk, Loaded;
    ProtosOk(f);
    if i == |f.p| {
      assert [] + t == t;
    } else {
      var rest := DumpProtos(f, i + 1, strip);
      assert DumpFunction(f.p[i], f.source, strip) + rest + t == DumpFunction(f.p[i], f.source, strip) + (rest + t);
      FunctionBack(f.p[i], f.source, src, strip, check, rest + t);
      ProtosBack(f, i + 1, src, strip, check, t);
    }
  }

  /**
   Undumping what was dumped gives the function back; stripped, it gives it back without debug
   data, and every source is "=?".
   */
  lemma RoundTrip(f: Proto, strip: bool, check: Proto -> bool)
    requires ProtoOk(f) && Checked(Loaded(f, UNKNOWN, strip), check)
    ensures Undump(Dump(f, strip), check) == Ok(Loaded(f, Some(['=' as int, '?' as int]), strip), [])
  {
    var d := DumpFunction(f, None, strip);
    TakeBack(HEADER, d);
    FunctionBack(f, None, UNKNOWN, strip, check, []);
    assert d + [] == d;
  }
}
