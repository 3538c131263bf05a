/** Dumping to a writer that may fail (ldump.c). */
module ChunkDump {
  import opened Basics
  import opened Chunk

  /**
   What writing `x' makes of the output: all of it is added unless the writer fails, and
   nothing more is written once it has failed.
   */
  ghost predicate Wrote(out0: bytes, status0: int, out: bytes, status: int, x: bytes) {
    && (status0 != 0 ==> out == out0 && status == status0)
    && (status0 == 0 && status == 0 ==> out == out0 + x)
    && out0 <= out <= out0 + x
  }

  lemma WroteBoth(o0: bytes, s0: int, o1: bytes, s1: int, o2: bytes, s2: int, x: bytes, y: bytes)
    requires Wrote(o0, s0, o1, s1, x) && Wrote(o1, s1, o2, s2, y)
    ensures Wrote(o0, s0, o2, s2, x + y)
  {
    assert o0 + x + y == o0 + (x + y);
    if s1 == 0 && s0 == 0 {
      assert o1 == o0 + x;
    } else {
      assert o2 == o1 && o1 <= o0 + x <= o0 + (x + y);
    }
  }

  class DumpState {
    const strip: bool
    const writer: (nat, bytes) -> int    // the status of the i-th call
    var status: int
    var calls: nat
    var out: bytes                       // what the writer accepted

    constructor (strip: bool, writer: (nat, bytes) -> int)
      ensures this.strip == strip && this.writer == writer && status == 0 && out == []
    {
      this.strip, this.writer, status, calls, out := strip, writer, 0, 0, [];
    }

    /** DumpBlock */
    method Block(b: bytes)
      modifies this
      ensures Wrote(old(out), old(status), out, status, b)
    {
      if status == 0 {
        status := writer(calls, b);
        calls := calls + 1;
        if status == 0 { out := out + b; }
      }
    }

    method Int(x: int)
      requires IsInt(x)
      modifies this
      ensures Wrote(old(out), old(status), out, status, EncInt(x))
    {
      Block(EncInt(x));
    }

    /** DumpString */
    method String(s: Option<bytes>)
      requires StringOk(s)
      modifies this
      ensures Wrote(old(out), old(status), out, status, DumpString(s))
    {
      if s.None? {
        Block(Enc(0, SIZE_SIZE_T));
      } else {
        ghost var o0, s0 := out, status;
        Block(Enc(|s.value| + 1, SIZE_SIZE_T));
        ghost var o1, s1 := out, status;
        Block(s.value + [0]);
        WroteBoth(o0, s0, o1, s1, out, status, Enc(|s.value| + 1, SIZE_SIZE_T), s.value + [0]);
      }
    }

    method Constant(c: Const)
      requires ConstOk(c)
      modifies this
      ensures Wrote(old(out), old(status), out, status, DumpConst(c))
    {
      ghost var o0, s0 := out, status;
      var t := match c
        case CNil => LUA_TNIL
        case CBool(_) => LUA_TBOOLEAN
        case CNumber(_) => LUA_TNUMBER
        case CString(_) => LUA_TSTRING;
      Block([t]);
      ghost var o1, s1 := out, status;
      match c {
        case CNil =>
        case CBool(b) =>
          Block([if b then 1 else 0]);
          WroteBoth(o0, s0, o1, s1, out, status, [LUA_TBOOLEAN], [if b then 1 else 0]);
        case CNumber(image) =>
          Block(image);
          WroteBoth(o0, s0, o1, s1, out, status, [LUA_TNUMBER], image);
        case CString(s) =>
          String(Some(s));
          WroteBoth(o0, s0, o1, s1, out, status, [LUA_TSTRING], DumpString(Some(s)));
      }
    }

    /** DumpConstants, without the functions inside */
    method Constants(q: seq<Const>)
      requires IsNat(|q|) && forall i :: 0 <= i < |q| ==> ConstOk(q[i])
      modifies this
      ensures Wrote(old(out), old(status), out, status, EncInt(|q|) + DumpConsts(q))
    {
      hide Wrote, DumpConst, EncInt, ConstOk;
      ghost var o0, s0 := out, status;
      Int(|q|);
      ghost var done := EncInt(|q|);
      var i := 0;
      assert q[0..] == q;
      while i < |q|
        invariant i <= |q| && Wrote(o0, s0, out, status, done)
        invariant done + DumpConsts(q[i..]) == EncInt(|q|) + DumpConsts(q)
      {
        ghost var o1, s1 := out, status;
        Constant(q[i]);
        WroteBoth(o0, s0, o1, s1, out, status, done, DumpConst(q[i]));
        assert q[i..][1..] == q[i + 1..];
        assert done + (DumpConst(q[i]) + DumpConsts(q[i + 1..])) == done + DumpConst(q[i]) + DumpConsts(q[i + 1..]);
        done := done + DumpConst(q[i]);
        i := i + 1;
      }
      assert done + [] == done;
    }

    method LocVars(q: seq<LocVar>)
      requires IsNat(|q|) && forall i :: 0 <= i < |q| ==> LocVarOk(q[i])
      modifies this
      ensures Wrote(old(out), old(status), out, status, EncInt(|q|) + DumpLocVars(q))
    {
      hide Wrote, EncInt, DumpString;
      ghost var o0, s0 := out, status;
      Int(|q|);
      ghost var done := EncInt(|q|);
      var i := 0;
      assert q[0..] == q;
      while i < |q|
        invariant i <= |q| && Wrote(o0, s0, out, status, done)
        invariant done + DumpLocVars(q[i..]) == EncInt(|q|) + DumpLocVars(q)
      {
        ghost var o1, s1 := out, status;
        String(q[i].varname);
        ghost var o2, s2 := out, status;
        Int(q[i].startpc);
        WroteBoth(o1, s1, o2, s2, out, status, DumpString(q[i].varname), EncInt(q[i].startpc));
        ghost var o3, s3 := out, status;
        Int(q[i].endpc);
        WroteBoth(o1, s1, o3, s3, out, status, DumpString(q[i].varname) + EncInt(q[i].startpc), EncInt(q[i].endpc));
        WroteBoth(o0, s0, o1, s1, out, status, done, DumpLocVar(q[i]));
        assert q[i..][1..] == q[i + 1..];
        assert done + (DumpLocVar(q[i]) + DumpLocVars(q[i + 1..])) == done + DumpLocVar(q[i]) + DumpLocVars(q[i + 1..]);
        done := done + DumpLocVar(q[i]);
        i := i + 1;
      }
      assert done + [] == done;
    }

    method Strings(q: seq<Option<bytes>>)
      requires IsNat(|q|) && forall i :: 0 <= i < |q| ==> StringOk(q[i])
      modifies this
      ensures Wrote(old(out), old(status), out, status, EncInt(|q|) + DumpStrings(q))
    {
      hide Wrote, EncInt, DumpString;
      ghost var o0, s0 := out, status;
      Int(|q|);
      ghost var done := EncInt(|q|);
      var i := 0;
      assert q[0..] == q;
      while i < |q|
        invariant i <= |q| && Wrote(o0, s0, out, status, done)
        invariant done + DumpStrings(q[i..]) == EncInt(|q|) + DumpStrings(q)
      {
        ghost var o1, s1 := out, status;
        String(q[i]);
        WroteBoth(o0, s0, o1, s1, out, status, done, DumpString(q[i]));
        assert q[i..][1..] == q[i + 1..];
        assert done + (DumpString(q[i]) + DumpStrings(q[i + 1..])) == done + DumpString(q[i]) + DumpStrings(q[i + 1..]);
        done := done + DumpString(q[i]);
        i := i + 1;
      }
      assert done + [] == done;
    }

    /** DumpVector of the instructions: one block of memory */
    method Code(q: seq<nat>)
      requires IsNat(|q|)
      modifies this
      ensures Wrote(old(out), old(status), out, status, EncInt(|q|) + DumpCodes(q))
    {
      ghost var o0, s0 := out, status;
      Int(|q|);
      ghost var o1, s1 := out, status;
      Block(DumpCodes(q));
      WroteBoth(o0, s0, o1, s1, out, status, EncInt(|q|), DumpCodes(q));
    }

    method Lines(q: seq<int>)
      requires IsNat(|q|) && forall i :: 0 <= i < |q| ==> IsInt(q[i])
      modifies this
      ensures Wrote(old(out), old(status), out, status, EncInt(|q|) + DumpInts(q))
    {
      ghost var o0, s0 := out, status;
      Int(|q|);
      ghost var o1, s1 := out, status;
      Block(DumpInts(q));
      WroteBoth(o0, s0, o1, s1, out, status, EncInt(|q|), DumpInts(q));
    }

    /** DumpDebug */
    method Debug(f: Proto)
      requires ProtoOk(f)
      modifies this
      ensures Wrote(old(out), old(status), out, status, DumpDebug(f, strip))
    {
      hide Wrote, EncInt, DumpStrings, DumpLocVars, DumpInts;
      ghost var o0, s0 := out, status;
      var lineinfo := if strip then [] else f.lineinfo;
      var locvars := if strip then [] else f.locvars;
      var upvalues := if strip then [] else f.upvalues;
      ghost var a := EncInt(|lineinfo|) + DumpInts(lineinfo);
      ghost var b := EncInt(|locvars|) + DumpLocVars(locvars);
      ghost var c := EncInt(|upvalues|) + DumpStrings(upvalues);
      Lines(lineinfo);
      ghost var o1, s1 := out, status;
      LocVars(locvars);
      WroteBoth(o0, s0, o1, s1, out, status, a, b);
      ghost var o2, s2 := out, status;
      Strings(upvalues);
      WroteBoth(o0, s0, o2, s2, out, status, a + b, c);
      NothingToDump();
      assert a + b + c == DumpDebug(f, strip);
    }

    /** DumpFunction */
    method Function(f: Proto, p: Option<bytes>)
      requires ProtoOk(f)
      modifies this
      ensures Wrote(old(out), old(status), out, status, DumpFunction(f, p, strip))
      decreases f
    {
      hide Wrote, EncInt, DumpConsts, DumpCodes, DumpDebug, DumpString, DumpProtos;
      ghost var o0, s0 := out, status;
      Head(f, p);
      ghost var h := HeadBytes(f, p, strip);
      ghost var o1, s1 := out, status;
      Code(f.code);
      WroteBoth(o0, s0, o1, s1, out, status, h, EncInt(|f.code|) + DumpCodes(f.code));
      h := h + (EncInt(|f.code|) + DumpCodes(f.code));
      o1, s1 := out, status;
      Constants(f.k);
      WroteBoth(o0, s0, o1, s1, out, status, h, EncInt(|f.k|) + DumpConsts(f.k));
      h := h + (EncInt(|f.k|) + DumpConsts(f.k));
      o1, s1 := out, status;
      Int(|f.p|);
      ghost var o2, s2, ps := out, status, EncInt(|f.p|);
      var i := 0;
      while i < |f.p|
        invariant i <= |f.p| && Wrote(o1, s1, out, status, ps)
        invariant ps + DumpProtos(f, i, strip) == EncInt(|f.p|) + DumpProtos(f, 0, strip)
      {
        ghost var o3, s3, x := out, status, DumpFunction(f.p[i], f.source, strip);
        Function(f.p[i], f.source);
        WroteBoth(o1, s1, o3, s3, out, status, ps, x);
        NextProto(f, i, strip);
        assert ps + (x + DumpProtos(f, i + 1, strip)) == ps + x + DumpProtos(f, i + 1, strip);
        ps := ps + x;
        i := i + 1;
      }
      NoProto(f, strip);
      assert ps + [] == ps;
      WroteBoth(o0, s0, o1, s1, out, status, h, ps);
      h := h + ps;
      o1, s1 := out, status;
      Debug(f);
      WroteBoth(o0, s0, o1, s1, out, status, h, DumpDebug(f, strip));
      assert h + DumpDebug(f, strip) == DumpFunction(f, p, strip);
    }

    /** What DumpFunction writes first */
    method Head(f: Proto, p: Option<bytes>)
      requires ProtoOk(f)
      modifies this
      ensures Wrote(old(out), old(status), out, status, HeadBytes(f, p, strip))
    {
      hide Wrote, EncInt, DumpString;
      ghost var o0, s0 := out, status;
      var source := if f.source == p || strip then None else f.source;
      String(source);
      ghost var o1, s1, h := out, status, DumpString(source);
      Int(f.linedefined);
      WroteBoth(o0, s0, o1, s1, out, status, h, EncInt(f.linedefined));
      o1, s1, h := out, status, h + EncInt(f.linedefined);
      Int(f.lastlinedefined);
      WroteBoth(o0, s0, o1, s1, out, status, h, EncInt(f.lastlinedefined));
      o1, s1, h := out, status, h + EncInt(f.lastlinedefined);
      Block([f.nups]);
      WroteBoth(o0, s0, o1, s1, out, status, h, [f.nups]);
      o1, s1 := out, status;
      Block([f.numparams]);
      WroteBoth(o0, s0, o1, s1, out, status, h + [f.nups], [f.numparams]);
      o1, s1 := out, status;
      Block([f.isVararg]);
      WroteBoth(o0, s0, o1, s1, out, status, h + [f.nups] + [f.numparams], [f.isVararg]);
      o1, s1 := out, status;
      Block([f.maxstacksize]);
      WroteBoth(o0, s0, o1, s1, out, status, h + [f.nups] + [f.numparams] + [f.isVararg], [f.maxstacksize]);
      assert h + [f.nups] + [f.numparams] + [f.isVararg] + [f.maxstacksize] ==
          h + [f.nups, f.numparams, f.isVararg, f.maxstacksize];
    }

    /** luaU_dump: the status is that of the writer; with a good writer the whole chunk is out. */
    method DumpChunk(f: Proto) returns (r: int)
      requires ProtoOk(f) && status == 0 && out == []
      modifies this
      ensures r == status && out <= Dump(f, strip) && (r == 0 ==> out == Dump(f, strip))
    {
      Block(HEADER);
      ghost var o1, s1 := out, status;
      Function(f, None);
      WroteBoth([], 0, o1, s1, out, status, HEADER, DumpFunction(f, None, strip));
      assert [] + Dump(f, strip) == Dump(f, strip);
      r := status;
    }
  }

  function HeadBytes(f: Proto, p: Option<bytes>, strip: bool): bytes
    requires ProtoOk(f)
  {
    DumpString(if f.source == p || strip then None else f.source)
    + EncInt(f.linedefined) + EncInt(f.lastlinedefined)
    + [f.nups, f.numparams, f.isVararg, f.maxstacksize]
  }

  lemma NothingToDump()
    ensures DumpInts([]) == [] && DumpLocVars([]) == [] && DumpStrings([]) == []
  {
  }

  lemma NextProto(f: Proto, i: nat, strip: bool)
    requires ProtoOk(f) && i < |f.p|
    ensures DumpProtos(f, i, strip) == DumpFunction(f.p[i], f.source, strip) + DumpProtos(f, i + 1, strip)
  {
  }

  lemma NoProto(f: Proto, strip: bool)
    requires ProtoOk(f)
    ensures DumpProtos(f, |f.p|, strip) == []
  {
  }
}
