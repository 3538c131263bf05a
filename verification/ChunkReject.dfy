/** What undump rejects: foreign headers, truncated chunks, and functions that fail the code check. */
module ChunkReject {
  import opened Basics
  import opened Chunk
  import opened ChunkLoad

  // ---- the header -----------------------------------------------------------------

  /** An accepted chunk begins with the signature, version 5.1, format 0, this byte order and these sizes of types. */
  lemma ForeignHeader(s: bytes, check: Proto -> bool)
    ensures Undump(s, check).Ok? ==>
        |s| >= 12 && s[..12] == [27, 'L' as int, 'u' as int, 'a' as int, 0x51, 0, 1, 4, 8, 4, 8, 0]
  {
    hide LoadFunction;
  }

  // ---- truncated chunks -------------------------------------------------------------

  /** Bytes behind what was read do not matter. */
  function Longer<T>(r: R<T>, t: bytes): R<T> {
    if r.Ok? then Ok(r.v, r.rest + t) else Bad
  }

  lemma BlockLonger(s: bytes, n: nat, t: bytes)
    ensures LoadBlock(s, n).Ok? ==> LoadBlock(s + t, n) == Longer(LoadBlock(s, n), t)
  {
    if n <= |s| { assert (s + t)[..n] == s[..n] && (s + t)[n..] == s[n..] + t; }
  }

  lemma CharLonger(s: bytes, t: bytes)
    ensures LoadChar(s).Ok? ==> LoadChar(s + t) == Longer(LoadChar(s), t)
  {
    if s != [] { assert (s + t)[1..] == s[1..] + t; }
  }

  lemma IntLonger(s: bytes, t: bytes)
    ensures LoadInt(s).Ok? ==> LoadInt(s + t) == Longer(LoadInt(s), t)
  {
    BlockLonger(s, SIZE_INT, t);
  }

  lemma StringLonger(s: bytes, t: bytes)
    ensures LoadString(s).Ok? ==> LoadString(s + t) == Longer(LoadString(s), t)
  {
    hide Dec;
    BlockLonger(s, SIZE_SIZE_T, t);
    var n := LoadSize(s);
    if n.Ok? { BlockLonger(n.rest, n.v, t); }
  }

  lemma ConstLonger(s: bytes, t: bytes)
    ensures LoadConst(s).Ok? ==> LoadConst(s + t) == Longer(LoadConst(s), t)
  {
    hide LoadString;
    CharLonger(s, t);
    var c := LoadChar(s);
    if c.Ok? {
      CharLonger(c.rest, t);
      BlockLonger(c.rest, SIZE_NUMBER, t);
      StringLonger(c.rest, t);
    }
  }

  lemma {:induction false} ConstsLonger(s: bytes, n: nat, t: bytes)
    ensures LoadConsts(s, n).Ok? ==> LoadConsts(s + t, n) == Longer(LoadConsts(s, n), t)
    decreases n
  {
    hide LoadConst;
    if n > 0 && LoadConst(s).Ok? {
      ConstLonger(s, t);
      ConstsLonger(LoadConst(s).rest, n - 1, t);
    }
  }

  lemma LocVarLonger(s: bytes, t: bytes)
    ensures LoadLocVar(s).Ok? ==> LoadLocVar(s + t) == Longer(LoadLocVar(s), t)
  {
    hide LoadString, LoadInt;
    if LoadLocVar(s).Ok? {
      StringLonger(s, t);
      var r1 := LoadString(s).rest;
      IntLonger(r1, t);
      IntLonger(LoadInt(r1).rest, t);
    }
  }

  lemma {:induction false} LocVarsLonger(s: bytes, n: nat, t: bytes)
    ensures LoadLocVars(s, n).Ok? ==> LoadLocVars(s + t, n) == Longer(LoadLocVars(s, n), t)
    decreases n
  {
    hide LoadLocVar;
    if n > 0 && LoadLocVar(s).Ok? {
      LocVarLonger(s, t);
      LocVarsLonger(LoadLocVar(s).rest, n - 1, t);
    }
  }

  lemma {:induction false} StringsLonger(s: bytes, n: nat, t: bytes)
    ensures LoadStrings(s, n).Ok? ==> LoadStrings(s + t, n) == Longer(LoadStrings(s, n), t)
    decreases n
  {
    hide LoadString;
    if n > 0 && LoadString(s).Ok? {
      StringLonger(s, t);
      StringsLonger(LoadString(s).rest, n - 1, t);
    }
  }

  lemma HeadLonger(s: bytes, p: Option<bytes>, t: bytes)
    ensures LoadHead(s, p).Ok? ==> LoadHead(s + t, p) == Longer(LoadHead(s, p), t)
  {
    hide LoadString, LoadInt, LoadBlock, LoadConsts, Words;
    if LoadHead(s, p).Ok? {
      StringLonger(s, t);
      var r1 := LoadString(s).rest;
      IntLonger(r1, t);
      var r2 := LoadInt(r1).rest;
      IntLonger(r2, t);
      var r3 := LoadInt(r2).rest;
      BlockLonger(r3, 4, t);
      var r4 := LoadBlock(r3, 4).rest;
      IntLonger(r4, t);
      var n := LoadInt(r4);
      BlockLonger(n.rest, SIZE_INSTRUCTION * n.v, t);
      var r6 := LoadBlock(n.rest, SIZE_INSTRUCTION * n.v).rest;
      IntLonger(r6, t);
      ConstsLonger(LoadInt(r6).rest, LoadInt(r6).v, t);
    }
  }

  lemma DebugLonger(s: bytes, f: Proto, t: bytes)
    ensures LoadDebug(s, f).Ok? ==> LoadDebug(s + t, f) == Longer(LoadDebug(s, f), t)
  {
    hide LoadInt, LoadBlock, LoadLocVars, LoadStrings, Ints;
    if LoadDebug(s, f).Ok? {
      IntLonger(s, t);
      var n := LoadInt(s);
      BlockLonger(n.rest, SIZE_INT * n.v, t);
      var r2 := LoadBlock(n.rest, SIZE_INT * n.v).rest;
      IntLonger(r2, t);
      var m := LoadInt(r2);
      LocVarsLonger(m.rest, m.v, t);
      var r4 := LoadLocVars(m.rest, m.v).rest;
      IntLonger(r4, t);
      StringsLonger(LoadInt(r4).rest, LoadInt(r4).v, t);
    }
  }

  /** What a function is read as depends on its own bytes only. */
  lemma {:induction false} FunctionLonger(s: bytes, p: Option<bytes>, check: Proto -> bool, t: bytes)
    ensures LoadFunction(s, p, check).Ok? ==> LoadFunction(s + t, p, check) == Longer(LoadFunction(s, p, check), t)
    decreases |s|, 0
  {
    hide LoadHead, LoadInt, LoadProtos, LoadDebug;
    if LoadFunction(s, p, check).Ok? {
      HeadLonger(s, p, t);
      var f := LoadHead(s, p);
      IntLonger(f.rest, t);
      var n := LoadInt(f.rest);
      ProtosLonger(n.rest, n.v, f.v.source, check, t);
      var q := LoadProtos(n.rest, n.v, f.v.source, check);
      DebugLonger(q.rest, f.v.(p := q.v), t);
    }
  }

  lemma {:induction false} ProtosLonger(s: bytes, n: nat, source: Option<bytes>, check: Proto -> bool, t: bytes)
    ensures LoadProtos(s, n, source, check).Ok? ==>
      LoadProtos(s + t, n, source, check) == Longer(LoadProtos(s, n, source, check), t)
    decreases |s|, n
  {
    hide LoadFunction;
    if n > 0 && LoadFunction(s, source, check).Ok? {
      FunctionLonger(s, source, check, t);
      ProtosLonger(LoadFunction(s, source, check).rest, n - 1, source, check, t);
    }
  }

  lemma UndumpLonger(s: bytes, check: Proto -> bool, t: bytes)
    ensures Undump(s, check).Ok? ==> Undump(s + t, check) == Longer(Undump(s, check), t)
  {
    hide LoadFunction;
    BlockLonger(s, |HEADER|, t);
    if Undump(s, check).Ok? { FunctionLonger(LoadBlock(s, |HEADER|).rest, UNKNOWN, check, t); }
  }

  // ---- the code check -----------------------------------------------------------------

  /** Whatever is accepted has passed the check, and so have the functions inside it. */
  lemma {:induction false} FunctionChecked(s: bytes, p: Option<bytes>, check: Proto -> bool)
    ensures var r := LoadFunction(s, p, check);
      r.Ok? ==> Checked(r.v, check) && LoadFunction(s, p, _ => true) == r
    decreases |s|, 0
  {
    hide LoadHead, LoadInt, LoadProtos, LoadDebug;
    if LoadFunction(s, p, check).Ok? {
      var f := LoadHead(s, p);
      var n := LoadInt(f.rest);
      ProtosChecked(n.rest, n.v, f.v.source, check);
      var q := LoadProtos(n.rest, n.v, f.v.source, check);
      DebugKeeps(q.rest, f.v.(p := q.v));
    }
  }

  lemma {:induction false} ProtosChecked(s: bytes, n: nat, source: Option<bytes>, check: Proto -> bool)
    ensures var r := LoadProtos(s, n, source, check);
      r.Ok? ==> (forall i :: 0 <= i < |r.v| ==> Checked(r.v[i], check)) && LoadProtos(s, n, source, _ => true) == r
    decreases |s|, n
  {
    hide LoadFunction;
    if n > 0 && LoadFunction(s, source, check).Ok? {
      FunctionChecked(s, source, check);
      ProtosChecked(LoadFunction(s, source, check).rest, n - 1, source, check);
    }
  }

  lemma DebugKeeps(s: bytes, f: Proto)
    ensures LoadDebug(s, f).Ok? ==> LoadDebug(s, f).v.p == f.p
  {
  }

  /** Every function of an accepted chunk has passed the check. */
  lemma UndumpChecked(s: bytes, check: Proto -> bool)
    ensures var r := Undump(s, check); r.Ok? ==> Checked(r.v, check) && Undump(s, _ => true) == r
  {
    hide LoadFunction, Checked;
    var h := LoadBlock(s, |HEADER|);
    if h.Ok? { FunctionChecked(h.rest, UNKNOWN, check); }
  }

  // ---- exactness ------------------------------------------------------------------------

  lemma {:induction false} AllChecked(f: Proto)
    ensures Checked(f, _ => true)
    decreases f
  {
    forall i | 0 <= i < |f.p| ensures Checked(f.p[i], _ => true) { AllChecked(f.p[i]); }
  }

  /** A dumped function is accepted if and only if it and all functions inside pass the check. */
  lemma UndumpExact(f: Proto, strip: bool, check: Proto -> bool)
    requires ProtoOk(f)
    ensures var g := Loaded(f, UNKNOWN, strip);
      Undump(Dump(f, strip), check) == if Checked(g, check) then Ok(g, []) else Bad
  {
    hide Undump, Dump, Checked, Loaded, ProtoOk;
    var g := Loaded(f, UNKNOWN, strip);
    if Checked(g, check) {
      RoundTrip(f, strip, check);
    } else {
      AllChecked(g);
      RoundTrip(f, strip, _ => true);
      UndumpChecked(Dump(f, strip), check);
    }
  }

  /** A chunk that was cut off anywhere is rejected. */
  lemma TruncatedRejected(f: Proto, strip: bool, check: Proto -> bool, n: nat)
    requires ProtoOk(f) && n < |Dump(f, strip)|
    ensures Undump(Dump(f, strip)[..n], check) == Bad
  {
    hide Undump, Dump, Checked, Loaded, ProtoOk;
    var d := Dump(f, strip);
    assert d[..n] + d[n..] == d;
    UndumpLonger(d[..n], check, d[n..]);
    UndumpExact(f, strip, check);
  }
}
