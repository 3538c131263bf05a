/** Loading from a reader that delivers the bytes in pieces (lzio.c, lundump.c), and dumping to a writer (ldump.c). */
module ChunkStream {
  import opened Basics
  import opened Chunk
  import opened ChunkLoad

  const EOZ: int := -1

  /** What the reader has still to deliver */
  function Flat(chunks: seq<bytes>): bytes {
    if chunks == [] then [] else chunks[0] + Flat(chunks[1..])
  }

  /** A buffered stream: `n' unread bytes in `buf' from `p' on, and the pieces the reader will return */
  class Zio {
    var n: nat
    var p: nat
    var buf: bytes
    var chunks: seq<bytes>

    ghost predicate Valid()
      reads this
    {
      p + n == |buf| && forall i :: 0 <= i < |chunks| ==> chunks[i] != []
    }

    ghost function Remaining(): bytes
      requires Valid()
      reads this
    {
      buf[p..] + Flat(chunks)
    }

    constructor (chunks: seq<bytes>)
      requires forall i :: 0 <= i < |chunks| ==> chunks[i] != []
      ensures Valid() && Remaining() == Flat(chunks)
    {
      n, p, buf, this.chunks := 0, 0, [], chunks;
    }

    /** luaZ_fill: the next piece becomes the buffer, and its first byte is read. */
    method Fill() returns (c: int)
      requires Valid() && n == 0
      modifies this
      ensures Valid()
      ensures if c == EOZ then old(Remaining()) == [] && Remaining() == [] && n == 0
              else p >= 1 && old(Remaining()) == [c] + Remaining() && c == buf[p - 1]
    {
      if chunks == [] { return EOZ; }
      buf, chunks := chunks[0], chunks[1..];
      n, p := |buf| - 1, 1;
      assert buf == [buf[0]] + buf[1..];
      return buf[0];
    }

    /** luaZ_lookahead */
    method Lookahead() returns (c: int)
      requires Valid()
      modifies this
      ensures Valid() && Remaining() == old(Remaining())
      ensures if c == EOZ then Remaining() == [] else n > 0 && Remaining() != [] && c == Remaining()[0]
    {
      if n == 0 {
        c := Fill();
        if c == EOZ { return; }
        n, p := n + 1, p - 1;
        assert buf[p..] == [buf[p]] + buf[p + 1..];
      }
      return buf[p];
    }

    /** What is left of the piece, or as much of it as is wanted */
    method Take(count: nat) returns (b: bytes)
      requires Valid() && n > 0 && count > 0
      modifies this`n, this`p
      ensures Valid() && b + Remaining() == old(Remaining()) && 0 < |b| <= count
    {
      var m := if count <= n then count else n;
      b := buf[p..p + m];
      assert buf[p..] == b + buf[p + m..];
      n, p := n - m, p + m;
    }

    /** luaZ_read: the next bytes, across the pieces, and how many were missing */
    method Read(count: nat) returns (b: bytes, missing: nat)
      requires Valid()
      modifies this
      ensures Valid() && b + Remaining() == old(Remaining()) && |b| + missing == count
      ensures missing > 0 ==> Remaining() == []
    {
      b, missing := [], count;
      while missing > 0
        invariant Valid() && b + Remaining() == old(Remaining()) && |b| + missing == count
      {
        var c := Lookahead();
        if c == EOZ { return; }
        var more := Take(missing);
        assert b + (more + Remaining()) == (b + more) + Remaining();
        b, missing := b + more, missing - |more|;
      }
    }
  }

  /** An operation's result against what the bytes say; after an error nothing is claimed. */
  ghost predicate Gave<T>(r: Option<T>, want: R<T>, rest: bytes) {
    match want
    case Bad => r.None?
    case Ok(v, t) => r == Some(v) && rest == t
  }

  function Prepend<T>(q: seq<T>, r: R<seq<T>>): R<seq<T>> {
    match r
    case Bad => Bad
    case Ok(v, rest) => Ok(q + v, rest)
  }

  class LoadState {
    const z: Zio
    const check: Proto -> bool

    constructor (z: Zio, check: Proto -> bool)
      ensures this.z == z && this.check == check
    {
      this.z, this.check := z, check;
    }

    method Block(n: nat) returns (r: Option<bytes>)
      requires z.Valid()
      modifies z
      ensures z.Valid() && Gave(r, LoadBlock(old(z.Remaining()), n), z.Remaining())
    {
      var b, missing := z.Read(n);
      r := if missing != 0 then None else Some(b);
    }

    method Char() returns (r: Option<byte>)
      requires z.Valid()
      modifies z
      ensures z.Valid() && Gave(r, LoadChar(old(z.Remaining())), z.Remaining())
    {
      var b := Block(1);
      r := if b.None? then None else Some(b.value[0]);
    }

    method Int() returns (r: Option<nat>)
      requires z.Valid()
      modifies z
      ensures z.Valid() && Gave(r, LoadInt(old(z.Remaining())), z.Remaining())
    {
      var b := Block(SIZE_INT);
      if b.None? { return None; }
      var x := DecInt(b.value);
      r := if x < 0 then None else Some(x);
    }

    method String() returns (r: Option<Option<bytes>>)
      requires z.Valid()
      modifies z
      ensures z.Valid() && Gave(r, LoadString(old(z.Remaining())), z.Remaining())
    {
      var b := Block(SIZE_SIZE_T);
      if b.None? { return None; }
      var size := Dec(b.value);
      if size == 0 { return Some(None); }
      b := Block(size);
      r := if b.None? then None else Some(Some(b.value[..size - 1]));
    }

    method Constant() returns (r: Option<Const>)
      requires z.Valid()
      modifies z
      ensures z.Valid() && Gave(r, LoadConst(old(z.Remaining())), z.Remaining())
    {
      var t := Char();
      if t.None? { return None; }
      if t.value == LUA_TNIL {
        r := Some(CNil);
      } else if t.value == LUA_TBOOLEAN {
        var b := Char();
        r := if b.None? then None else Some(CBool(b.value != 0));
      } else if t.value == LUA_TNUMBER {
        var b := Block(SIZE_NUMBER);
        r := if b.None? then None else Some(CNumber(b.value));
      } else if t.value == LUA_TSTRING {
        var s := String();
        r := if s.None? || s.value.None? then None else Some(CString(s.value.value));
      } else {
        r := None;
      }
    }

    method Constants(n: nat) returns (r: Option<seq<Const>>)
      requires z.Valid()
      modifies z
      ensures z.Valid() && Gave(r, LoadConsts(old(z.Remaining()), n), z.Remaining())
    {
      hide Zio.Valid, Zio.Remaining, LoadConst;
      var k: seq<Const> := [];
      PrependNone(LoadConsts(z.Remaining(), n));
      while |k| < n
        invariant z.Valid() && |k| <= n
        invariant LoadConsts(old(z.Remaining()), n) == Prepend(k, LoadConsts(z.Remaining(), n - |k|))
      {
        ghost var s := z.Remaining();
        var c := Constant();
        if c.None? { return None; }
        PrependOne(k, c.value, LoadConsts(z.Remaining(), n - |k| - 1));
        k := k + [c.value];
      }
      assert k + [] == k;
      r := Some(k);
    }

    method LocVar() returns (r: Option<LocVar>)
      requires z.Valid()
      modifies z
      ensures z.Valid() && Gave(r, LoadLocVar(old(z.Remaining())), z.Remaining())
    {
      var name := String();
      if name.None? { return None; }
      var startpc := Int();
      if startpc.None? { return None; }
      var endpc := Int();
      if endpc.None? { return None; }
      r := Some(Chunk.LocVar(name.value, startpc.value, endpc.value));
    }

    method LocVars(n: nat) returns (r: Option<seq<LocVar>>)
      requires z.Valid()
      modifies z
      ensures z.Valid() && Gave(r, LoadLocVars(old(z.Remaining()), n), z.Remaining())
    {
      hide Zio.Valid, Zio.Remaining, LoadLocVar;
      var q: seq<LocVar> := [];
      PrependNone(LoadLocVars(z.Remaining(), n));
      while |q| < n
        invariant z.Valid() && |q| <= n
        invariant LoadLocVars(old(z.Remaining()), n) == Prepend(q, LoadLocVars(z.Remaining(), n - |q|))
      {
        var v := this.LocVar();
        if v.None? { return None; }
        PrependOne(q, v.value, LoadLocVars(z.Remaining(), n - |q| - 1));
        q := q + [v.value];
      }
      assert q + [] == q;
      r := Some(q);
    }

    method Strings(n: nat) returns (r: Option<seq<Option<bytes>>>)
      requires z.Valid()
      modifies z
      ensures z.Valid() && Gave(r, LoadStrings(old(z.Remaining()), n), z.Remaining())
    {
      hide Zio.Valid, Zio.Remaining, LoadString;
      var q: seq<Option<bytes>> := [];
      PrependNone(LoadStrings(z.Remaining(), n));
      while |q| < n
        invariant z.Valid() && |q| <= n
        invariant LoadStrings(old(z.Remaining()), n) == Prepend(q, LoadStrings(z.Remaining(), n - |q|))
      {
        var v := String();
        if v.None? { return None; }
        PrependOne(q, v.value, LoadStrings(z.Remaining(), n - |q| - 1));
        q := q + [v.value];
      }
      assert q + [] == q;
      r := Some(q);
    }

    /** LoadCode */
    method Codes(n: nat) returns (r: Option<seq<nat>>)
      requires z.Valid()
      modifies z
      ensures z.Valid() && Gave(r, LoadCodes(old(z.Remaining()), n), z.Remaining())
    {
      hide Words;
      var b := Block(SIZE_INSTRUCTION * n);
      r := if b.None? then None else Some(Words(b.value, n));
    }

    /** The first part of LoadFunction, with LoadCode and the constants */
    method Head(p: Option<bytes>) returns (r: Option<Proto>)
      requires z.Valid()
      modifies z
      ensures z.Valid() && Gave(r, LoadHead(old(z.Remaining()), p), z.Remaining())
    {
      hide Zio.Valid, Zio.Remaining, LoadString, LoadInt, LoadCodes, LoadConsts;
      var source := String();
      if source.None? { return None; }
      var linedefined := Int();
      if linedefined.None? { return None; }
      var lastlinedefined := Int();
      if lastlinedefined.None? { return None; }
      var b := Block(4);
      if b.None? { return None; }
      var n := Int();
      if n.None? { return None; }
      var code := Codes(n.value);
      if code.None? { return None; }
      var nk := Int();
      if nk.None? { return None; }
      var k := Constants(nk.value);
      if k.None? { return None; }
      r := Some(Proto(if source.value.None? then p else source.value, linedefined.value, lastlinedefined.value,
                      b.value[0], b.value[1], b.value[2], b.value[3], code.value, k.value, [], [], [], []));
    }

    method Debug(f: Proto) returns (r: Option<Proto>)
      requires z.Valid()
      modifies z
      ensures z.Valid() && Gave(r, LoadDebug(old(z.Remaining()), f), z.Remaining())
    {
      var n := Int();
      if n.None? { return None; }
      var b := Block(SIZE_INT * n.value);
      if b.None? { return None; }
      var m := Int();
      if m.None? { return None; }
      var locvars := LocVars(m.value);
      if locvars.None? { return None; }
      var u := Int();
      if u.None? { return None; }
      var upvalues := Strings(u.value);
      if upvalues.None? { return None; }
      r := Some(f.(lineinfo := Ints(b.value, n.value), locvars := locvars.value, upvalues := upvalues.value));
    }

    method Function(p: Option<bytes>) returns (r: Option<Proto>)
      requires z.Valid()
      modifies z
      ensures z.Valid() && Gave(r, LoadFunction(old(z.Remaining()), p, check), z.Remaining())
      decreases |z.Remaining()|, 0
    {
      hide Zio.Valid, Zio.Remaining, LoadInt, LoadHead, LoadDebug;
      ghost var s := z.Remaining();
      var f := Head(p);
      if f.None? { return None; }
      var n := Int();
      if n.None? { return None; }
      var ps: seq<Proto> := [];
      ghost var start := z.Remaining();
      assert |start| < |s|;
      PrependNone(LoadProtos(start, n.value, f.value.source, check));
      while |ps| < n.value
        invariant z.Valid() && |ps| <= n.value && |z.Remaining()| <= |start|
        invariant LoadProtos(start, n.value, f.value.source, check)
          == Prepend(ps, LoadProtos(z.Remaining(), n.value - |ps|, f.value.source, check))
      {
        var g := Function(f.value.source);
        if g.None? { return None; }
        PrependOne(ps, g.value, LoadProtos(z.Remaining(), n.value - |ps| - 1, f.value.source, check));
        ps := ps + [g.value];
      }
      assert ps + [] == ps;
      var d := Debug(f.value.(p := ps));
      if d.None? { return None; }
      r := if check(d.value) then d else None;
    }

    /** luaU_undump, after LoadHeader */
    method Load() returns (r: Option<Proto>)
      requires z.Valid()
      modifies z
      ensures z.Valid() && Gave(r, Undump(old(z.Remaining()), check), z.Remaining())
    {
      var h := Block(|HEADER|);
      if h.None? || h.value != HEADER { return None; }
      r := Function(UNKNOWN);
    }
  }

  lemma PrependNone<T>(r: R<seq<T>>)
    ensures Prepend([], r) == r
  {
    match r
    case Bad =>
    case Ok(v, rest) => assert [] + v == v;
  }

  lemma PrependOne<T>(q: seq<T>, x: T, r: R<seq<T>>)
    ensures Prepend(q, Prepend([x], r)) == Prepend(q + [x], r)
  {
    match r
    case Bad =>
    case Ok(v, rest) => assert q + ([x] + v) == q + [x] + v;
  }

  /** However the dumped bytes are cut into pieces, loading them gives the function back. */
  method LoadPieces(f: Proto, strip: bool, check: Proto -> bool, chunks: seq<bytes>) returns (r: Option<Proto>)
    requires ProtoOk(f) && Checked(Loaded(f, UNKNOWN, strip), check)
    requires Flat(chunks) == Dump(f, strip) && forall i :: 0 <= i < |chunks| ==> chunks[i] != []
    ensures r == Some(Loaded(f, UNKNOWN, strip))
  {
    RoundTrip(f, strip, check);
    var z := new Zio(chunks);
    var s := new LoadState(z, check);
    r := s.Load();
  }
}
