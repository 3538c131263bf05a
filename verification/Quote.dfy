/** Quoting a string with %q (lstrlib.c) and reading it back with the lexer (llex.c). */
module Quote {
  import opened Basics

  const QUOTE: byte := '"' as int
  const BACKSLASH: byte := '\\' as int
  const NEWLINE: byte := 10
  const RETURN: byte := 13

  // ---- addquoted ------------------------------------------------------------------

  function QuotedByte(c: byte): bytes {
    if c == QUOTE || c == BACKSLASH || c == NEWLINE then [BACKSLASH, c]
    else if c == RETURN then [BACKSLASH, 'r' as int]
    else if c == 0 then [BACKSLASH, '0' as int, '0' as int, '0' as int]
    else [c]
  }

  function QuotedBody(s: bytes): bytes {
    if s == [] then [] else QuotedByte(s[0]) + QuotedBody(s[1..])
  }

  /** The text that addquoted writes for a string */
  function Quoted(s: bytes): bytes { [QUOTE] + QuotedBody(s) + [QUOTE] }

  /** addquoted appends to a buffer. */
  method AddQuoted(b: bytes, s: bytes) returns (r: bytes)
    ensures r == b + Quoted(s)
  {
    r := b + [QUOTE];
    var i := 0;
    assert s[0..] == s;
    while i < |s|
      invariant i <= |s| && r + QuotedBody(s[i..]) == b + [QUOTE] + QuotedBody(s)
    {
      assert s[i..][1..] == s[i + 1..];
      assert r + (QuotedByte(s[i]) + QuotedBody(s[i + 1..])) == r + QuotedByte(s[i]) + QuotedBody(s[i + 1..]);
      if s[i] == QUOTE || s[i] == BACKSLASH || s[i] == NEWLINE {
        r := r + [BACKSLASH, s[i]];
      } else if s[i] == RETURN {
        r := r + [BACKSLASH, 'r' as int];
      } else if s[i] == 0 {
        r := r + [BACKSLASH, '0' as int, '0' as int, '0' as int];
      } else {
        r := r + [s[i]];
      }
      i := i + 1;
    }
    assert s[i..] == [] && r == b + [QUOTE] + QuotedBody(s);
    r := r + [QUOTE];
    assert r == b + Quoted(s);
  }

  // ---- read_string ------------------------------------------------------------------

  const EOZ: int := -1


  const UCHAR_MAX: nat := 255

  function At(input: bytes, pos: nat): int { if pos < |input| then input[pos] else EOZ }

  predicate IsNewline(c: int) { c == NEWLINE || c == RETURN }


  /** A token, the place behind it and the line there; or an error */
  datatype Token = Token(s: bytes, pos: nat, line: nat) | LexError

  /** inclinenumber: the place behind one or both characters of a line end */
  function SkipNewline(input: bytes, pos: nat): (r: nat)
    requires pos < |input|
    ensures pos < r <= |input|
  {
    var next := At(input, pos + 1);
    if IsNewline(next) && next != input[pos] then pos + 2 else pos + 1
  }

  /** The escapes of one letter */
  function Escape(c: int): int {
    if c == 'a' as int then 7
    else if c == 'b' as int then 8
    else if c == 'f' as int then 12
    else if c == 'n' as int then 10
    else if c == 'r' as int then 13
    else if c == 't' as int then 9
    else if c == 'v' as int then 11
    else EOZ
  }

  /** \\xxx: up to three digits */
  function Digits(input: bytes, pos: nat, i: nat, c: nat): (r: (nat, nat))
    requires pos <= |input| && i <= 3
    ensures pos <= r.1 <= |input| && (i < 3 && IsDigit(At(input, pos)) ==> pos < r.1)
    decreases 3 - i
  {
    if i < 3 && IsDigit(At(input, pos)) then Digits(input, pos + 1, i + 1, 10 * c + (input[pos] - '0' as int))
        else (c, pos)
  }

  /** read_string from behind the opening delimiter */
  function ReadString(input: bytes, pos: nat, del: byte, line: nat, acc: bytes): Token
    requires pos <= |input|
    decreases |input| - pos
  {
    var c := At(input, pos);
    if c == del then Token(acc, pos + 1, line)
    else if c == EOZ || IsNewline(c) then LexError
    else if c == BACKSLASH then
      var d := At(input, pos + 1);
      if Escape(d) != EOZ then ReadString(input, pos + 2, del, line, acc + [Escape(d)])
      else if IsNewline(d) then
        if line + 1 >= MAX_INT then LexError
        else ReadString(input, SkipNewline(input, pos + 1), del, line + 1, acc + [NEWLINE])
      else if d == EOZ then ReadString(input, pos + 1, del, line, acc)
      else if !IsDigit(d) then ReadString(input, pos + 2, del, line, acc + [input[pos + 1]])
      else
        var (v, next) := Digits(input, pos + 1, 0, 0);
        if v > UCHAR_MAX then LexError else ReadString(input, next, del, line, acc + [v])
    else ReadString(input, pos + 1, del, line, acc + [input[pos]])
  }

  class LexState {
    const input: bytes
    var pos: nat              // the current character is input[pos], or EOZ
    var buff: bytes
    var linenumber: nat

    ghost predicate Valid()
      reads this
    {
      pos <= |input|
    }

    constructor (input: bytes)
      ensures Valid() && this.input == input && pos == 0 && buff == [] && linenumber == 1
    {
      this.input, pos, buff, linenumber := input, 0, [], 1;
    }

    method Save(c: byte)
      modifies this`buff
      ensures buff == old(buff) + [c]
    {
      buff := buff + [c];
    }

    method SaveAndNext()
      requires Valid() && pos < |input|
      modifies this`buff, this`pos
      ensures Valid() && buff == old(buff) + [input[old(pos)]] && pos == old(pos) + 1
    {
      Save(input[pos]);
      pos := pos + 1;
    }

    method IncLineNumber() returns (ok: bool)
      requires Valid() && pos < |input| && IsNewline(input[pos])
      modifies this`pos, this`linenumber
      ensures Valid() && pos == SkipNewline(input, old(pos)) && linenumber == old(linenumber) + 1
      ensures ok <==> linenumber < MAX_INT
    {
      var was := At(input, pos);
      pos := pos + 1;
      if IsNewline(At(input, pos)) && At(input, pos) != was { pos := pos + 1; }
      linenumber := linenumber + 1;
      ok := linenumber < MAX_INT;
    }

    /** The case of read_string for a backslash, with what has been read so far in `acc' */
    method ReadEscape(del: byte, ghost acc: bytes) returns (ok: bool, ghost more: bytes)
      requires Valid() && pos < |input| && input[pos] == BACKSLASH != del
      modifies this
      ensures Valid() && pos > old(pos) && buff == old(buff) + more
      ensures ReadString(input, old(pos), del, old(linenumber), acc)
        == if ok then ReadString(input, pos, del, linenumber, acc + more) else LexError
    {
      more := [];
      ok := true;
      assert old(buff) + [] == old(buff) && acc + [] == acc;
      pos := pos + 1;  // do not save the backslash
      var d := At(input, pos);
      if Escape(d) != EOZ {
        Save(Escape(d));
        more := [Escape(d)];
        pos := pos + 1;
      } else if IsNewline(d) {
        Save(NEWLINE);
        more := [NEWLINE];
        ok := IncLineNumber();
      } else if d == EOZ {
        // the next round raises an error
      } else if !IsDigit(d) {
        more := [input[pos]];
        SaveAndNext();
      } else {
        var i: nat, v: nat := 0, 0;
        ghost var p := pos;
        while i < 3 && IsDigit(At(input, pos))
          invariant i <= 3 && p <= pos <= |input| && (i > 0 ==> p < pos)
          invariant buff == old(buff) && linenumber == old(linenumber)
          invariant Digits(input, pos, i, v) == Digits(input, p, 0, 0)
        {
          v := 10 * v + (input[pos] - '0' as int);
          pos := pos + 1;
          i := i + 1;
        }
        assert Digits(input, p, 0, 0) == (v, pos);
        if v > UCHAR_MAX {
          ok := false;
        } else {
          Save(v);
          more := [v];
        }
      }
    }

    /** read_string: `del' is the delimiter, which the current character is. */
    method ReadStringToken(del: byte) returns (t: Token)
      requires Valid() && pos < |input| && input[pos] == del != BACKSLASH && buff == []
      modifies this
      ensures t == ReadString(input, old(pos) + 1, del, old(linenumber), [])
    {
      hide Escape, Digits;
      ghost var want := ReadString(input, pos + 1, del, linenumber, []);
      SaveAndNext();
      ghost var acc: bytes := [];
      while At(input, pos) != del
        invariant Valid() && buff == [del] + acc
        invariant want == ReadString(input, pos, del, linenumber, acc)
        decreases |input| - pos
      {
        var c := At(input, pos);
        if c == EOZ || IsNewline(c) { return LexError; }
        ghost var more;
        if c == BACKSLASH {
          var ok;
          ok, more := ReadEscape(del, acc);
          if !ok { return LexError; }
        } else {
          more := [input[pos]];
          SaveAndNext();
        }
        assert [del] + acc + more == [del] + (acc + more);
        acc := acc + more;
      }
      SaveAndNext();  // skip delimiter
      assert buff == [del] + acc + [del] && buff[1..|buff| - 1] == acc;
      return Token(buff[1..|buff| - 1], pos, linenumber);
    }
  }

  // ---- the round trip ------------------------------------------------------------------

  /** The lines a string spans */
  function Lines(s: bytes): nat {
    if s == [] then 0 else (if s[0] == NEWLINE then 1 else 0) + Lines(s[1..])
  }

  lemma Regrouped(a: bytes, b: bytes, c: bytes, d: bytes)
    ensures a + (b + c) + [QUOTE] + d == (a + b) + c + [QUOTE] + d
  {
  }

  lemma {:induction false} BodyBack(before: bytes, s: bytes, after: bytes, line: nat, acc: bytes)
    requires line + Lines(s) < MAX_INT
    ensures var input := before + QuotedBody(s) + [QUOTE] + after;
      ReadString(input, |before|, QUOTE, line, acc)
        == Token(acc + s, |before| + |QuotedBody(s)| + 1, line + Lines(s))
    decreases |s|
  {
    hide Digits, Escape, ReadString, QuotedByte;
    EndOfString(before + QuotedBody(s) + [QUOTE] + after, |before|, line, acc);
    var input := before + QuotedBody(s) + [QUOTE] + after;
    if s == [] {
      assert At(input, |before|) == QUOTE;
      assert acc + s == acc;
    } else {
      var q, rest := QuotedByte(s[0]), QuotedBody(s[1..]);
      Regrouped(before, q, rest, after);
      BodyBack(before + q, s[1..], after, line + (if s[0] == NEWLINE then 1 else 0), acc + [s[0]]);
      assert acc + [s[0]] + s[1..] == acc + s;
      BytesAt(before, q, rest, after);
      NextNotNewline(s[1..], after);
      ReadOne(input, |before|, s[0], line, acc);
    }
  }

  lemma EndOfString(input: bytes, pos: nat, line: nat, acc: bytes)
    requires pos <= |input|
    ensures At(input, pos) == QUOTE ==> ReadString(input, pos, QUOTE, line, acc) == Token(acc, pos + 1, line)
  {
  }

  /** Where the bytes of a quoted character are */
  lemma BytesAt(before: bytes, q: bytes, rest: bytes, after: bytes)
    ensures var input := before + q + rest + [QUOTE] + after;
      && (forall i :: 0 <= i < |q| ==> At(input, |before| + i) == q[i])
      && At(input, |before| + |q|) == (rest + [QUOTE])[0]
      && input == before + (q + rest) + [QUOTE] + after
  {
  }

  lemma NextNotNewline(s: bytes, after: bytes)
    ensures !IsNewline((QuotedBody(s) + [QUOTE])[0])
  {
  }

  /** Reading one quoted character gives the character. */
  lemma ReadOne(input: bytes, pos: nat, c: byte, line: nat, acc: bytes)
    requires pos + |QuotedByte(c)| <= |input| && (c == NEWLINE ==> line + 1 < MAX_INT)
    requires forall i :: 0 <= i < |QuotedByte(c)| ==> At(input, pos + i) == QuotedByte(c)[i]
    requires !IsNewline(At(input, pos + |QuotedByte(c)|))
    ensures ReadString(input, pos, QUOTE, line, acc)
      == ReadString(input, pos + |QuotedByte(c)|, QUOTE, if c == NEWLINE then line + 1 else line, acc + [c])
  {
    assert At(input, pos) == QuotedByte(c)[0];
    if c == 0 {
      assert At(input, pos + 1) == QuotedByte(c)[1] && At(input, pos + 2) == QuotedByte(c)[2];
      assert At(input, pos + 3) == QuotedByte(c)[3];
      assert Digits(input, pos + 3, 2, 0) == (0, pos + 4);
      assert Digits(input, pos + 1, 0, 0) == (0, pos + 4);
    } else if |QuotedByte(c)| == 2 {
      assert At(input, pos + 1) == QuotedByte(c)[1];
    }
  }

  /** For every string, the lexer reads from its quoted form the string itself. */
  lemma QuoteRoundTrip(s: bytes, after: bytes, line: nat)
    requires line + Lines(s) < MAX_INT
    ensures var input := Quoted(s) + after;
      input[0] == QUOTE && ReadString(input, 1, QUOTE, line, []) == Token(s, |Quoted(s)|, line + Lines(s))
  {
    BodyBack([QUOTE], s, after, line, []);
    assert [] + s == s;
  }
}
