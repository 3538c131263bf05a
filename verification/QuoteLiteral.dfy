/** What a short literal string stands for (section 2.1 of the Lua 5.1 Reference Manual); read_string is exact. */
module QuoteLiteral {
  import opened Basics
  import opened Quote

  /** One piece of a literal string, as it is written */
  datatype Piece =
    | Plain(c: byte)               // a character that stands for itself
    | Named(letter: byte)          // `\a', `\n', ...
    | Numbered(digits: bytes)      // `\ddd'
    | Broken(ends: bytes)          // a backslash and a line end
    | Literal(c: byte)             // a backslash and a character that stands for itself

  /** The characters that the letters behind a backslash name; -1 for any other character */
  function LetterMeans(c: int): int {
    if c == 'a' as int then 7         // bell
    else if c == 'b' as int then 8    // backspace
    else if c == 't' as int then 9    // horizontal tab
    else if c == 'n' as int then 10   // newline
    else if c == 'v' as int then 11   // vertical tab
    else if c == 'f' as int then 12   // form feed
    else if c == 'r' as int then 13   // carriage return
    else -1
  }

  predicate IsDecimal(d: bytes) { 1 <= |d| <= 3 && forall k :: 0 <= k < |d| ==> IsDigit(d[k]) }

  function Figure(c: int): int { c - '0' as int }

  /** The number that one to three digits denote */
  function DecimalValue(d: bytes): (v: int)
    requires IsDecimal(d)
    ensures v >= 0
  {
    if |d| == 1 then Figure(d[0])
    else if |d| == 2 then 10 * Figure(d[0]) + Figure(d[1])
    else 100 * Figure(d[0]) + 10 * Figure(d[1]) + Figure(d[2])
  }

  predicate IsPart(p: Piece) {
    match p
    case Named(letter) => LetterMeans(letter) != -1
    case Numbered(d) => IsDecimal(d) && DecimalValue(d) <= 255
    case _ => true
  }

  type Part = p: Piece | IsPart(p) witness Plain(0)

  function Spelling(p: Part): (r: bytes)
    ensures |r| > 0
  {
    match p
    case Plain(c) => [c]
    case Named(letter) => [BACKSLASH, letter]
    case Numbered(d) => [BACKSLASH] + d
    case Broken(q) => [BACKSLASH] + q
    case Literal(c) => [BACKSLASH, c]
  }

  function Meaning(p: Part): byte {
    match p
    case Plain(c) => c
    case Named(letter) => LetterMeans(letter)
    case Numbered(d) => DecimalValue(d)
    case Broken(_) => 10
    case Literal(c) => c
  }

  /** Whether a piece may stand before the byte `next' in a string that ends with `del' */
  predicate MayStand(p: Part, del: byte, next: byte) {
    match p
    case Plain(c) => c != del && c != BACKSLASH && c != 10 && c != 13
    case Named(_) => true
    case Numbered(d) => |d| < 3 ==> !IsDigit(next)
    case Broken(q) => q == [10, 13] || q == [13, 10] || (q == [10] && next != 13) || (q == [13] && next != 10)
    case Literal(c) => c != 10 && c != 13 && !IsDigit(c) && LetterMeans(c) == -1
  }

  /** From `pos' on the input spells the pieces and then the delimiter, which ends before `e'. */
  predicate Spells(input: bytes, pos: nat, e: nat, del: byte, q: seq<Part>)
    decreases |q|
  {
    if q == [] then pos < |input| && input[pos] == del && e == pos + 1
    else
      var w := Spelling(q[0]);
      && pos + |w| < |input| && input[pos..pos + |w|] == w
      && MayStand(q[0], del, input[pos + |w|]) && Spells(input, pos + |w|, e, del, q[1..])
  }

  /** The string that the pieces stand for */
  function Denotes(q: seq<Part>): bytes {
    if q == [] then [] else [Meaning(q[0])] + Denotes(q[1..])
  }

  /** How many lines end inside the string */
  function Breaks(q: seq<Part>): nat {
    if q == [] then 0 else (if q[0].Broken? then 1 else 0) + Breaks(q[1..])
  }

  // ---- one piece ------------------------------------------------------------------

  predicate Delimiter(del: byte) { del == '"' as int || del == '\'' as int }

  lemma ReadDigits(input: bytes, pos: nat, d: bytes)
    requires IsDecimal(d) && pos + |d| <= |input| && input[pos..pos + |d|] == d
    requires |d| < 3 ==> !IsDigit(At(input, pos + |d|))
    ensures Digits(input, pos, 0, 0) == (DecimalValue(d), pos + |d|)
  {
    assert input[pos] == d[0];
    if |d| > 1 { assert input[pos + 1] == d[1]; }
    if |d| > 2 { assert input[pos + 2] == d[2]; }
    var v: nat := Figure(d[0]);
    assert Digits(input, pos, 0, 0) == Digits(input, pos + 1, 1, v);
    if |d| > 1 {
      assert Digits(input, pos + 1, 1, v) == Digits(input, pos + 2, 2, 10 * v + Figure(d[1]));
      if |d| > 2 {
        assert Digits(input, pos + 2, 2, 10 * v + Figure(d[1])) == Digits(input, pos + 3, 3, DecimalValue(d));
      }
    }
  }

  /** What one round of read_string does with a piece */
  ghost predicate PieceRead(input: bytes, pos: nat, del: byte, line: nat, acc: bytes, p: Part)
    requires pos + |Spelling(p)| <= |input|
  {
    ReadString(input, pos, del, line, acc)
      == if p.Broken? && line + 1 >= MAX_INT then LexError
         else ReadString(input, pos + |Spelling(p)|, del, if p.Broken? then line + 1 else line, acc + [Meaning(p)])
  }

  lemma ReadPiece(input: bytes, pos: nat, del: byte, line: nat, acc: bytes, p: Part)
    requires Delimiter(del)
    requires var w := Spelling(p);
      pos + |w| < |input| && input[pos..pos + |w|] == w && MayStand(p, del, input[pos + |w|])
    ensures PieceRead(input, pos, del, line, acc, p)
  {
    var w := Spelling(p);
    assert input[pos] == w[0];
    if |w| > 1 { assert input[pos + 1] == w[1]; }
    match p
    case Plain(c) =>
    case Named(letter) =>
    case Literal(c) =>
    case Numbered(d) => ReadNumbered(input, pos, del, line, acc, p);
    case Broken(q) =>
      if |q| == 2 { assert input[pos + 2] == w[2]; }
  }

  lemma ReadNumbered(input: bytes, pos: nat, del: byte, line: nat, acc: bytes, p: Part)
    requires Delimiter(del) && p.Numbered?
    requires var w := Spelling(p);
      pos + |w| < |input| && input[pos..pos + |w|] == w && MayStand(p, del, input[pos + |w|])
    ensures PieceRead(input, pos, del, line, acc, p)
  {
    hide Digits;
    var d, w := p.digits, Spelling(p);
    assert input[pos] == w[0] && input[pos + 1] == w[1] == d[0];
    assert input[pos + 1..pos + 1 + |d|] == d by { assert input[pos..pos + |w|][1..] == d; }
    ReadDigits(input, pos + 1, d);
  }

  /** A literal that spells the pieces is read as what they stand for. */
  lemma {:induction false} ReadPieces(input: bytes, pos: nat, e: nat, del: byte, line: nat, acc: bytes, q: seq<Part>)
    requires Delimiter(del) && Spells(input, pos, e, del, q)
    ensures ReadString(input, pos, del, line, acc)
      == if Breaks(q) > 0 && line + Breaks(q) >= MAX_INT then LexError
         else Token(acc + Denotes(q), e, line + Breaks(q))
    decreases |q|
  {
    hide ReadString, MayStand, Meaning, Spelling;
    if q == [] {
      ReadEnd(input, pos, del, line, acc);
      assert acc + Denotes(q) == acc;
    } else {
      ReadPiece(input, pos, del, line, acc, q[0]);
      var line' := if q[0].Broken? then line + 1 else line;
      if line' == line || line' < MAX_INT {
        ReadPieces(input, pos + |Spelling(q[0])|, e, del, line', acc + [Meaning(q[0])], q[1..]);
        assert acc + [Meaning(q[0])] + Denotes(q[1..]) == acc + Denotes(q);
      }
    }
  }

  lemma ReadEnd(input: bytes, pos: nat, del: byte, line: nat, acc: bytes)
    requires pos < |input| && input[pos] == del
    ensures ReadString(input, pos, del, line, acc) == Token(acc, pos + 1, line)
  {
  }

  // ---- the other way round ----------------------------------------------------------

  ghost predicate StandsAt(input: bytes, pos: nat, del: byte, p: Part) {
    var w := Spelling(p);
    pos + |w| < |input| && input[pos..pos + |w|] == w && MayStand(p, del, input[pos + |w|])
  }

  /** Whether read_string goes on at `pos', or behind what stands there, to a token */
  ghost predicate Succeeds(input: bytes, pos: nat, del: byte, line: nat, acc: bytes)
    requires pos <= |input|
  {
    ReadString(input, pos, del, line, acc).Token?
  }

  lemma NeverAtEnd(input: bytes, pos: nat, del: byte, line: nat, acc: bytes)
    requires pos <= |input| && Succeeds(input, pos, del, line, acc)
    ensures pos < |input|
  {
  }

  /** The piece that is written at `pos' when read_string succeeds from there */
  lemma PieceAt(input: bytes, pos: nat, del: byte, line: nat, acc: bytes) returns (p: Part)
    requires Delimiter(del) && pos < |input| && input[pos] != del && Succeeds(input, pos, del, line, acc)
    ensures StandsAt(input, pos, del, p)
  {
    hide ReadString, Digits, Succeeds;
    var d := At(input, pos + 1);
    if input[pos] != BACKSLASH {
      p := PlainAt(input, pos, del, line, acc);
    } else if IsNewline(d) {
      p := BrokenAt(input, pos, del, line, acc);
    } else if IsDigit(d) {
      p := NumberedAt(input, pos, del, line, acc);
    } else {
      p := EscapeAt(input, pos, del, line, acc);
    }
  }

  lemma PlainAt(input: bytes, pos: nat, del: byte, line: nat, acc: bytes) returns (p: Part)
    requires Delimiter(del) && pos < |input| && input[pos] != del && Succeeds(input, pos, del, line, acc)
    requires input[pos] != BACKSLASH
    ensures StandsAt(input, pos, del, p)
  {
    p := Plain(input[pos]);
    assert Succeeds(input, pos + 1, del, line, acc + [input[pos]]);
    NeverAtEnd(input, pos + 1, del, line, acc + [input[pos]]);
  }

  lemma BrokenAt(input: bytes, pos: nat, del: byte, line: nat, acc: bytes) returns (p: Part)
    requires Delimiter(del) && pos < |input| && Succeeds(input, pos, del, line, acc)
    requires input[pos] == BACKSLASH && IsNewline(At(input, pos + 1))
    ensures StandsAt(input, pos, del, p)
  {
    var next := SkipNewline(input, pos + 1);
    p := Broken(input[pos + 1..next]);
    assert Succeeds(input, next, del, line + 1, acc + [NEWLINE]);
    NeverAtEnd(input, next, del, line + 1, acc + [NEWLINE]);
  }

  lemma EscapeAt(input: bytes, pos: nat, del: byte, line: nat, acc: bytes) returns (p: Part)
    requires Delimiter(del) && pos < |input| && Succeeds(input, pos, del, line, acc)
    requires input[pos] == BACKSLASH && !IsNewline(At(input, pos + 1)) && !IsDigit(At(input, pos + 1))
    ensures StandsAt(input, pos, del, p)
  {
    var d := At(input, pos + 1);
    assert d != EOZ by {
      if d == EOZ {
        assert Succeeds(input, pos + 1, del, line, acc);
        NeverAtEnd(input, pos + 1, del, line, acc);
      }
    }
    var x := if LetterMeans(d) != -1 then LetterMeans(d) else d;
    p := if LetterMeans(d) != -1 then Named(d) else Literal(d);
    assert Succeeds(input, pos + 2, del, line, acc + [x]);
    NeverAtEnd(input, pos + 2, del, line, acc + [x]);
  }

  lemma NumberedAt(input: bytes, pos: nat, del: byte, line: nat, acc: bytes) returns (p: Part)
    requires Delimiter(del) && pos < |input| && Succeeds(input, pos, del, line, acc)
    requires input[pos] == BACKSLASH && IsDigit(At(input, pos + 1))
    ensures StandsAt(input, pos, del, p)
  {
    hide Digits;
    var d := DigitsAt(input, pos + 1);
    var next := pos + 1 + |d|;
    p := Numbered(d);
    assert Succeeds(input, next, del, line, acc + [DecimalValue(d)]);
    NeverAtEnd(input, next, del, line, acc + [DecimalValue(d)]);
    assert input[pos..next] == [BACKSLASH] + d;
  }

  lemma DigitsAt(input: bytes, pos: nat) returns (d: bytes)
    requires IsDigit(At(input, pos))
    ensures IsDecimal(d) && pos + |d| <= |input| && input[pos..pos + |d|] == d
    ensures |d| < 3 ==> !IsDigit(At(input, pos + |d|))
    ensures Digits(input, pos, 0, 0) == (DecimalValue(d), pos + |d|)
  {
    hide Digits;
    var n := if !IsDigit(At(input, pos + 1)) then 1 else if !IsDigit(At(input, pos + 2)) then 2 else 3;
    d := input[pos..pos + n];
    ReadDigits(input, pos, d);
  }

  /** Whatever read_string accepts spells some pieces. */
  lemma {:induction false} PiecesRead(input: bytes, pos: nat, del: byte, line: nat, acc: bytes)
      returns (q: seq<Part>, e: nat)
    requires Delimiter(del) && pos <= |input| && Succeeds(input, pos, del, line, acc)
    ensures Spells(input, pos, e, del, q)
    decreases |input| - pos
  {
    NeverAtEnd(input, pos, del, line, acc);
    hide ReadString, MayStand, Meaning, Spelling, Spells;
    if input[pos] == del {
      q, e := [], pos + 1;
      SpellsNothing(input, pos, del);
    } else {
      var p := PieceAt(input, pos, del, line, acc);
      ReadPiece(input, pos, del, line, acc, p);
      q, e := PiecesRead(input, pos + |Spelling(p)|, del, if p.Broken? then line + 1 else line, acc + [Meaning(p)]);
      SpellsMore(input, pos, e, del, p, q);
      q := [p] + q;
    }
  }

  lemma SpellsNothing(input: bytes, pos: nat, del: byte)
    requires pos < |input| && input[pos] == del
    ensures Spells(input, pos, pos + 1, del, [])
  {
  }

  lemma SpellsMore(input: bytes, pos: nat, e: nat, del: byte, p: Part, q: seq<Part>)
    requires StandsAt(input, pos, del, p) && Spells(input, pos + |Spelling(p)|, e, del, q)
    ensures Spells(input, pos, e, del, [p] + q)
  {
    assert ([p] + q)[0] == p && ([p] + q)[1..] == q;
  }

  /** What read_string makes of a literal that spells the pieces */
  function Reading(q: seq<Part>, e: nat, line: nat): Token {
    if Breaks(q) > 0 && line + Breaks(q) >= MAX_INT then LexError else Token(Denotes(q), e, line + Breaks(q))
  }

  /**
   read_string is exact: it returns a token if and only if the input spells pieces, up to a
   delimiter, and then the token is the string that they stand for. Too many lines are an error.
   */
  lemma ReadStringExact(input: bytes, pos: nat, del: byte, line: nat, s: bytes, e: nat, last: nat)
    requires Delimiter(del) && pos <= |input|
    ensures ReadString(input, pos, del, line, []) == Token(s, e, last)
      <==> exists q :: Spells(input, pos, e, del, q) && Reading(q, e, line) == Token(s, e, last)
  {
    hide ReadString, Spells;
    if ReadString(input, pos, del, line, []) == Token(s, e, last) {
      var q, e' := PiecesRead(input, pos, del, line, []);
      ReadPieces(input, pos, e', del, line, [], q);
      assert [] + Denotes(q) == Denotes(q);
      assert Spells(input, pos, e, del, q) && Reading(q, e, line) == Token(s, e, last);
    }
    forall q | Spells(input, pos, e, del, q) && Reading(q, e, line) == Token(s, e, last)
      ensures ReadString(input, pos, del, line, []) == Token(s, e, last) {
      ReadPieces(input, pos, e, del, line, [], q);
      assert [] + Denotes(q) == Denotes(q);
    }
  }

  // ---- every byte by its number -------------------------------------------------------

  /** Three decimal digits for a byte */
  function ThreeDigits(c: byte): bytes { [48 + c / 100, 48 + c / 10 % 10, 48 + c % 10] }

  lemma ThreeDigitsValue(c: byte)
    ensures IsDecimal(ThreeDigits(c)) && DecimalValue(ThreeDigits(c)) == c
  {
  }

  /** A string with every byte written as three digits */
  function AllNumbered(s: bytes): bytes {
    if s == [] then [] else [BACKSLASH] + ThreeDigits(s[0]) + AllNumbered(s[1..])
  }

  lemma {:induction false} AllNumberedBack(input: bytes, pos: nat, del: byte, s: bytes)
      returns (q: seq<Part>)
    requires var n := pos + |AllNumbered(s)|; n < |input| && input[pos..n] == AllNumbered(s) && input[n] == del
    ensures Spells(input, pos, pos + |AllNumbered(s)| + 1, del, q) && Denotes(q) == s && Breaks(q) == 0
    decreases |s|
  {
    hide Spells, ThreeDigits, DecimalValue;
    if s == [] {
      q := [];
      SpellsNothing(input, pos, del);
    } else {
      var d, rest := ThreeDigits(s[0]), AllNumbered(s[1..]);
      ThreeDigitsValue(s[0]);
      assert |d| == 3 by { ThreeDigitsLength(s[0]); }
      var p := Numbered(d);
      var n := pos + |AllNumbered(s)|;
      assert input[pos..n] == [BACKSLASH] + d + rest;
      assert input[pos..pos + 4] == input[pos..n][..4] == [BACKSLASH] + d;
      assert input[pos + 4..n] == input[pos..n][4..] == rest;
      var r := AllNumberedBack(input, pos + 4, del, s[1..]);
      SpellsMore(input, pos, n + 1, del, p, r);
      q := [p] + r;
      assert q[1..] == r && Denotes(q) == [s[0]] + s[1..];
    }
  }

  lemma ThreeDigitsLength(c: byte)
    ensures |ThreeDigits(c)| == 3
  {
  }

  /** Every string comes back from its bytes written as numbers. */
  lemma NumbersRoundTrip(s: bytes, after: bytes, line: nat)
    ensures var input := [QUOTE] + AllNumbered(s) + [QUOTE] + after;
      ReadString(input, 1, QUOTE, line, []) == Token(s, |AllNumbered(s)| + 2, line)
  {
    hide ReadString, Spells, AllNumbered;
    var w := AllNumbered(s);
    var input := [QUOTE] + w + [QUOTE] + after;
    assert input[1..1 + |w|] == w && input[1 + |w|] == QUOTE;
    var q := AllNumberedBack(input, 1, QUOTE, s);
    ReadPieces(input, 1, |w| + 2, QUOTE, line, [], q);
    assert [] + s == s;
  }

  /** A number above the range of a character is an error. */
  lemma NumberTooLarge(input: bytes, pos: nat, del: byte, line: nat, acc: bytes, d: bytes)
    requires Delimiter(del) && IsDecimal(d) && DecimalValue(d) > 255
    requires pos + 1 + |d| <= |input| && input[pos..pos + 1 + |d|] == [BACKSLASH] + d
    ensures ReadString(input, pos, del, line, acc) == LexError
  {
    assert |d| == 3;
    assert input[pos + 1..pos + 4] == input[pos..pos + 4][1..] == d;
    assert input[pos] == input[pos..pos + 4][0] && input[pos + 1] == d[0];
    ReadDigits(input, pos + 1, d);
  }
}
