/**
 What the parts of a pattern that match one character mean (section 5.4.1 of the Lua 5.1 Reference
 Manual), and what captures stand for, apart from how the matcher scans them.
 */
module PatternClasses {
  import opened Basics
  import opened Pattern

  // ---- classes named by a letter ----------------------------------------------

  /** From `lo' to `hi', both included */
  predicate Between(c: byte, lo: char, hi: char) { lo as int <= c <= hi as int }

  /** Whether a character is in the class of that name, in the C locale; none if the letter names no class */
  function ClassHas(letter: byte, c: byte): Option<bool> {
    if letter == 'a' as int then Some(Between(c, 'A', 'Z') || Between(c, 'a', 'z'))
    else if letter == 'c' as int then Some(Between(c, '\0', '\U{1F}') || c == 127)
    else if letter == 'd' as int then Some(Between(c, '0', '9'))
    else if letter == 'l' as int then Some(Between(c, 'a', 'z'))
    else if letter == 'p' as int then
      Some(Between(c, '!', '/') || Between(c, ':', '@') || Between(c, '[', '`') || Between(c, '{', '~'))
    else if letter == 's' as int then Some(Between(c, '\t', '\r') || c == ' ' as int)
    else if letter == 'u' as int then Some(Between(c, 'A', 'Z'))
    else if letter == 'w' as int then Some(Between(c, '0', '9') || Between(c, 'A', 'Z') || Between(c, 'a', 'z'))
    else if letter == 'x' as int then Some(Between(c, '0', '9') || Between(c, 'A', 'F') || Between(c, 'a', 'f'))
    else if letter == 'z' as int then Some(c == 0)
    else None
  }

  /** What `%' and a character match: a class, the complement of one, or the character itself */
  predicate Named(letter: byte, c: byte) {
    if ClassHas(letter, c).Some? then ClassHas(letter, c).value
    else if Between(letter, 'A', 'Z') && ClassHas(letter + 32, c).Some? then !ClassHas(letter + 32, c).value
    else c == letter
  }

  /** match_class tests what is meant. */
  lemma MatchClassExact(c: byte, cl: byte)
    ensures MatchClass(c, cl) <==> Named(cl, c)
  {
  }

  // ---- sets of characters -----------------------------------------------------

  /** A member of a set as it is written: `x-y', `%x' or a character */
  datatype Member = Range(lo: byte, hi: byte) | Letter(letter: byte) | Single(c: byte)

  /** Whether a member holds a character; a range includes both its ends. */
  predicate Covers(m: Member, c: byte) {
    match m
    case Range(lo, hi) => lo <= c && c <= hi
    case Letter(letter) => Named(letter, c)
    case Single(x) => c == x
  }

  /** The members written from `p' up to `ec'; a `%' in the last place takes the closing bracket with it. */
  function Members(pat: bytes, p: nat, ec: nat): seq<Member>
    decreases ec - p
  {
    if p >= ec then []
    else if At(pat, p) == ESC then [Letter(At(pat, p + 1))] + Members(pat, p + 2, ec)
    else if p + 2 < ec && At(pat, p + 1) == DASH then
      [Range(At(pat, p), At(pat, p + 2))] + Members(pat, p + 3, ec)
    else [Single(At(pat, p))] + Members(pat, p + 1, ec)
  }

  /** What an item that matches one character stands for */
  datatype Class = Any | OneOf(members: seq<Member>) | NoneOf(members: seq<Member>)

  ghost predicate InClass(cl: Class, c: byte) {
    match cl
    case Any => true
    case OneOf(q) => exists m :: m in q && Covers(m, c)
    case NoneOf(q) => forall m :: m in q ==> !Covers(m, c)
  }

  /** The class written from `p' to `ep' */
  function ClassAt(pat: bytes, p: nat, ep: nat): Class
    requires ep > 0
  {
    var x := At(pat, p);
    if x == DOT then Any
    else if x == ESC then OneOf([Letter(At(pat, p + 1))])
    else if x == LBRACK && At(pat, p + 1) == CARET then NoneOf(Members(pat, p + 2, ep - 1))
    else if x == LBRACK then OneOf(Members(pat, p + 1, ep - 1))
    else OneOf([Single(x)])
  }

  /** The scan of matchbracketclass looks for a member that holds the character. */
  lemma {:induction false} InSetExact(pat: bytes, p: nat, ec: nat, c: byte)
    ensures InSet(pat, p, ec, c) <==> exists m :: m in Members(pat, p, ec) && Covers(m, c)
    decreases ec - p
  {
    hide MatchClass, Named;
    if p < ec {
      var q := Members(pat, p, ec);
      if At(pat, p) == ESC {
        MatchClassExact(c, At(pat, p + 1));
        InSetExact(pat, p + 2, ec, c);
        SomeMember(Letter(At(pat, p + 1)), Members(pat, p + 2, ec), c);
      } else if p + 2 < ec && At(pat, p + 1) == DASH {
        InSetExact(pat, p + 3, ec, c);
        SomeMember(Range(At(pat, p), At(pat, p + 2)), Members(pat, p + 3, ec), c);
      } else {
        InSetExact(pat, p + 1, ec, c);
        SomeMember(Single(At(pat, p)), Members(pat, p + 1, ec), c);
      }
    }
  }

  lemma SomeMember(m: Member, q: seq<Member>, c: byte)
    ensures (exists x :: x in [m] + q && Covers(x, c)) <==> Covers(m, c) || exists x :: x in q && Covers(x, c)
  {
    hide Covers;
    if Covers(m, c) { assert m in [m] + q; }
    if exists x :: x in q && Covers(x, c) {
      var x :| x in q && Covers(x, c);
      assert x in [m] + q;
    }
  }

  /** singlematch decides membership in the class that is written there. */
  lemma SingleMatchExact(c: byte, pat: bytes, p: nat, ep: nat)
    requires ep > 0
    ensures SingleMatch(c, pat, p, ep) <==> InClass(ClassAt(pat, p, ep), c)
  {
    hide MatchClass, Named, InSet, Members;
    var x := At(pat, p);
    if x == ESC {
      MatchClassExact(c, At(pat, p + 1));
      SomeMember(Letter(At(pat, p + 1)), [], c);
      assert [Letter(At(pat, p + 1))] + [] == [Letter(At(pat, p + 1))];
    } else if x == LBRACK {
      InSetExact(pat, if At(pat, p + 1) == CARET then p + 2 else p + 1, ep - 1, c);
    } else if x != DOT {
      SomeMember(Single(x), [], c);
      assert [Single(x)] + [] == [Single(x)];
    }
  }

  /** `%f': the character before is outside the set and the one here is in it; both ends read as zero. */
  ghost predicate Border(src: bytes, s: nat, cl: Class) {
    && !InClass(cl, if 0 < s <= |src| then src[s - 1] else 0)
    && InClass(cl, if s < |src| then src[s] else 0)
  }

  lemma AtFrontierExact(src: bytes, s: nat, pat: bytes, p: nat, ep: nat)
    requires ep > 0 && s <= |src| && At(pat, p) == LBRACK
    ensures AtFrontier(src, s, pat, p, ep) <==> Border(src, s, ClassAt(pat, p, ep))
  {
    hide InClass, ClassAt, MatchBracketClass;
    var a, b := if s == 0 then 0 else src[s - 1], if s < |src| then src[s] else 0;
    SingleMatchExact(a, pat, p, ep);
    SingleMatchExact(b, pat, p, ep);
  }

  // ---- where a class ends -----------------------------------------------------

  /** One character of a set as it is written: a character, or `%' and a character */
  predicate SetToken(t: bytes) {
    (|t| == 1 && t[0] != 0 && t[0] != ESC) || (|t| == 2 && t[0] == ESC && t[1] != 0)
  }

  /** What stands between the brackets: a closing bracket of its own only in the first place */
  ghost predicate SetText(q: seq<bytes>) {
    && q != []
    && (forall k :: 0 <= k < |q| ==> SetToken(q[k]))
    && forall k :: 0 < k < |q| ==> q[k] != [RBRACK]
  }

  function Flat(q: seq<bytes>): bytes { if q == [] then [] else q[0] + Flat(q[1..]) }

  /** From `p' on the pattern reads: characters of a set, then the bracket that ends before `e'. */
  ghost predicate SetEnds(pat: bytes, p: nat, e: nat, q: seq<bytes>) {
    SetText(q) && p < e <= |pat| && pat[p..e] == Flat(q) + [RBRACK]
  }

  ghost predicate IsSet(pat: bytes, p: nat, e: nat) { exists q :: SetEnds(pat, p, e, q) }

  /** The closing bracket is the first one behind the first character of the set that no `%' precedes. */
  lemma BracketEndExact(pat: bytes, p: nat, e: nat)
    ensures e > 0 && BracketEnd(pat, p) == e <==> IsSet(pat, p, e)
  {
    if e > 0 && BracketEnd(pat, p) == e { var q := BracketFound(pat, p); }
    forall q | SetEnds(pat, p, e, q) ensures BracketEnd(pat, p) == e { BracketOnly(pat, p, e, q); }
  }

  lemma {:induction false} BracketFound(pat: bytes, p: nat) returns (q: seq<bytes>)
    requires BracketEnd(pat, p) > 0
    ensures SetEnds(pat, p, BracketEnd(pat, p), q)
    decreases |pat| - p
  {
    var e := BracketEnd(pat, p);
    var next := if At(pat, p) == ESC && At(pat, p + 1) != 0 then p + 2 else p + 1;
    var t := pat[p..next];
    if At(pat, next) == RBRACK {
      q := [t];
      assert q[1..] == [] && Flat(q) == t + [];
      assert pat[p..e] == t + [RBRACK];
    } else {
      var r := BracketFound(pat, next);
      q := [t] + r;
      assert q[1..] == r;
      assert pat[p..e] == t + pat[next..e];
      assert r[0] != [RBRACK] by {
        assert Flat(r) == r[0] + Flat(r[1..]);
        assert pat[next..e][0] == r[0][0];
      }
    }
  }

  lemma {:induction false} BracketOnly(pat: bytes, p: nat, e: nat, q: seq<bytes>)
    requires SetEnds(pat, p, e, q)
    ensures BracketEnd(pat, p) == e
    decreases |q|
  {
    var t, r := q[0], q[1..];
    var next := p + |t|;
    assert Flat(q) == t + Flat(r);
    assert pat[p..e][..|t|] == t && pat[p..e][|t|..] == Flat(r) + [RBRACK];
    assert pat[p] == t[0] && (|t| == 2 ==> pat[p + 1] == t[1]);
    assert pat[next..e] == Flat(r) + [RBRACK];
    if r == [] {
      assert pat[next..e][0] == RBRACK;
    } else {
      assert Flat(r) == r[0] + Flat(r[1..]);
      assert pat[next..e][0] == r[0][0];
      assert r[0][0] != RBRACK by { assert q[1] == r[0]; assert |r[0]| == 1 ==> r[0] == [r[0][0]]; }
      BracketOnly(pat, next, e, r);
    }
  }

  /** How a class is written: a set, `%' and a character, or a character that is neither `%' nor a bracket */
  ghost predicate ClassText(pat: bytes, p: nat, e: nat)
    requires p < |pat|
  {
    || (e == p + 1 && pat[p] != 0 && pat[p] != ESC && pat[p] != LBRACK)
    || (e == p + 2 <= |pat| && pat[p] == ESC && pat[p + 1] != 0)
    || (pat[p] == LBRACK && At(pat, p + 1) == CARET && IsSet(pat, p + 2, e))
    || (pat[p] == LBRACK && At(pat, p + 1) != CARET && IsSet(pat, p + 1, e))
  }

  /** classend finds the end of the class that is written there; it reports an error if none is. */
  lemma ClassEndExact(pat: bytes, p: nat, e: nat)
    requires p < |pat| && pat[p] != 0
    ensures e > 0 && ClassEnd(pat, p) == e <==> ClassText(pat, p, e)
  {
    hide BracketEnd, IsSet;
    BracketEndExact(pat, p + 1, e);
    BracketEndExact(pat, p + 2, e);
  }

  // ---- captures ---------------------------------------------------------------

  /** The text of capture number `n': none if there is no such capture, or it is open or a position */
  function CaptureText(src: bytes, caps: seq<Cap>, n: int): Option<bytes> {
    if 1 <= n <= |caps| && caps[n - 1].len >= 0 && caps[n - 1].init + caps[n - 1].len <= |src|
    then Some(src[caps[n - 1].init..caps[n - 1].init + caps[n - 1].len])
    else None
  }

  predicate HasText(src: bytes, s: nat, t: bytes) { s + |t| <= |src| && src[s..s + |t|] == t }

  /** check_capture and match_capture: the text of that capture again */
  lemma SameTextExact(src: bytes, s: nat, caps: seq<Cap>, digit: byte)
    ensures var l, t := CheckCapture(caps, digit), CaptureText(src, caps, digit - '0' as int);
      && (t.Some? ==> l >= 0 && |t.value| == caps[l].len)
      && (l >= 0 && SameText(src, s, caps[l]) <==> t.Some? && HasText(src, s, t.value))
  {
  }

  /** The capture that `)' closes: the last one that is still open */
  ghost predicate Innermost(caps: seq<Cap>, l: nat) {
    && l < |caps| && caps[l].len == CAP_UNFINISHED
    && forall k :: l < k < |caps| ==> caps[k].len != CAP_UNFINISHED
  }

  lemma {:induction false} CaptureToCloseExact(caps: seq<Cap>, l: nat)
    ensures CaptureToClose(caps) == l <==> Innermost(caps, l)
    decreases |caps|
  {
    if caps != [] && caps[|caps| - 1].len != CAP_UNFINISHED {
      var r := caps[..|caps| - 1];
      CaptureToCloseExact(r, l);
      if Innermost(caps, l) { assert Innermost(r, l); }
    }
  }
}
