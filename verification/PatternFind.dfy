/** Searching (lstrlib.c): string.find with and without patterns, and string.gsub. */
module PatternFind {
  import opened Basics
  import opened Pattern
  import opened PatternClasses
  import opened PatternLanguage
  import opened PatternMatcher

  // ---- plain search ---------------------------------------------------------------

  predicate Occurs(s1: bytes, s2: bytes, i: nat) { i + |s2| <= |s1| && s1[i..i + |s2|] == s2 }

  lemma OccursFits(s1: bytes, s2: bytes)
    ensures forall j: nat :: j + |s2| > |s1| ==> !Occurs(s1, s2, j)
    ensures s2 == [] ==> forall j: nat :: j <= |s1| ==> Occurs(s1, s2, j)
  {
  }

  lemma OccursFirst(s1: bytes, s2: bytes, i: nat)
    requires s2 != [] && (i < |s1| ==> s1[i] != s2[0])
    ensures !Occurs(s1, s2, i)
  {
    assert i + |s2| <= |s1| ==> s1[i..i + |s2|][0] == s1[i];
  }

  /** Where the first byte agrees, the rest decides. */
  lemma OccursRest(s1: bytes, s2: bytes, i: nat)
    requires s2 != [] && i + |s2| <= |s1| && s1[i] == s2[0]
    ensures Occurs(s1, s2, i) <==> s1[i + 1..i + |s2|] == s2[1..]
  {
    assert s2 == [s2[0]] + s2[1..] && s1[i..i + |s2|] == [s1[i]] + s1[i + 1..i + |s2|];
    assert s1[i..i + |s2|][1..] == s1[i + 1..i + |s2|];
  }

  /** memchr: the first `c' among the `n' characters from `from', or -1 */
  method MemChr(s: bytes, from: nat, c: byte, n: nat) returns (k: int)
    requires from + n <= |s|
    ensures if k < 0 then forall j :: from <= j < from + n ==> s[j] != c
            else from <= k < from + n && s[k] == c && forall j :: from <= j < k ==> s[j] != c
  {
    var i := 0;
    while i < n
      invariant i <= n && forall j :: from <= j < from + i ==> s[j] != c
    {
      if s[from + i] == c { return from + i; }
      i := i + 1;
    }
    return -1;
  }

  /** lmemfind: the first occurrence of `s2' from `from' on, or -1 */
  method MemFind(s: bytes, from: nat, s2: bytes) returns (k: int)
    requires from <= |s|
    ensures if k < 0 then forall j: nat :: j >= from ==> !Occurs(s, s2, j)
            else k >= from && Occurs(s, s2, k) && forall j: nat :: from <= j < k ==> !Occurs(s, s2, j)
  {
    hide Occurs;
    OccursFits(s, s2);
    var s1, l1, l2 := from, |s| - from, |s2|;
    if l2 == 0 { return s1; }
    if l2 > l1 { return -1; }
    l2 := l2 - 1;
    l1 := l1 - l2;
    while l1 > 0
      invariant from <= s1 && 0 <= l1 && s1 + l1 + l2 == |s|
      invariant forall j: nat :: from <= j < s1 ==> !Occurs(s, s2, j)
    {
      var init := MemChr(s, s1, s2[0], l1);
      forall j: nat | s1 <= j && (init < 0 || j < init) ensures !Occurs(s, s2, j) {
        if j + |s2| <= |s| { OccursFirst(s, s2, j); }
      }
      if init < 0 { return -1; }
      init := init + 1;
      OccursRest(s, s2, init - 1);
      if s[init..init + l2] == s2[1..] { return init - 1; }
      l1 := l1 - (init - s1);
      s1 := init;
    }
    return -1;
  }

  // ---- search with patterns ---------------------------------------------------------

  datatype Found = NotFound | FoundAt(start: nat, e: nat, caps: seq<Cap>) | Broken

  /** The loop of str_find_aux: one attempt at every position */
  function Search(src: bytes, pat: bytes, s: nat, p: nat, anchor: bool): Found
    requires s <= |src| && p <= |pat|
    decreases |src| - s
  {
    match Match(src, pat, s, p, [])
    case Done(e, caps) => FoundAt(s, e, caps)
    case Fail => Broken
    case NoMatch => if s == |src| || anchor then NotFound else Search(src, pat, s + 1, p, anchor)
  }

  /** The match found is the leftmost; when none is found there is none. */
  lemma {:induction false} SearchLeftmost(src: bytes, pat: bytes, s: nat, p: nat, anchor: bool)
    requires s <= |src| && p <= |pat|
    ensures match Search(src, pat, s, p, anchor)
      case FoundAt(start, e, caps) =>
        && s <= start <= |src| && (anchor ==> start == s) && Accepts(src, pat, start, p, [], e, caps)
        && forall i: nat :: s <= i < start ==> Rejects(src, pat, i, p, [])
      case NotFound => forall i: nat :: s <= i <= (if anchor then s else |src|) ==> Rejects(src, pat, i, p, [])
      case Broken => true
    decreases |src| - s
  {
    MatchExact(src, pat, s, p, []);
    if Match(src, pat, s, p, []) == NoMatch && !(s == |src| || anchor) { SearchLeftmost(src, pat, s + 1, p, anchor); }
  }

  /** posrelat and the clipping of the start position: counted from 1, or from the end backwards if negative */
  function Start(init: int, len: nat): (r: nat)
    ensures 1 <= init <= len + 1 ==> r == init - 1
    ensures init < 0 && len + init >= 0 ==> r == len + init
    ensures init > len ==> r == len
    ensures init == 0 || len + init < 0 ==> r == 0
  {
    var i := (if init >= 0 then init else len + init + 1) - 1;
    if i < 0 then 0 else if i > len then len else i
  }

  const SPECIALS: bytes := [CARET, DOLLAR, STAR, PLUS, OPT, DOT, OPEN, LBRACK, ESC, DASH]

  /** strpbrk(p, SPECIALS) == NULL; it stops at a zero byte */
  predicate NoSpecials(pat: bytes) { pat == [] || pat[0] == 0 || (pat[0] !in SPECIALS && NoSpecials(pat[1..])) }

  /** The result of a plain search from `s' */
  ghost predicate FirstOccurrence(src: bytes, pat: bytes, s: nat, r: Found) {
    match r
    case FoundAt(start, e, caps) =>
      && start >= s && e == start + |pat| && caps == [] && Occurs(src, pat, start)
      && forall j: nat :: s <= j < start ==> !Occurs(src, pat, j)
    case NotFound => forall j: nat :: j >= s ==> !Occurs(src, pat, j)
    case Broken => false
  }

  /** str_find_aux for string.find, up to the captures it pushes */
  method StrFind(src: bytes, pat: bytes, init: int, explicit: bool) returns (r: Found)
    ensures var s := Start(init, |src|);
      if explicit || NoSpecials(pat) then FirstOccurrence(src, pat, s, r)
      else
        var anchor := pat[0] == CARET;
        r == Search(src, pat, s, if anchor then 1 else 0, anchor)
  {
    var s := Start(init, |src|);
    if explicit || NoSpecials(pat) {
      var k := MemFind(src, s, pat);
      return if k < 0 then NotFound else FoundAt(k, k + |pat|, []);
    }
    var anchor := pat[0] == CARET;
    var p := if anchor then 1 else 0;
    var ms := new MatchState(src, pat);
    var s1 := s;
    while true
      invariant s <= s1 <= |src| && fresh(ms) && fresh(ms.capture) && ms.Valid() && ms.src == src && ms.pat == pat
      invariant Search(src, pat, s1, p, anchor) == Search(src, pat, s, p, anchor)
      decreases |src| - s1
    {
      ms.level := 0;
      assert ms.Caps() == [];
      var res := ms.DoMatch(s1, p);
      match res {
        case At(e) => return FoundAt(s1, e, ms.capture[..ms.level]);
        case Error => return Broken;
        case Null =>
      }
      if s1 == |src| || anchor { return NotFound; }
      s1 := s1 + 1;
    }
  }

  // ---- patterns without special characters ----------------------------------------------

  predicate Plain(pat: bytes) { forall i :: 0 <= i < |pat| ==> pat[i] !in SPECIALS && pat[i] != CLOSE && pat[i] != 0 }

  lemma {:induction false} PlainMatch(src: bytes, pat: bytes, s: nat, p: nat, caps: seq<Cap>)
    requires s <= |src| && p <= |pat| && Plain(pat)
    ensures Match(src, pat, s, p, caps) == if Occurs(src, pat[p..], s) then Done(s + |pat| - p, caps) else NoMatch
    decreases |pat| - p
  {
    if p < |pat| {
      assert pat[p] !in SPECIALS;
      assert p + 1 < |pat| ==> pat[p + 1] !in SPECIALS;
      assert pat[p..] == [pat[p]] + pat[p + 1..];
      if s < |src| && src[s] == pat[p] {
        PlainMatch(src, pat, s + 1, p + 1, caps);
        assert s + |pat| - p <= |src| ==> src[s..s + |pat| - p] == [src[s]] + src[s + 1..s + |pat| - p];
        assert s + |pat| - p <= |src| ==> src[s..s + |pat| - p][1..] == src[s + 1..s + |pat| - p];
      } else {
        assert s + |pat| - p <= |src| ==> src[s..s + |pat| - p][0] == src[s];
      }
    }
  }

  /** Plain search gives what the matcher would give: the same start and end, or failure. */
  lemma {:induction false} PlainSearch(src: bytes, pat: bytes, s: nat)
    requires s <= |src| && Plain(pat)
    ensures NoSpecials(pat)
    ensures FirstOccurrence(src, pat, s, Search(src, pat, s, 0, false))
    decreases |src| - s
  {
    PlainNoSpecials(pat);
    assert pat[0..] == pat;
    PlainMatch(src, pat, s, 0, []);
    if s < |src| { PlainSearch(src, pat, s + 1); }
  }

  lemma {:induction false} PlainNoSpecials(pat: bytes)
    requires Plain(pat)
    ensures NoSpecials(pat)
    decreases |pat|
  {
    if pat != [] { PlainNoSpecials(pat[1..]); }
  }

  // ---- string.gsub --------------------------------------------------------------------

  /** add_value: what replaces the match from `s' to `e' */
  type Repl = (nat, nat, seq<Cap>) -> bytes

  /** The text that gsub has still to write from `s' on, with `left' replacements to go; None on an error */
  datatype Text = Text(s: bytes, n: nat) | NoText

  /**
   One round of str_gsub: what it writes, where it goes on, whether it replaced, and whether there
   is another round
   */
  datatype Step = Step(b: bytes, next: nat, n: nat, more: bool) | BadStep

  function GsubStep(src: bytes, pat: bytes, s: nat, p: nat, anchor: bool, repl: Repl): (r: Step)
    requires s <= |src| && p <= |pat|
    ensures r.Step? ==> r.next <= |src| && r.n <= 1 && (r.more ==> r.next > s)
  {
    match Match(src, pat, s, p, [])
    case Fail => BadStep
    case Done(e, caps) =>
      if e > s then Step(repl(s, e, caps), e, 1, !anchor)
      else if s < |src| then Step(repl(s, e, caps) + [src[s]], s + 1, 1, !anchor)
      else Step(repl(s, e, caps), s, 1, false)
    case NoMatch =>
      if s < |src| then Step([src[s]], s + 1, 0, !anchor) else Step([], s, 0, false)
  }

  /** str_gsub from `s' on, with `left' replacements to go */
  function Gsub(src: bytes, pat: bytes, s: nat, p: nat, left: nat, anchor: bool, repl: Repl): Text
    requires s <= |src| && p <= |pat|
    decreases |src| - s
  {
    if left == 0 then Text(src[s..], 0)
    else
      match GsubStep(src, pat, s, p, anchor, repl) {
        case BadStep => NoText
        case Step(b, next, n, more) =>
          Prefix(b, if more then Gsub(src, pat, next, p, left - n, anchor, repl) else Text(src[next..], 0), n)
      }
  }

  function Prefix(s: bytes, t: Text, k: nat): Text {
    if t.Text? then Text(s + t.s, k + t.n) else NoText
  }

  lemma PrefixTwice(s: bytes, x: bytes, t: Text, k: nat, n: nat)
    ensures Prefix(s, Prefix(x, t, n), k) == Prefix(s + x, t, k + n)
  {
    if t.Text? { assert s + (x + t.s) == s + x + t.s; }
  }

  lemma PrefixNothing(t: Text)
    ensures Prefix([], t, 0) == t
  {
    if t.Text? { assert [] + t.s == t.s; }
  }

  lemma PrefixText(b: bytes, s: bytes, n: nat)
    ensures Prefix(b, Text(s, 0), n) == Text(b + s, n)
    ensures Prefix(b, NoText, n) == NoText
  {
  }

  lemma GsubNone(src: bytes, pat: bytes, s: nat, p: nat, anchor: bool, repl: Repl)
    requires s <= |src| && p <= |pat|
    ensures Gsub(src, pat, s, p, 0, anchor, repl) == Text(src[s..], 0)
  {
  }

  lemma GsubUnrolled(src: bytes, pat: bytes, s: nat, p: nat, left: nat, anchor: bool, repl: Repl)
    requires s <= |src| && p <= |pat| && left > 0
    ensures Gsub(src, pat, s, p, left, anchor, repl)
      == match GsubStep(src, pat, s, p, anchor, repl) {
           case BadStep => NoText
           case Step(b, next, n, more) =>
             Prefix(b, if more then Gsub(src, pat, next, p, left - n, anchor, repl) else Text(src[next..], 0), n)
         }
  {
  }

  /** str_gsub */
  method StrGsub(src: bytes, pat: bytes, max: nat, repl: Repl) returns (r: Text)
    ensures var anchor := pat != [] && pat[0] == CARET;
      var p := if anchor then 1 else 0;
      var q := Hits(src, pat, 0, p, max, anchor);
      && r == Gsub(src, pat, 0, p, max, anchor, repl)
      && (q.Some? ==> InOrder(q.value, 0, |src|)) && r == Replaced(src, q, repl, 0)
  {
    hide Match, Gsub, Prefix, Hits, Woven, InOrder;
    var anchor := pat != [] && pat[0] == CARET;
    var p := if anchor then 1 else 0;
    GsubExact(src, pat, 0, p, max, anchor, repl);
    var s: nat, n, b: bytes := 0, 0, [];
    PrefixNothing(Gsub(src, pat, 0, p, max, anchor, repl));
    var ms := new MatchState(src, pat);
    var stop := false;
    while n < max && !stop
      invariant fresh(ms) && fresh(ms.capture) && ms.Valid() && ms.src == src && ms.pat == pat && s <= |src| && n <= max
      invariant Gsub(src, pat, 0, p, max, anchor, repl)
        == Prefix(b, if stop then Text(src[s..], 0) else Gsub(src, pat, s, p, max - n, anchor, repl), n)
      decreases |src| - s, if stop then 0 else 1
    {
      ms.level := 0;
      assert ms.Caps() == [];
      ghost var s0, n0, b0, step := s, n, b, GsubStep(src, pat, s, p, anchor, repl);
      GsubUnrolled(src, pat, s, p, max - n, anchor, repl);
      var e := ms.DoMatch(s, p);
      if e == Error {
        PrefixText(b, src[s..], n);
        return NoText;
      }
      var x: bytes := [];
      if e != Null {
        n := n + 1;
        x := repl(s, e.e, ms.capture[..ms.level]);
      }
      if e != Null && e.e > s {
        s := e.e;
      } else if s < |src| {
        x := x + [src[s]];
        s := s + 1;
      } else {
        stop := true;
      }
      if anchor { stop := true; }
      b := b + x;
      assert step == Step(x, s, n - n0, !stop);
      PrefixTwice(b0, x, if stop then Text(src[s..], 0) else Gsub(src, pat, s, p, max - n, anchor, repl), n0, n - n0);
    }
    GsubNone(src, pat, s, p, anchor, repl);
    PrefixText(b, src[s..], n);
    return Text(b + src[s..], n);
  }

  /** Matches go forward. */
  lemma {:induction false} MatchForward(src: bytes, pat: bytes, s: nat, p: nat, caps: seq<Cap>, e: nat, out: seq<Cap>)
    requires s <= |src| && p <= |pat| && Accepts(src, pat, s, p, caps, e, out)
    ensures s <= e <= |src|
    decreases |pat| - p
  {
    ItemAdvances(pat, p);
    var (item, next) := ItemAt(pat, p);
    match item
    case End =>
    case Anchor =>
    case Open(what) => MatchForward(src, pat, s, next, caps + [Cap(s, what)], e, out);
    case Close =>
      var l: nat :| Innermost(caps, l)
        && Accepts(src, pat, s, next, caps[l := Cap(caps[l].init, s - caps[l].init)], e, out);
      MatchForward(src, pat, s, next, caps[l := Cap(caps[l].init, s - caps[l].init)], e, out);
    case Balance(x, y) =>
      var m: nat :| Balanced(src, s, m, x, y) && Accepts(src, pat, m, next, caps, e, out);
      MatchForward(src, pat, m, next, caps, e, out);
    case Frontier(ep) => MatchForward(src, pat, s, next, caps, e, out);
    case Back(digit) =>
      MatchForward(src, pat, s + |CaptureText(src, caps, digit - '0' as int).value|, next, caps, e, out);
    case Repeat(ep, lo, bounded, lazy) =>
      var k: nat :| Allowed(src, pat, s, p, item, k) && Accepts(src, pat, s + k, next, caps, e, out);
      MatchForward(src, pat, s + k, next, caps, e, out);
    case Malformed =>
  }

  /** Replacing every match by itself gives the subject back, whatever the pattern. */
  lemma {:induction false} GsubIdentity(src: bytes, pat: bytes, s: nat, p: nat, left: nat, anchor: bool, repl: Repl)
    requires s <= |src| && p <= |pat|
    requires forall i, e, caps :: 0 <= i <= e <= |src| ==> repl(i, e, caps) == src[i..e]
    ensures var t := Gsub(src, pat, s, p, left, anchor, repl); t.Text? ==> t.s == src[s..] && t.n <= left
    decreases |src| - s
  {
    hide GsubStep;
    if left > 0 {
      StepIdentity(src, pat, s, p, anchor, repl);
      match GsubStep(src, pat, s, p, anchor, repl)
      case BadStep =>
      case Step(b, next, n, more) =>
        assert src[s..next] + src[next..] == src[s..];
        if more { GsubIdentity(src, pat, next, p, left - n, anchor, repl); }
    }
  }

  // ---- what gsub replaces -----------------------------------------------------------------

  /** A match: where it starts and ends, and its captures */
  datatype Hit = Hit(start: nat, e: nat, caps: seq<Cap>)

  /** The place behind a match; an empty one lets one character pass. */
  function NextPlace(start: nat, e: nat): nat { if e > start then e else start + 1 }

  /** The first `left' of the successive leftmost matches from `s' on; none if a match raises an error */
  function Hits(src: bytes, pat: bytes, s: nat, p: nat, left: nat, anchor: bool): Option<seq<Hit>>
    requires s <= |src| && p <= |pat|
    decreases left
  {
    if left == 0 then Some([])
    else
      match Search(src, pat, s, p, anchor)
      case NotFound => Some([])
      case Broken => None
      case FoundAt(start, e, caps) =>
        var next := NextPlace(start, e);
        if anchor || next > |src| then Some([Hit(start, e, caps)])
        else
          var rest := Hits(src, pat, next, p, left - 1, anchor);
          if rest.None? then None else Some([Hit(start, e, caps)] + rest.value)
  }

  /** The subject from `pos' on, with every match replaced and all the text between kept */
  function Woven(src: bytes, q: seq<Hit>, repl: Repl, pos: nat): bytes
    requires pos <= |src| && InOrder(q, pos, |src|)
  {
    if q == [] then src[pos..]
    else src[pos..q[0].start] + repl(q[0].start, q[0].e, q[0].caps) + Woven(src, q[1..], repl, q[0].e)
  }

  /** The matches lie behind each other between `pos' and `end'. */
  predicate InOrder(q: seq<Hit>, pos: nat, end: nat) {
    q != [] ==> pos <= q[0].start <= q[0].e <= end && InOrder(q[1..], q[0].e, end)
  }

  lemma {:induction false} HitsInOrder(src: bytes, pat: bytes, s: nat, p: nat, left: nat, anchor: bool)
    requires s <= |src| && p <= |pat|
    ensures var q := Hits(src, pat, s, p, left, anchor); q.Some? ==> InOrder(q.value, s, |src|) && |q.value| <= left
    decreases left
  {
    hide Search;
    if left > 0 {
      FoundInside(src, pat, s, p, anchor);
      var r := Search(src, pat, s, p, anchor);
      if r.FoundAt? {
        var next := NextPlace(r.start, r.e);
        if !anchor && next <= |src| {
          HitsInOrder(src, pat, next, p, left - 1, anchor);
          var rest := Hits(src, pat, next, p, left - 1, anchor);
          if rest.Some? { OrderEarlier(rest.value, r.e, next, |src|); }
        }
      }
    }
  }

  lemma OrderEarlier(q: seq<Hit>, i: nat, j: nat, end: nat)
    requires i <= j && InOrder(q, j, end)
    ensures InOrder(q, i, end)
  {
  }

  lemma FoundInside(src: bytes, pat: bytes, s: nat, p: nat, anchor: bool)
    requires s <= |src| && p <= |pat|
    ensures var r := Search(src, pat, s, p, anchor); r.FoundAt? ==> s <= r.start <= r.e <= |src|
  {
    hide Search;
    SearchLeftmost(src, pat, s, p, anchor);
    var r := Search(src, pat, s, p, anchor);
    if r.FoundAt? { MatchForward(src, pat, r.start, p, [], r.e, r.caps); }
  }

  /** A character in front of the first match is kept. */
  lemma WovenGap(src: bytes, q: seq<Hit>, repl: Repl, s: nat)
    requires s < |src| && InOrder(q, s + 1, |src|)
    ensures InOrder(q, s, |src|) && Woven(src, q, repl, s) == [src[s]] + Woven(src, q, repl, s + 1)
  {
    if q == [] {
      assert src[s..] == [src[s]] + src[s + 1..];
    } else {
      var x := repl(q[0].start, q[0].e, q[0].caps) + Woven(src, q[1..], repl, q[0].e);
      assert src[s..q[0].start] == [src[s]] + src[s + 1..q[0].start];
      assert src[s..q[0].start] + x == [src[s]] + (src[s + 1..q[0].start] + x);
      assert Woven(src, q, repl, s) == src[s..q[0].start] + x;
      assert Woven(src, q, repl, s + 1) == src[s + 1..q[0].start] + x;
    }
  }

  /** What gsub has to write, and how many replacements it has to count */
  function Replaced(src: bytes, q: Option<seq<Hit>>, repl: Repl, s: nat): Text
    requires s <= |src| && (q.Some? ==> InOrder(q.value, s, |src|))
  {
    if q.None? then NoText else Text(Woven(src, q.value, repl, s), |q.value|)
  }

  /**
   gsub keeps the text between the successive leftmost matches, replaces each by what `repl' makes
   of its place and captures, and counts them.
   */
  lemma {:induction false} GsubExact(src: bytes, pat: bytes, s: nat, p: nat, left: nat, anchor: bool, repl: Repl)
    requires s <= |src| && p <= |pat|
    ensures var q := Hits(src, pat, s, p, left, anchor);
      (q.Some? ==> InOrder(q.value, s, |src|)) && Gsub(src, pat, s, p, left, anchor, repl) == Replaced(src, q, repl, s)
    decreases |src| - s
  {
    hide Search, Gsub, Match, GsubStep, Prefix, Woven;
    HitsInOrder(src, pat, s, p, left, anchor);
    if left == 0 {
      GsubNone(src, pat, s, p, anchor, repl);
      WovenNothing(src, repl, s);
    } else {
      GsubUnrolled(src, pat, s, p, left, anchor, repl);
      SearchStep(src, pat, s, p, anchor);
      var r := Match(src, pat, s, p, []);
      match r
      case Fail => GsubFails(src, pat, s, p, anchor, repl);
      case Done(e, caps) =>
        FoundInside(src, pat, s, p, anchor);
        var next := NextPlace(s, e);
        if !anchor && next <= |src| { GsubExact(src, pat, next, p, left - 1, anchor, repl); }
        GsubHit(src, pat, s, p, left, anchor, repl, e, caps);
      case NoMatch =>
        if s < |src| && !anchor { GsubExact(src, pat, s + 1, p, left, anchor, repl); }
        GsubMiss(src, pat, s, p, left, anchor, repl);
    }
  }

  lemma WovenNothing(src: bytes, repl: Repl, s: nat)
    requires s <= |src|
    ensures Woven(src, [], repl, s) == src[s..]
  {
  }

  lemma SearchStep(src: bytes, pat: bytes, s: nat, p: nat, anchor: bool)
    requires s <= |src| && p <= |pat|
    ensures Search(src, pat, s, p, anchor)
      == match Match(src, pat, s, p, []) {
           case Done(e, caps) => FoundAt(s, e, caps)
           case Fail => Broken
           case NoMatch => if s == |src| || anchor then NotFound else Search(src, pat, s + 1, p, anchor)
         }
  {
  }

  lemma GsubFails(src: bytes, pat: bytes, s: nat, p: nat, anchor: bool, repl: Repl)
    requires s <= |src| && p <= |pat| && Match(src, pat, s, p, []) == Fail
    ensures GsubStep(src, pat, s, p, anchor, repl) == BadStep
  {
  }

  lemma GsubHit(src: bytes, pat: bytes, s: nat, p: nat, left: nat, anchor: bool, repl: Repl, e: nat, caps: seq<Cap>)
    requires s <= |src| && p <= |pat| && left > 0 && Match(src, pat, s, p, []) == Done(e, caps) && s <= e <= |src|
    requires !anchor && NextPlace(s, e) <= |src| ==>
      var q := Hits(src, pat, NextPlace(s, e), p, left - 1, anchor);
      (q.Some? ==> InOrder(q.value, NextPlace(s, e), |src|)) &&
      Gsub(src, pat, NextPlace(s, e), p, left - 1, anchor, repl) == Replaced(src, q, repl, NextPlace(s, e))
    ensures var q := Hits(src, pat, s, p, left, anchor);
      (q.Some? ==> InOrder(q.value, s, |src|)) && Gsub(src, pat, s, p, left, anchor, repl) == Replaced(src, q, repl, s)
  {
    hide Search, Match, Gsub, Woven, InOrder;
    HitsInOrder(src, pat, s, p, left, anchor);
    GsubUnrolled(src, pat, s, p, left, anchor, repl);
    SearchStep(src, pat, s, p, anchor);
    var next := NextPlace(s, e);
    if anchor || next > |src| {
      WovenLast(src, Hit(s, e, caps), repl, s);
    } else {
      var rest := Hits(src, pat, next, p, left - 1, anchor);
      if rest.Some? { WovenFirst(src, Hit(s, e, caps), rest.value, repl, s); }
    }
  }

  lemma Glued(src: bytes, x: bytes, s: nat, e: nat)
    requires s <= e <= |src|
    ensures src[s..s] + x + src[e..] == x + src[e..]
    ensures s < |src| ==> x + [src[s]] + src[s + 1..] == x + src[s..]
  {
  }

  /** The last match, found at the place that has been reached */
  lemma WovenLast(src: bytes, hit: Hit, repl: Repl, s: nat)
    requires s == hit.start <= hit.e <= |src|
    ensures InOrder([hit], s, |src|)
    ensures var x := repl(s, hit.e, hit.caps);
      Woven(src, [hit], repl, s)
        == if hit.e > s || s == |src| then x + src[hit.e..] else x + [src[s]] + src[s + 1..]
  {
    assert [hit][1..] == [];
    WovenNothing(src, repl, hit.e);
    Glued(src, repl(s, hit.e, hit.caps), s, hit.e);
  }

  lemma WovenFirst(src: bytes, hit: Hit, rest: seq<Hit>, repl: Repl, s: nat)
    requires s == hit.start <= hit.e <= |src| && NextPlace(s, hit.e) <= |src|
    requires InOrder(rest, NextPlace(s, hit.e), |src|)
    ensures InOrder([hit] + rest, s, |src|)
    ensures var x := repl(s, hit.e, hit.caps);
      Woven(src, [hit] + rest, repl, s)
        == (if hit.e > s then x else x + [src[s]]) + Woven(src, rest, repl, NextPlace(s, hit.e))
  {
    var x, q := repl(s, hit.e, hit.caps), [hit] + rest;
    assert q[1..] == rest && src[s..s] + x == x;
    if hit.e == s {
      WovenGap(src, rest, repl, s);
      assert x + [src[s]] + Woven(src, rest, repl, s + 1) == x + Woven(src, rest, repl, s);
    }
  }

  lemma GsubMiss(src: bytes, pat: bytes, s: nat, p: nat, left: nat, anchor: bool, repl: Repl)
    requires s <= |src| && p <= |pat| && left > 0 && Match(src, pat, s, p, []) == NoMatch
    requires !anchor && s < |src| ==>
      var q := Hits(src, pat, s + 1, p, left, anchor);
      (q.Some? ==> InOrder(q.value, s + 1, |src|)) &&
      Gsub(src, pat, s + 1, p, left, anchor, repl) == Replaced(src, q, repl, s + 1)
    ensures var q := Hits(src, pat, s, p, left, anchor);
      (q.Some? ==> InOrder(q.value, s, |src|)) && Gsub(src, pat, s, p, left, anchor, repl) == Replaced(src, q, repl, s)
  {
    hide Search, Match, Gsub;
    HitsInOrder(src, pat, s, p, left, anchor);
    GsubUnrolled(src, pat, s, p, left, anchor, repl);
    SearchStep(src, pat, s, p, anchor);
    WovenNothing(src, repl, s);
    if s < |src| {
      if anchor {
        assert [src[s]] + src[s + 1..] == src[s..];
      } else {
        var q := Hits(src, pat, s + 1, p, left, anchor);
        if q.Some? { WovenGap(src, q.value, repl, s); }
      }
    }
  }

  lemma StepIdentity(src: bytes, pat: bytes, s: nat, p: nat, anchor: bool, repl: Repl)
    requires s <= |src| && p <= |pat|
    requires forall i, e, caps :: 0 <= i <= e <= |src| ==> repl(i, e, caps) == src[i..e]
    ensures var r := GsubStep(src, pat, s, p, anchor, repl); r.Step? ==> r.next >= s && r.b == src[s..r.next]
  {
    MatchExact(src, pat, s, p, []);
    var r := Match(src, pat, s, p, []);
    if r.Done? { MatchForward(src, pat, s, p, [], r.e, r.caps); }
  }
}
