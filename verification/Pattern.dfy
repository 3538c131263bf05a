/** The backtracking pattern matcher (lstrlib.c), as functions of the subject, the pattern and the captures so far. */
module Pattern {
  import opened Basics

  const ESC: byte := '%' as int
  const OPEN: byte := '(' as int
  const CLOSE: byte := ')' as int
  const DOLLAR: byte := '$' as int
  const DOT: byte := '.' as int
  const LBRACK: byte := '[' as int
  const RBRACK: byte := ']' as int
  const CARET: byte := '^' as int
  const DASH: byte := '-' as int
  const STAR: byte := '*' as int
  const PLUS: byte := '+' as int
  const OPT: byte := '?' as int

  /** A C string is read up to the zero byte behind it. */
  function At(s: bytes, i: nat): byte { if i < |s| then s[i] else 0 }

  const CAP_UNFINISHED: int := -1
  const CAP_POSITION: int := -2
  const MAXCAPTURES: nat := 32

  datatype Cap = Cap(init: nat, len: int)

  /** NULL is no match; an error leaves the matcher altogether. */
  datatype Res = NoMatch | Done(e: nat, caps: seq<Cap>) | Fail

  // ---- character classes, in the C locale -------------------------------------

  predicate IsUpper(c: byte) { 'A' as int <= c <= 'Z' as int }

  predicate IsLower(c: byte) { 'a' as int <= c <= 'z' as int }

  predicate IsAlpha(c: byte) { IsUpper(c) || IsLower(c) }


  predicate IsAlnum(c: byte) { IsAlpha(c) || IsDigit(c) }

  predicate IsCntrl(c: byte) { c < 32 || c == 127 }

  predicate IsSpace(c: byte) { c == 32 || 9 <= c <= 13 }

  predicate IsPunct(c: byte) { 32 < c < 127 && !IsAlnum(c) }

  predicate IsXDigit(c: byte) { IsDigit(c) || 'a' as int <= c <= 'f' as int || 'A' as int <= c <= 'F' as int }

  function ToLower(c: byte): byte { if IsUpper(c) then c + 32 else c }

  /** match_class: an upper-case letter stands for the complement of its class. */
  predicate MatchClass(c: byte, cl: byte) {
    var k := ToLower(cl);
    if k == 'a' as int then IsLower(cl) == IsAlpha(c)
    else if k == 'c' as int then IsLower(cl) == IsCntrl(c)
    else if k == 'd' as int then IsLower(cl) == IsDigit(c)
    else if k == 'l' as int then IsLower(cl) == IsLower(c)
    else if k == 'p' as int then IsLower(cl) == IsPunct(c)
    else if k == 's' as int then IsLower(cl) == IsSpace(c)
    else if k == 'u' as int then IsLower(cl) == IsUpper(c)
    else if k == 'w' as int then IsLower(cl) == IsAlnum(c)
    else if k == 'x' as int then IsLower(cl) == IsXDigit(c)
    else if k == 'z' as int then IsLower(cl) == (c == 0)
    else cl == c
  }

  /** Whether `c' is in the set whose members are written from `p' up to `ec' */
  predicate InSet(pat: bytes, p: nat, ec: nat, c: byte)
    decreases ec - p
  {
    if p >= ec then false
    else if At(pat, p) == ESC then MatchClass(c, At(pat, p + 1)) || InSet(pat, p + 2, ec, c)
    else if At(pat, p + 1) == DASH && p + 2 < ec then At(pat, p) <= c <= At(pat, p + 2) || InSet(pat, p + 3, ec, c)
    else At(pat, p) == c || InSet(pat, p + 1, ec, c)
  }

  /** matchbracketclass: `p' is the opening bracket and `ec' the closing one. */
  predicate MatchBracketClass(c: byte, pat: bytes, p: nat, ec: nat) {
    if At(pat, p + 1) == CARET then !InSet(pat, p + 2, ec, c) else InSet(pat, p + 1, ec, c)
  }

  /** The place behind the closing bracket of a set; 0 when it is missing */
  function BracketEnd(pat: bytes, p: nat): (e: nat)
    ensures e == 0 || p + 1 < e <= |pat|
    decreases |pat| - p
  {
    if At(pat, p) == 0 then 0
    else
      var q := if At(pat, p) == ESC && At(pat, p + 1) != 0 then p + 2 else p + 1;
      if At(pat, q) == RBRACK then q + 1 else BracketEnd(pat, q)
  }

  /** classend: the place behind a single-character class; 0 when the pattern is malformed */
  function ClassEnd(pat: bytes, p: nat): (e: nat)
    requires At(pat, p) != 0
    ensures e == 0 || p < e <= |pat|
  {
    if At(pat, p) == ESC then (if At(pat, p + 1) == 0 then 0 else p + 2)
    else if At(pat, p) == LBRACK then BracketEnd(pat, if At(pat, p + 1) == CARET then p + 2 else p + 1)
    else p + 1
  }

  /** singlematch */
  predicate SingleMatch(c: byte, pat: bytes, p: nat, ep: nat)
    requires ep > 0
  {
    if At(pat, p) == DOT then true
    else if At(pat, p) == ESC then MatchClass(c, At(pat, p + 1))
    else if At(pat, p) == LBRACK then MatchBracketClass(c, pat, p, ep - 1)
    else At(pat, p) == c
  }

  // ---- captures ----------------------------------------------------------------

  /** check_capture; -1 for an invalid index */
  function CheckCapture(caps: seq<Cap>, digit: byte): (l: int)
    ensures -1 <= l < |caps|
  {
    var l := digit - '1' as int;
    if l < 0 || l >= |caps| || caps[l].len == CAP_UNFINISHED then -1 else l
  }

  /** capture_to_close; -1 when no capture is open */
  function CaptureToClose(caps: seq<Cap>): (l: int)
    ensures -1 <= l < |caps|
    ensures l >= 0 ==> caps[l].len == CAP_UNFINISHED
  {
    if caps == [] then -1
    else if caps[|caps| - 1].len == CAP_UNFINISHED then |caps| - 1
    else CaptureToClose(caps[..|caps| - 1])
  }

  /** The subject has the text of the capture at `s'; a position capture has no text. */
  predicate SameText(src: bytes, s: nat, c: Cap) {
    0 <= c.len && s + c.len <= |src| && c.init + c.len <= |src| && src[s..s + c.len] == src[c.init..c.init + c.len]
  }

  /** The scan of matchbalance, with `cont' still open; 0 when the string ends out of balance */
  function BalanceEnd(src: bytes, s: nat, x: byte, y: byte, cont: nat): (e: nat)
    ensures e <= |src| && (e != 0 ==> e > s)
    decreases |src| - s
  {
    if s >= |src| then 0
    else if src[s] == y then (if cont <= 1 then s + 1 else BalanceEnd(src, s + 1, x, y, cont - 1))
    else BalanceEnd(src, s + 1, x, y, if src[s] == x then cont + 1 else cont)
  }

  /** matchbalance */
  function MatchBalance(src: bytes, s: nat, x: byte, y: byte): (e: nat)
    ensures e <= |src|
  {
    if At(src, s) != x then 0 else BalanceEnd(src, s + 1, x, y, 1)
  }

  /** The condition of %f */
  predicate AtFrontier(src: bytes, s: nat, pat: bytes, p: nat, ep: nat)
    requires ep > 0
  {
    && !MatchBracketClass(if s == 0 then 0 else At(src, s - 1), pat, p, ep - 1)
    && MatchBracketClass(At(src, s), pat, p, ep - 1)
  }

  // ---- match -------------------------------------------------------------------

  /** match: the end of the match of the pattern from `p' with the subject from `s', and the captures */
  function Match(src: bytes, pat: bytes, s: nat, p: nat, caps: seq<Cap>): (r: Res)
    requires s <= |src| && p <= |pat|
    ensures r.Done? ==> r.e <= |src|
    decreases |pat| - p, 3, 0
  {
    var c := At(pat, p);
    if c == OPEN then
      if At(pat, p + 1) == CLOSE then StartCapture(src, pat, s, p + 2, caps, CAP_POSITION)
      else StartCapture(src, pat, s, p + 1, caps, CAP_UNFINISHED)
    else if c == CLOSE then EndCapture(src, pat, s, p + 1, caps)
    else if c == ESC && At(pat, p + 1) == 'b' as int then
      if At(pat, p + 2) == 0 || At(pat, p + 3) == 0 then Fail
      else
        var m := MatchBalance(src, s, At(pat, p + 2), At(pat, p + 3));
        if m == 0 then NoMatch else Match(src, pat, m, p + 4, caps)
    else if c == ESC && At(pat, p + 1) == 'f' as int then
      if At(pat, p + 2) != LBRACK then Fail
      else
        var ep := ClassEnd(pat, p + 2);
        if ep == 0 then Fail
        else if AtFrontier(src, s, pat, p + 2, ep) then Match(src, pat, s, ep, caps) else NoMatch
    else if c == ESC && IsDigit(At(pat, p + 1)) then
      var l := CheckCapture(caps, At(pat, p + 1));
      if l < 0 then Fail
      else if SameText(src, s, caps[l]) then Match(src, pat, s + caps[l].len, p + 2, caps) else NoMatch
    else if c == 0 then Done(s, caps)
    else if c == DOLLAR && At(pat, p + 1) == 0 then (if s == |src| then Done(s, caps) else NoMatch)
    else
      var ep := ClassEnd(pat, p);
      if ep == 0 then Fail
      else
        var m := s < |src| && SingleMatch(src[s], pat, p, ep);
        if At(pat, ep) == OPT then
          var r := if m then Match(src, pat, s + 1, ep + 1, caps) else NoMatch;
          if r != NoMatch then r else Match(src, pat, s, ep + 1, caps)
        else if At(pat, ep) == STAR then MaxExpand(src, pat, s, p, ep, caps)
        else if At(pat, ep) == PLUS then (if m then MaxExpand(src, pat, s + 1, p, ep, caps) else NoMatch)
        else if At(pat, ep) == DASH then MinExpand(src, pat, s, p, ep, caps)
        else if m then Match(src, pat, s + 1, ep, caps)
        else NoMatch
  }

  /** start_capture */
  function StartCapture(src: bytes, pat: bytes, s: nat, p: nat, caps: seq<Cap>, what: int): (r: Res)
    requires s <= |src| && 0 < p <= |pat|
    ensures r.Done? ==> r.e <= |src|
    decreases |pat| - p, 4, 0
  {
    if |caps| >= MAXCAPTURES then Fail else Match(src, pat, s, p, caps + [Cap(s, what)])
  }

  /** end_capture */
  function EndCapture(src: bytes, pat: bytes, s: nat, p: nat, caps: seq<Cap>): (r: Res)
    requires s <= |src| && 0 < p <= |pat|
    ensures r.Done? ==> r.e <= |src|
    decreases |pat| - p, 4, 0
  {
    var l := CaptureToClose(caps);
    if l < 0 then Fail else Match(src, pat, s, p, caps[l := Cap(caps[l].init, s - caps[l].init)])
  }

  /** The number of characters from `s' that the class matches */
  function RunLength(src: bytes, pat: bytes, s: nat, p: nat, ep: nat): (i: nat)
    requires s <= |src| && ep > 0
    ensures s + i <= |src|
    decreases |src| - s
  {
    if s < |src| && SingleMatch(src[s], pat, p, ep) then 1 + RunLength(src, pat, s + 1, p, ep) else 0
  }

  /** max_expand */
  function MaxExpand(src: bytes, pat: bytes, s: nat, p: nat, ep: nat, caps: seq<Cap>): (r: Res)
    requires s <= |src| && 0 < ep < |pat|
    ensures r.Done? ==> r.e <= |src|
    decreases |pat| - (ep + 1), 5, 0
  {
    MaxTry(src, pat, s, RunLength(src, pat, s, p, ep), ep, caps)
  }

  /** The second loop of max_expand, from `i' repetitions down */
  function MaxTry(src: bytes, pat: bytes, s: nat, i: nat, ep: nat, caps: seq<Cap>): (r: Res)
    requires s + i <= |src| && ep < |pat|
    ensures r.Done? ==> r.e <= |src|
    decreases |pat| - (ep + 1), 4, i
  {
    var r := Match(src, pat, s + i, ep + 1, caps);
    if r != NoMatch then r else if i == 0 then NoMatch else MaxTry(src, pat, s, i - 1, ep, caps)
  }

  /** min_expand */
  function MinExpand(src: bytes, pat: bytes, s: nat, p: nat, ep: nat, caps: seq<Cap>): (r: Res)
    requires s <= |src| && 0 < ep < |pat|
    ensures r.Done? ==> r.e <= |src|
    decreases |pat| - (ep + 1), 4, |src| - s
  {
    var r := Match(src, pat, s, ep + 1, caps);
    if r != NoMatch then r
    else if s < |src| && SingleMatch(src[s], pat, p, ep) then MinExpand(src, pat, s + 1, p, ep, caps)
    else NoMatch
  }
}
