/**
 What a pattern means (section 5.4.1 of the Lua 5.1 Reference Manual), without saying how to look
 for it, and the matcher measured against that.
 */
module PatternLanguage {
  import opened Basics
  import opened Pattern
  import opened PatternClasses

  /** A pattern item: how it is written at `p' and where the next one begins */
  datatype Item =
    | End
    | Anchor                                        // `$' at the end of the pattern
    | Open(what: int)
    | Close
    | Balance(x: byte, y: byte)
    | Frontier(ep: nat)
    | Back(digit: byte)
    // a single character class, `lo' times or more, once at most if bounded
    | Repeat(ep: nat, lo: nat, bounded: bool, lazy: bool)
    | Malformed

  function ItemAt(pat: bytes, p: nat): (Item, nat)
    requires p <= |pat|
  {
    var c, d := At(pat, p), At(pat, p + 1);
    if c == 0 then (End, p)
    else if c == DOLLAR && d == 0 then (Anchor, p)
    else if c == OPEN && d == CLOSE then (Open(CAP_POSITION), p + 2)
    else if c == OPEN then (Open(CAP_UNFINISHED), p + 1)
    else if c == CLOSE then (Close, p + 1)
    else if c == ESC && d == 'b' as int then
      (if At(pat, p + 2) == 0 || At(pat, p + 3) == 0 then (Malformed, p)
          else (Balance(At(pat, p + 2), At(pat, p + 3)), p + 4))
    else if c == ESC && d == 'f' as int then
      if At(pat, p + 2) != LBRACK || ClassEnd(pat, p + 2) == 0 then (Malformed, p)
      else (Frontier(ClassEnd(pat, p + 2)), ClassEnd(pat, p + 2))
    else if c == ESC && IsDigit(d) then (Back(d), p + 2)
    else
      var ep := ClassEnd(pat, p);
      if ep == 0 then (Malformed, p)
      else
        var q := At(pat, ep);
        if q == OPT then (Repeat(ep, 0, true, false), ep + 1)
        else if q == STAR then (Repeat(ep, 0, false, false), ep + 1)
        else if q == PLUS then (Repeat(ep, 1, false, false), ep + 1)
        else if q == DASH then (Repeat(ep, 0, false, true), ep + 1)
        else (Repeat(ep, 1, true, false), ep)
  }

  lemma ItemAdvances(pat: bytes, p: nat)
    requires p <= |pat|
    ensures var (item, next) := ItemAt(pat, p);
      next <= |pat| && (!item.End? && !item.Anchor? && !item.Malformed? ==> next > p)
  {
  }

  /** The class written from `p' to `ep' matches `k' characters from `s'. */
  ghost predicate Run(src: bytes, pat: bytes, p: nat, ep: nat, s: nat, k: nat)
    requires ep > 0
  {
    s + k <= |src| && forall i :: s <= i < s + k ==> InClass(ClassAt(pat, p, ep), src[i])
  }

  /** Reading from left to right, counting +1 for an `x' and -1 for a `y'; the first `x' opens. */
  function Depth(src: bytes, s: nat, m: nat, x: byte, y: byte): int
    requires s < m <= |src|
  {
    if m == s + 1 then 1
    else Depth(src, s, m - 1, x, y) + (if src[m - 1] == y then -1 else if src[m - 1] == x then 1 else 0)
  }

  /** The ending `y' is the first where the count reaches 0. */
  ghost predicate Balanced(src: bytes, s: nat, m: nat, x: byte, y: byte) {
    && s + 1 < m <= |src| && src[s] == x
    && Depth(src, s, m, x, y) == 0 && forall k :: s < k < m ==> Depth(src, s, k, x, y) > 0
  }

  /** The repetition counts that an item allows */
  ghost predicate Allowed(src: bytes, pat: bytes, s: nat, p: nat, item: Item, k: nat)
    requires item.Repeat? && item.ep > 0
  {
    item.lo <= k && (item.bounded ==> k <= 1) && Run(src, pat, p, item.ep, s, k)
  }

  /** The pattern from `p' accepts the subject from `s' to `e', extending the captures to `out'. */
  ghost predicate Accepts(src: bytes, pat: bytes, s: nat, p: nat, caps: seq<Cap>, e: nat, out: seq<Cap>)
    requires s <= |src| && p <= |pat|
    decreases |pat| - p
  {
    ItemAdvances(pat, p);
    var (item, next) := ItemAt(pat, p);
    match item
    case End => e == s && out == caps
    case Anchor => s == |src| && e == s && out == caps
    case Open(what) => |caps| < MAXCAPTURES && Accepts(src, pat, s, next, caps + [Cap(s, what)], e, out)
    case Close =>
      exists l: nat :: Innermost(caps, l)
        && Accepts(src, pat, s, next, caps[l := Cap(caps[l].init, s - caps[l].init)], e, out)
    case Balance(x, y) =>
      exists m: nat :: Balanced(src, s, m, x, y) && Accepts(src, pat, m, next, caps, e, out)
    case Frontier(ep) =>
      ep > 0 && Border(src, s, ClassAt(pat, p + 2, ep)) && Accepts(src, pat, s, next, caps, e, out)
    case Back(digit) =>
      var t := CaptureText(src, caps, digit - '0' as int);
      t.Some? && HasText(src, s, t.value) && Accepts(src, pat, s + |t.value|, next, caps, e, out)
    case Repeat(ep, lo, bounded, _) =>
      ep > 0 && exists k: nat :: Allowed(src, pat, s, p, item, k) && Accepts(src, pat, s + k, next, caps, e, out)
    case Malformed => false
  }

  // ---- balanced strings ---------------------------------------------------------

  lemma {:induction false} BalanceScan(src: bytes, s: nat, k: nat, x: byte, y: byte)
    requires s < k <= |src| && Depth(src, s, k, x, y) > 0
    requires forall i :: s < i <= k ==> Depth(src, s, i, x, y) > 0
    ensures var e := BalanceEnd(src, k, x, y, Depth(src, s, k, x, y));
      if e == 0 then forall m :: k < m <= |src| ==> Depth(src, s, m, x, y) > 0
      else e > k && Depth(src, s, e, x, y) == 0 && forall i :: s < i < e ==> Depth(src, s, i, x, y) > 0
    decreases |src| - k
  {
    if k < |src| {
      assert Depth(src, s, k + 1, x, y)
        == Depth(src, s, k, x, y) + (if src[k] == y then -1 else if src[k] == x then 1 else 0);
      if !(src[k] == y && Depth(src, s, k, x, y) == 1) { BalanceScan(src, s, k + 1, x, y); }
    }
  }

  /** matchbalance finds the balanced string, if there is one; there is never more than one. */
  lemma BalanceExact(src: bytes, s: nat, x: byte, y: byte, m: nat)
    requires s <= |src| && x != 0
    ensures Balanced(src, s, m, x, y) <==> m != 0 && m == MatchBalance(src, s, x, y)
  {
    if At(src, s) == x {
      assert s < |src|;
      assert Depth(src, s, s + 1, x, y) == 1;
      BalanceScan(src, s, s + 1, x, y);
    }
  }

  // ---- repetitions ----------------------------------------------------------------

  lemma {:induction false} RunLengthMax(src: bytes, pat: bytes, s: nat, p: nat, ep: nat, k: nat)
    requires s <= |src| && ep > 0
    ensures Run(src, pat, p, ep, s, k) <==> k <= RunLength(src, pat, s, p, ep)
    decreases |src| - s
  {
    hide SingleMatch, InClass, ClassAt;
    if s < |src| { SingleMatchExact(src[s], pat, p, ep); }
    if s < |src| && SingleMatch(src[s], pat, p, ep) {
      if k > 0 {
        RunLengthMax(src, pat, s + 1, p, ep, k - 1);
      }
    } else if k > 0 && s < |src| {
      assert s + k > s;
    }
  }

  /** What the matcher makes of the rest of the pattern after `k' repetitions */
  function Rest(src: bytes, pat: bytes, s: nat, k: nat, next: nat, caps: seq<Cap>): Res
    requires s + k <= |src| && next <= |pat|
  {
    Match(src, pat, s + k, next, caps)
  }

  /** `k' repetitions are what `r' came from, and none of the counts tried before led anywhere. */
  ghost predicate Picked(src: bytes, pat: bytes, s: nat, k: nat, next: nat, caps: seq<Cap>, r: Res)
    requires next <= |pat|
  {
    s + k <= |src| && Rest(src, pat, s, k, next, caps) == r
  }

  lemma {:induction false} MaxTryPicks(src: bytes, pat: bytes, s: nat, i: nat, ep: nat, next: nat,
                                       caps: seq<Cap>) returns (k: nat)
    requires s + i <= |src| && next == ep + 1 <= |pat|
    ensures k <= i
    ensures var r := MaxTry(src, pat, s, i, ep, caps);
      if r == NoMatch then forall j: nat :: j <= i ==> Rest(src, pat, s, j, next, caps) == NoMatch
      else Picked(src, pat, s, k, next, caps, r) && forall j: nat :: k < j <= i ==>
          Rest(src, pat, s, j, next, caps) == NoMatch
    decreases i
  {
    k := i;
    var r := Rest(src, pat, s, i, next, caps);
    if r == NoMatch && i > 0 { k := MaxTryPicks(src, pat, s, i - 1, ep, next, caps); }
  }

  lemma {:induction false} MinPicks(src: bytes, pat: bytes, s: nat, d: nat, p: nat, ep: nat, next: nat,
                                    caps: seq<Cap>) returns (k: nat)
    requires s + d <= |src| && 0 < ep && next == ep + 1 <= |pat| && Run(src, pat, p, ep, s, d)
    ensures d <= k <= RunLength(src, pat, s, p, ep)
    ensures var r := MinExpand(src, pat, s + d, p, ep, caps);
      if r == NoMatch then forall j: nat :: d <= j <= RunLength(src, pat, s, p, ep) ==>
          Rest(src, pat, s, j, next, caps) == NoMatch
      else Picked(src, pat, s, k, next, caps, r) && forall j: nat :: d <= j < k ==>
          Rest(src, pat, s, j, next, caps) == NoMatch
    decreases |src| - s - d
  {
    hide SingleMatch, InClass, ClassAt;
    k := d;
    var r := Rest(src, pat, s, d, next, caps);
    if s + d < |src| { SingleMatchExact(src[s + d], pat, p, ep); }
    RunLengthMax(src, pat, s, p, ep, d);
    RunLengthMax(src, pat, s, p, ep, d + 1);
    if r == NoMatch && s + d < |src| && SingleMatch(src[s + d], pat, p, ep) {
      k := MinPicks(src, pat, s, d + 1, p, ep, next, caps);
    }
  }

  /** Whether the matcher tries `j' repetitions before `k' */
  predicate Before(item: Item, j: nat, k: nat)
    requires item.Repeat?
  {
    if item.lazy then j < k else j > k
  }

  /**
   The result of an item that may be repeated: that of the first count, in the item's order, for
   which the rest matches.
   */
  ghost predicate FirstCount(src: bytes, pat: bytes, s: nat, p: nat, caps: seq<Cap>, item: Item, next: nat, r: Res)
    requires item.Repeat? && item.ep > 0 && next <= |pat|
  {
    if r == NoMatch then
      forall k: nat :: Allowed(src, pat, s, p, item, k) ==> Rest(src, pat, s, k, next, caps) == NoMatch
    else
      exists k: nat :: Allowed(src, pat, s, p, item, k) && Picked(src, pat, s, k, next, caps, r)
        && forall j: nat :: Allowed(src, pat, s, p, item, j) && Before(item, j, k) ==>
            Rest(src, pat, s, j, next, caps) == NoMatch
  }

  lemma RepeatPicks(src: bytes, pat: bytes, s: nat, p: nat, caps: seq<Cap>)
    requires s <= |src| && p <= |pat|
    requires ItemAt(pat, p).0.Repeat?
    ensures var (item, next) := ItemAt(pat, p);
      item.ep > 0 && next <= |pat| && FirstCount(src, pat, s, p, caps, item, next, Match(src, pat, s, p, caps))
  {
    ItemAdvances(pat, p);
    var (item, next) := ItemAt(pat, p);
    var ep, q := ClassEnd(pat, p), At(pat, ClassEnd(pat, p));
    var r := Match(src, pat, s, p, caps);
    if s < |src| { SingleMatchExact(src[s], pat, p, ep); }
    if q == STAR {
      StarPicks(src, pat, s, p, ep, caps);
    } else if q == PLUS {
      PlusPicks(src, pat, s, p, ep, caps);
    } else if q == DASH {
      DashPicks(src, pat, s, p, ep, caps);
    } else if q == OPT {
      OptPicks(src, pat, s, p, ep, caps);
    } else {
      assert Run(src, pat, p, ep, s, 1) <==> s < |src| && SingleMatch(src[s], pat, p, ep);
      assert r != NoMatch ==> Picked(src, pat, s, 1, next, caps, r);
    }
  }

  lemma StarPicks(src: bytes, pat: bytes, s: nat, p: nat, ep: nat, caps: seq<Cap>)
    requires s <= |src| && p < |pat| && ItemAt(pat, p) == (Repeat(ep, 0, false, false), ep + 1) && ep > 0
    ensures ep + 1 <= |pat|
    ensures FirstCount(src, pat, s, p, caps, Repeat(ep, 0, false, false), ep + 1, Match(src, pat, s, p, caps))
  {
    var most := RunLength(src, pat, s, p, ep);
    assert Match(src, pat, s, p, caps) == MaxTry(src, pat, s, most, ep, caps);
    forall k: nat ensures Run(src, pat, p, ep, s, k) <==> k <= most { RunLengthMax(src, pat, s, p, ep, k); }
    var k := MaxTryPicks(src, pat, s, most, ep, ep + 1, caps);
  }

  lemma DashPicks(src: bytes, pat: bytes, s: nat, p: nat, ep: nat, caps: seq<Cap>)
    requires s <= |src| && p < |pat| && ItemAt(pat, p) == (Repeat(ep, 0, false, true), ep + 1) && ep > 0
    ensures ep + 1 <= |pat|
    ensures FirstCount(src, pat, s, p, caps, Repeat(ep, 0, false, true), ep + 1, Match(src, pat, s, p, caps))
  {
    assert Match(src, pat, s, p, caps) == MinExpand(src, pat, s, p, ep, caps);
    forall k: nat ensures Run(src, pat, p, ep, s, k) <==> k <= RunLength(src, pat, s, p, ep) {
      RunLengthMax(src, pat, s, p, ep, k);
    }
    var k := MinPicks(src, pat, s, 0, p, ep, ep + 1, caps);
  }

  lemma OptPicks(src: bytes, pat: bytes, s: nat, p: nat, ep: nat, caps: seq<Cap>)
    requires s <= |src| && p < |pat| && ItemAt(pat, p) == (Repeat(ep, 0, true, false), ep + 1) && ep > 0
    ensures ep + 1 <= |pat|
    ensures FirstCount(src, pat, s, p, caps, Repeat(ep, 0, true, false), ep + 1, Match(src, pat, s, p, caps))
  {
    var r := Match(src, pat, s, p, caps);
    var item := Repeat(ep, 0, true, false);
    assert Allowed(src, pat, s, p, item, 0);
    assert Allowed(src, pat, s, p, item, 1) <==> s < |src| && SingleMatch(src[s], pat, p, ep) by {
      RunLengthMax(src, pat, s, p, ep, 1);
    }
    if r != NoMatch {
      if s < |src| && SingleMatch(src[s], pat, p, ep) && Match(src, pat, s + 1, ep + 1, caps) != NoMatch {
        assert Picked(src, pat, s, 1, ep + 1, caps, r);
      } else {
        assert Picked(src, pat, s, 0, ep + 1, caps, r);
      }
    }
  }

  lemma PlusPicks(src: bytes, pat: bytes, s: nat, p: nat, ep: nat, caps: seq<Cap>)
    requires s <= |src| && p < |pat| && ItemAt(pat, p) == (Repeat(ep, 1, false, false), ep + 1) && ep > 0
    ensures ep + 1 <= |pat|
    ensures FirstCount(src, pat, s, p, caps, Repeat(ep, 1, false, false), ep + 1, Match(src, pat, s, p, caps))
  {
    var r := Match(src, pat, s, p, caps);
    var item := Repeat(ep, 1, false, false);
    var most := RunLength(src, pat, s, p, ep);
    forall k: nat ensures Allowed(src, pat, s, p, item, k) <==> 1 <= k <= most { RunLengthMax(src, pat, s, p, ep, k); }
    if s < |src| && SingleMatch(src[s], pat, p, ep) {
      assert most == 1 + RunLength(src, pat, s + 1, p, ep);
      assert r == MaxExpand(src, pat, s + 1, p, ep, caps);
      assert r == MaxTry(src, pat, s + 1, RunLength(src, pat, s + 1, p, ep), ep, caps);
      var next := ep + 1;
      var k := MaxTryPicks(src, pat, s + 1, most - 1, ep, next, caps);
      forall j: nat | 1 <= j <= most
        ensures Rest(src, pat, s, j, next, caps) == Rest(src, pat, s + 1, j - 1, next, caps) {}
      assert r != NoMatch ==> Picked(src, pat, s, k + 1, next, caps, r);
    }
  }

  // ---- the matcher is exact -------------------------------------------------------

  ghost predicate Rejects(src: bytes, pat: bytes, s: nat, p: nat, caps: seq<Cap>)
    requires s <= |src| && p <= |pat|
  {
    forall e, out :: !Accepts(src, pat, s, p, caps, e, out)
  }

  /** What it means for a result to be right. */
  ghost predicate Right(src: bytes, pat: bytes, s: nat, p: nat, caps: seq<Cap>, r: Res)
    requires s <= |src| && p <= |pat|
  {
    match r
    case Done(e, out) => Accepts(src, pat, s, p, caps, e, out)
    case NoMatch => Rejects(src, pat, s, p, caps)
    case Fail => true
  }

  /** The rest of the pattern decides about an item that opens a capture. */
  lemma OpenRight(src: bytes, pat: bytes, s: nat, p: nat, caps: seq<Cap>, what: int, next: nat)
    requires s <= |src| && p <= |pat| && ItemAt(pat, p) == (Open(what), next) && next <= |pat|
    requires |caps| < MAXCAPTURES ==>
      Right(src, pat, s, next, caps + [Cap(s, what)], Match(src, pat, s, next, caps + [Cap(s, what)]))
    ensures Right(src, pat, s, p, caps, Match(src, pat, s, p, caps))
  {
    var r := Match(src, pat, s, p, caps);
    assert r == StartCapture(src, pat, s, next, caps, what);
    if |caps| < MAXCAPTURES {
      assert r == Match(src, pat, s, next, caps + [Cap(s, what)]);
      hide Match;
      forall e, out ensures Accepts(src, pat, s, p, caps, e, out) <==>
          Accepts(src, pat, s, next, caps + [Cap(s, what)], e, out) {}
    } else {
      assert r == Fail;
    }
  }

  lemma BalanceRight(src: bytes, pat: bytes, s: nat, p: nat, caps: seq<Cap>, x: byte, y: byte, next: nat)
    requires s <= |src| && p <= |pat| && ItemAt(pat, p) == (Balance(x, y), next) && next <= |pat|
    requires var m := MatchBalance(src, s, x, y); m != 0 ==>
        Right(src, pat, m, next, caps, Match(src, pat, m, next, caps))
    ensures Right(src, pat, s, p, caps, Match(src, pat, s, p, caps))
  {
    var m := MatchBalance(src, s, x, y);
    forall k: nat ensures Balanced(src, s, k, x, y) <==> k != 0 && k == m { BalanceExact(src, s, x, y, k); }
    assert Match(src, pat, s, p, caps) == if m == 0 then NoMatch else Match(src, pat, m, next, caps);
    hide Match, Balanced;
    forall e, out ensures Accepts(src, pat, s, p, caps, e, out) <==>
        m != 0 && Accepts(src, pat, m, next, caps, e, out) {}
  }

  lemma CloseAccepts(src: bytes, pat: bytes, s: nat, p: nat, caps: seq<Cap>, l: nat, next: nat)
    requires s <= |src| && p <= |pat| && ItemAt(pat, p) == (Close, next) && next <= |pat| && CaptureToClose(caps) == l
    ensures forall e, out :: Accepts(src, pat, s, p, caps, e, out) <==>
        Accepts(src, pat, s, next, caps[l := Cap(caps[l].init, s - caps[l].init)], e, out)
  {
    hide ItemAt, Innermost, CaptureToClose;
    ItemAdvances(pat, p);
    forall j: nat ensures Innermost(caps, j) <==> j == l { CaptureToCloseExact(caps, j); }
  }

  lemma CloseRight(src: bytes, pat: bytes, s: nat, p: nat, caps: seq<Cap>, next: nat)
    requires s <= |src| && p <= |pat| && ItemAt(pat, p) == (Close, next) && next <= |pat|
    requires var l := CaptureToClose(caps);
      l >= 0 ==> var closed := caps[l := Cap(caps[l].init, s - caps[l].init)];
        Right(src, pat, s, next, closed, Match(src, pat, s, next, closed))
    ensures Right(src, pat, s, p, caps, Match(src, pat, s, p, caps))
  {
    var r, l := Match(src, pat, s, p, caps), CaptureToClose(caps);
    assert r == EndCapture(src, pat, s, next, caps);
    if l >= 0 {
      var closed := caps[l := Cap(caps[l].init, s - caps[l].init)];
      assert r == Match(src, pat, s, next, closed);
      hide Match;
      CloseAccepts(src, pat, s, p, caps, l, next);
    } else {
      assert r == Fail;
    }
  }

  lemma FrontierRight(src: bytes, pat: bytes, s: nat, p: nat, caps: seq<Cap>, ep: nat, next: nat)
    requires s <= |src| && p <= |pat| && ItemAt(pat, p) == (Frontier(ep), next) && next <= |pat|
    requires Right(src, pat, s, next, caps, Match(src, pat, s, next, caps))
    ensures Right(src, pat, s, p, caps, Match(src, pat, s, p, caps))
  {
    var here := AtFrontier(src, s, pat, p + 2, ep);
    assert Match(src, pat, s, p, caps) == if here then Match(src, pat, s, next, caps) else NoMatch;
    AtFrontierExact(src, s, pat, p + 2, ep);
    hide Match, Border;
    forall e, out ensures Accepts(src, pat, s, p, caps, e, out) <==> here && Accepts(src, pat, s, next, caps, e, out) {}
  }

  lemma BackRight(src: bytes, pat: bytes, s: nat, p: nat, caps: seq<Cap>, digit: byte, next: nat)
    requires s <= |src| && p <= |pat| && ItemAt(pat, p) == (Back(digit), next) && next <= |pat|
    requires var l := CheckCapture(caps, digit);
      l >= 0 && SameText(src, s, caps[l]) ==>
          Right(src, pat, s + caps[l].len, next, caps, Match(src, pat, s + caps[l].len, next, caps))
    ensures Right(src, pat, s, p, caps, Match(src, pat, s, p, caps))
  {
    var r, l := Match(src, pat, s, p, caps), CheckCapture(caps, digit);
    if l >= 0 {
      var same := SameText(src, s, caps[l]);
      SameTextExact(src, s, caps, digit);
      assert r == if same then Match(src, pat, s + caps[l].len, next, caps) else NoMatch;
      hide Match, SameText;
      forall e, out ensures
        Accepts(src, pat, s, p, caps, e, out) <==> same && Accepts(src, pat, s + caps[l].len, next, caps, e, out) {}
    } else {
      assert r == Fail;
    }
  }

  lemma LastRight(src: bytes, pat: bytes, s: nat, p: nat, caps: seq<Cap>)
    requires s <= |src| && p <= |pat|
    requires var item := ItemAt(pat, p).0; item.End? || item.Anchor? || item.Malformed?
    ensures Right(src, pat, s, p, caps, Match(src, pat, s, p, caps))
  {
  }

  /**
   match returns NULL only if the pattern accepts no prefix of the rest of the
   subject, and what it returns otherwise the pattern accepts.
   */
  lemma {:induction false} MatchExact(src: bytes, pat: bytes, s: nat, p: nat, caps: seq<Cap>)
    requires s <= |src| && p <= |pat|
    ensures Right(src, pat, s, p, caps, Match(src, pat, s, p, caps))
    decreases |pat| - p
  {
    ItemAdvances(pat, p);
    var (item, next) := ItemAt(pat, p);
    if item.End? || item.Anchor? || item.Malformed? { LastRight(src, pat, s, p, caps); }
    hide Match, ItemAt, Accepts, Right;
    match item
    case End =>
    case Anchor =>
    case Malformed =>
    case Open(what) =>
      if |caps| < MAXCAPTURES { MatchExact(src, pat, s, next, caps + [Cap(s, what)]); }
      OpenRight(src, pat, s, p, caps, what, next);
    case Close =>
      var l := CaptureToClose(caps);
      if l >= 0 { MatchExact(src, pat, s, next, caps[l := Cap(caps[l].init, s - caps[l].init)]); }
      CloseRight(src, pat, s, p, caps, next);
    case Balance(x, y) =>
      var m := MatchBalance(src, s, x, y);
      if m != 0 { MatchExact(src, pat, m, next, caps); }
      BalanceRight(src, pat, s, p, caps, x, y, next);
    case Frontier(ep) =>
      MatchExact(src, pat, s, next, caps);
      FrontierRight(src, pat, s, p, caps, ep, next);
    case Back(digit) =>
      var l := CheckCapture(caps, digit);
      if l >= 0 && SameText(src, s, caps[l]) { MatchExact(src, pat, s + caps[l].len, next, caps); }
      BackRight(src, pat, s, p, caps, digit, next);
    case Repeat(ep, lo, bounded, lazy) =>
      RepeatPicks(src, pat, s, p, caps);
      forall k: nat | s + k <= |src| ensures Right(src, pat, s + k, next, caps, Rest(src, pat, s, k, next, caps)) {
        MatchExact(src, pat, s + k, next, caps);
      }
      RepeatExact(src, pat, s, p, caps, item, next, Match(src, pat, s, p, caps));
  }

  lemma RepeatExact(src: bytes, pat: bytes, s: nat, p: nat, caps: seq<Cap>, item: Item, next: nat, r: Res)
    requires s <= |src| && p < next <= |pat| && ItemAt(pat, p) == (item, next) && item.Repeat? && item.ep > 0
    requires FirstCount(src, pat, s, p, caps, item, next, r)
    requires forall k: nat :: s + k <= |src| ==> Right(src, pat, s + k, next, caps, Rest(src, pat, s, k, next, caps))
    ensures Right(src, pat, s, p, caps, r)
  {
    match r
    case Fail =>
    case Done(e, out) =>
      var k: nat :| Allowed(src, pat, s, p, item, k) && Picked(src, pat, s, k, next, caps, r);
      assert Right(src, pat, s + k, next, caps, Rest(src, pat, s, k, next, caps));
    case NoMatch =>
      forall e, out ensures !Accepts(src, pat, s, p, caps, e, out) {
        forall k: nat | Allowed(src, pat, s, p, item, k) ensures !Accepts(src, pat, s + k, next, caps, e, out) {
          assert Right(src, pat, s + k, next, caps, Rest(src, pat, s, k, next, caps));
        }
      }
  }

  /**
   `*', `+' and `?' take the largest number of repetitions for which the rest of the
   pattern accepts, `-' the smallest: no count tried before the one taken has any match.
   */
  lemma CountPreferred(src: bytes, pat: bytes, s: nat, p: nat, caps: seq<Cap>) returns (k: nat)
    requires s <= |src| && p <= |pat|
    requires ItemAt(pat, p).0.Repeat? && ItemAt(pat, p).0.ep > 0 && Match(src, pat, s, p, caps).Done?
    ensures ItemAt(pat, p).1 <= |pat|
    ensures var (item, next) := ItemAt(pat, p);
      && Allowed(src, pat, s, p, item, k)
      && Match(src, pat, s + k, next, caps) == Match(src, pat, s, p, caps)
      && forall j: nat :: Allowed(src, pat, s, p, item, j) && Before(item, j, k) ==>
          Rejects(src, pat, s + j, next, caps)
  {
    ItemAdvances(pat, p);
    var (item, next) := ItemAt(pat, p);
    var r := Match(src, pat, s, p, caps);
    RepeatPicks(src, pat, s, p, caps);
    k :| Allowed(src, pat, s, p, item, k) && Picked(src, pat, s, k, next, caps, r)
      && forall j: nat :: Allowed(src, pat, s, p, item, j) && Before(item, j, k) ==>
          Rest(src, pat, s, j, next, caps) == NoMatch;
    forall j: nat | Allowed(src, pat, s, p, item, j) && Before(item, j, k)
      ensures Rejects(src, pat, s + j, next, caps) {
      assert Rest(src, pat, s, j, next, caps) == NoMatch;
      MatchExact(src, pat, s + j, next, caps);
    }
  }

  // ---- well-formed patterns ---------------------------------------------------------

  /** Which captures are finished */
  function Shape(caps: seq<Cap>): seq<bool> {
    seq(|caps|, i requires 0 <= i < |caps| => caps[i].len != CAP_UNFINISHED)
  }

  function LastOpen(shape: seq<bool>): (l: int)
    ensures -1 <= l < |shape|
  {
    if shape == [] then -1
    else if !shape[|shape| - 1] then |shape| - 1
    else LastOpen(shape[..|shape| - 1])
  }

  /** The pattern from `p' has no errors, given which captures are open there. */
  predicate WellFormed(pat: bytes, p: nat, shape: seq<bool>)
    requires p <= |pat|
    decreases |pat| - p
  {
    ItemAdvances(pat, p);
    var (item, next) := ItemAt(pat, p);
    match item
    case End => true
    case Anchor => true
    case Open(what) => |shape| < MAXCAPTURES && WellFormed(pat, next, shape + [what != CAP_UNFINISHED])
    case Close =>
      var l := LastOpen(shape);
      l >= 0 && WellFormed(pat, next, shape[l := true])
    case Back(digit) =>
      var l := digit - '1' as int;
      0 <= l < |shape| && shape[l] && WellFormed(pat, next, shape)
    case Malformed => false
    case _ => WellFormed(pat, next, shape)
  }

  lemma {:induction false} ShapeOpen(caps: seq<Cap>)
    ensures LastOpen(Shape(caps)) == CaptureToClose(caps)
    decreases |caps|
  {
    if caps != [] {
      ShapeOpen(caps[..|caps| - 1]);
      assert Shape(caps)[..|caps| - 1] == Shape(caps[..|caps| - 1]);
    }
  }

  /** Captures begin before the place the matcher has reached. */
  ghost predicate CapsOk(caps: seq<Cap>, s: nat) {
    forall i :: 0 <= i < |caps| ==>
        caps[i].init <= s && (caps[i].len >= 0 || caps[i].len == CAP_UNFINISHED || caps[i].len == CAP_POSITION)
  }

  /** A well-formed pattern never makes the matcher fail. */
  lemma {:induction false} NeverFails(src: bytes, pat: bytes, s: nat, p: nat, caps: seq<Cap>)
    requires s <= |src| && p <= |pat| && WellFormed(pat, p, Shape(caps)) && CapsOk(caps, s)
    ensures Match(src, pat, s, p, caps) != Fail
    decreases |pat| - p
  {
    hide SingleMatch, ClassEnd, AtFrontier, RunLength;
    ItemAdvances(pat, p);
    var (item, next) := ItemAt(pat, p);
    match item
    case End =>
    case Anchor =>
    case Open(what) =>
      var caps' := caps + [Cap(s, what)];
      assert Shape(caps') == Shape(caps) + [what != CAP_UNFINISHED];
      NeverFails(src, pat, s, next, caps');
    case Close =>
      ShapeOpen(caps);
      var l := CaptureToClose(caps);
      var caps' := caps[l := Cap(caps[l].init, s - caps[l].init)];
      assert Shape(caps') == Shape(caps)[l := true];
      NeverFails(src, pat, s, next, caps');
    case Balance(x, y) =>
      var m := MatchBalance(src, s, x, y);
      if m != 0 { BalanceExact(src, s, x, y, m); NeverFails(src, pat, m, next, caps); }
    case Frontier(ep) => NeverFails(src, pat, s, next, caps);
    case Back(digit) =>
      var l := CheckCapture(caps, digit);
      if SameText(src, s, caps[l]) { NeverFails(src, pat, s + caps[l].len, next, caps); }
    case Repeat(ep, lo, bounded, lazy) =>
      RepeatPicks(src, pat, s, p, caps);
      forall k: nat | s + k <= |src|
        ensures Rest(src, pat, s, k, next, caps) != Fail { NeverFails(src, pat, s + k, next, caps); }
  }

  /** For a well-formed pattern, match succeeds exactly when the pattern accepts something. */
  lemma MatchComplete(src: bytes, pat: bytes, s: nat, p: nat, caps: seq<Cap>)
    requires s <= |src| && p <= |pat| && WellFormed(pat, p, Shape(caps)) && CapsOk(caps, s)
    ensures Match(src, pat, s, p, caps).Done? <==> exists e, out :: Accepts(src, pat, s, p, caps, e, out)
  {
    NeverFails(src, pat, s, p, caps);
    MatchExact(src, pat, s, p, caps);
    match Match(src, pat, s, p, caps)
    case Done(e, out) => assert Accepts(src, pat, s, p, caps, e, out);
    case _ =>
  }
}
