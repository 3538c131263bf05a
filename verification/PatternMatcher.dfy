/** The matcher as it runs: the captures are entered in place and taken back when a match fails (lstrlib.c). */
module PatternMatcher {
  import opened Basics
  import opened Pattern
  import opened PatternLanguage

  /** What the functions return: NULL, or the end of the match; an error does not return. */
  datatype Ptr = Null | At(e: nat) | Error

  class MatchState {
    const src: bytes
    const pat: bytes
    var level: nat                // total number of captures (finished or unfinished)
    const capture: array<Cap>

    ghost predicate Valid()
      reads this
    {
      capture.Length == MAXCAPTURES && level <= MAXCAPTURES
    }

    ghost function Caps(): seq<Cap>
      requires Valid()
      reads this, capture
    {
      capture[..level]
    }

    constructor (src: bytes, pat: bytes)
      ensures Valid() && this.src == src && this.pat == pat && Caps() == [] && fresh(capture)
    {
      this.src, this.pat, level := src, pat, 0;
      capture := new Cap[MAXCAPTURES](i => Cap(0, 0));
    }

    /** What a call leaves behind, given what the functional matcher says. */
    ghost predicate Outcome(r: Ptr, res: Res, caps: seq<Cap>)
      reads this, capture
    {
      && Valid()
      && match res
         case NoMatch => r == Null && Caps() == caps       // a failed call leaves the captures as it found them
         case Done(e, out) => r == At(e) && Caps() == out
         case Fail => r == Error
    }

    /** match */
    method DoMatch(s0: nat, p0: nat) returns (r: Ptr)
      requires Valid() && s0 <= |src| && p0 <= |pat|
      modifies this`level, capture
      ensures Outcome(r, Match(src, pat, s0, p0, old(Caps())), old(Caps()))
      decreases |pat| - p0, 3, 0
    {
      var s: nat, p: nat := s0, p0;
      hide SingleMatch, ClassEnd, MatchBalance, AtFrontier, RunLength;
      ghost var caps := Caps();
      while true
        invariant Valid() && s <= |src| && p0 <= p <= |pat| && Caps() == caps
        invariant Match(src, pat, s, p, caps) == Match(src, pat, s0, p0, caps)
        decreases |pat| - p
      {
        var c := Pattern.At(pat, p);
        if c == OPEN {
          if Pattern.At(pat, p + 1) == CLOSE {
            r := StartCapture(s, p + 2, CAP_POSITION);
          } else {
            r := StartCapture(s, p + 1, CAP_UNFINISHED);
          }
          return;
        } else if c == CLOSE {
          r := EndCapture(s, p + 1);
          return;
        } else if c == ESC && Pattern.At(pat, p + 1) == 'b' as int {
          if Pattern.At(pat, p + 2) == 0 || Pattern.At(pat, p + 3) == 0 { return Error; }
          var m := Balance(s, Pattern.At(pat, p + 2), Pattern.At(pat, p + 3));
          if m == 0 { return Null; }
          s, p := m, p + 4;
        } else if c == ESC && Pattern.At(pat, p + 1) == 'f' as int {
          if Pattern.At(pat, p + 2) != LBRACK { return Error; }
          var ep := ClassEnd(pat, p + 2);
          if ep == 0 { return Error; }
          if !AtFrontier(src, s, pat, p + 2, ep) { return Null; }
          p := ep;
        } else if c == ESC && IsDigit(Pattern.At(pat, p + 1)) {
          var l: int := Pattern.At(pat, p + 1) - '1' as int;
          if l < 0 || l >= level || capture[l].len == CAP_UNFINISHED { return Error; }
          if !SameText(src, s, capture[l]) { return Null; }
          s, p := s + capture[l].len, p + 2;
        } else if c == 0 {
          return At(s);
        } else if c == DOLLAR && Pattern.At(pat, p + 1) == 0 {
          return if s == |src| then At(s) else Null;
        } else {
          var ep := ClassEnd(pat, p);
          if ep == 0 { return Error; }
          var m := s < |src| && SingleMatch(src[s], pat, p, ep);
          var q := Pattern.At(pat, ep);
          if q == OPT {
            if m {
              r := DoMatch(s + 1, ep + 1);
              if r != Null { return; }
            }
            p := ep + 1;
          } else if q == STAR {
            r := MaxExpandAt(s, p, ep);
            return;
          } else if q == PLUS {
            if !m { return Null; }
            r := MaxExpandAt(s + 1, p, ep);
            return;
          } else if q == DASH {
            r := MinExpandAt(s, p, ep);
            return;
          } else {
            if !m { return Null; }
            s, p := s + 1, ep;
          }
        }
      }
    }

    /** matchbalance */
    method Balance(s0: nat, b: byte, e: byte) returns (m: nat)
      requires s0 <= |src| && b != 0
      ensures m == MatchBalance(src, s0, b, e)
    {
      if Pattern.At(src, s0) != b { return 0; }
      var s, cont := s0 + 1, 1;
      while s < |src|
        invariant s <= |src| && cont >= 1 && BalanceEnd(src, s, b, e, cont) == MatchBalance(src, s0, b, e)
      {
        if src[s] == e {
          cont := cont - 1;
          if cont == 0 { return s + 1; }
        } else if src[s] == b {
          cont := cont + 1;
        }
        s := s + 1;
      }
      return 0;
    }

    /** max_expand */
    method MaxExpandAt(s: nat, p: nat, ep: nat) returns (r: Ptr)
      requires Valid() && s <= |src| && 0 < ep < |pat|
      modifies this`level, capture
      ensures Outcome(r, MaxExpand(src, pat, s, p, ep, old(Caps())), old(Caps()))
      decreases |pat| - (ep + 1), 5, 0
    {
      ghost var caps := Caps();
      var i: int := 0;
      while s + i < |src| && SingleMatch(src[s + i], pat, p, ep)
        invariant 0 <= i && s + i <= |src|
        invariant i + RunLength(src, pat, s + i, p, ep) == RunLength(src, pat, s, p, ep)
      {
        i := i + 1;
      }
      while i >= 0
        invariant -1 <= i && s + i <= |src| && Valid() && Caps() == caps
        invariant MaxExpand(src, pat, s, p, ep, caps) == if i < 0 then NoMatch else MaxTry(src, pat, s, i, ep, caps)
      {
        r := DoMatch(s + i, ep + 1);
        if r != Null { return; }
        i := i - 1;
      }
      return Null;
    }

    /** min_expand */
    method MinExpandAt(s0: nat, p: nat, ep: nat) returns (r: Ptr)
      requires Valid() && s0 <= |src| && 0 < ep < |pat|
      modifies this`level, capture
      ensures Outcome(r, MinExpand(src, pat, s0, p, ep, old(Caps())), old(Caps()))
      decreases |pat| - (ep + 1), 5, 0
    {
      ghost var caps := Caps();
      var s := s0;
      while true
        invariant s <= |src| && Valid() && Caps() == caps
        invariant MinExpand(src, pat, s, p, ep, caps) == MinExpand(src, pat, s0, p, ep, caps)
        decreases |src| - s
      {
        r := DoMatch(s, ep + 1);
        if r != Null { return; }
        if s < |src| && SingleMatch(src[s], pat, p, ep) { s := s + 1; } else { return Null; }
      }
    }

    /** start_capture */
    method StartCapture(s: nat, p: nat, what: int) returns (r: Ptr)
      requires Valid() && s <= |src| && 0 < p <= |pat|
      modifies this`level, capture
      ensures Outcome(r, Pattern.StartCapture(src, pat, s, p, old(Caps()), what), old(Caps()))
      decreases |pat| - p, 4, 0
    {
      ghost var caps := Caps();
      if level >= MAXCAPTURES { return Error; }
      capture[level] := Cap(s, what);
      level := level + 1;
      assert Caps() == caps + [Cap(s, what)];
      r := DoMatch(s, p);
      if r == Null { level := level - 1; }
    }

    /** end_capture */
    method EndCapture(s: nat, p: nat) returns (r: Ptr)
      requires Valid() && s <= |src| && 0 < p <= |pat|
      modifies this`level, capture
      ensures Outcome(r, Pattern.EndCapture(src, pat, s, p, old(Caps())), old(Caps()))
      decreases |pat| - p, 4, 0
    {
      ghost var caps := Caps();
      var l := ToClose();
      if l < 0 { return Error; }
      capture[l] := Cap(capture[l].init, s - capture[l].init);
      assert Caps() == caps[l := Cap(caps[l].init, s - caps[l].init)];
      r := DoMatch(s, p);
      if r == Null {
        capture[l] := Cap(capture[l].init, CAP_UNFINISHED);
        assert Caps() == caps;
      }
    }

    /** capture_to_close */
    method ToClose() returns (l: int)
      requires Valid()
      ensures l == CaptureToClose(Caps())
    {
      l := level - 1;
      assert Caps()[..level] == Caps();
      while l >= 0
        invariant -1 <= l < level && CaptureToClose(Caps()[..l + 1]) == CaptureToClose(Caps())
      {
        assert Caps()[..l + 1][..l] == Caps()[..l];
        if capture[l].len == CAP_UNFINISHED { return; }
        l := l - 1;
      }
    }
  }
}
