/** table.sort (ltablib.c): quicksort in place, recursive on the smaller half only. */
module Sort {
  import opened Basics

  /** A valid order function: asymmetric, and what is not comparable behaves as equal. */
  ghost predicate StrictWeak<T(!new)>(lt: (T, T) -> bool) {
    && (forall x, y :: lt(x, y) ==> !lt(y, x))
    && (forall x, y, z :: lt(x, y) ==> lt(x, z) || lt(z, y))
  }

  predicate Le<T>(lt: (T, T) -> bool, x: T, y: T) { !lt(y, x) }

  ghost predicate Sorted<T>(s: seq<T>, lt: (T, T) -> bool, l: int, u: int) {
    forall x, y :: 0 <= l <= x < y <= u < |s| ==> Le(lt, s[x], s[y])
  }

  /** The same elements, rearranged between `l' and `u' only. */
  ghost predicate Perm<T>(s: seq<T>, t: seq<T>, l: int, u: int) {
    && |t| == |s| && multiset(t) == multiset(s)
    && forall k :: 0 <= k < |s| && !(l <= k <= u) ==> t[k] == s[k]
  }

  lemma PermTrans<T>(r: seq<T>, s: seq<T>, t: seq<T>, l: int, u: int, l': int, u': int)
    requires Perm(r, s, l, u) && Perm(s, t, l', u') && l <= l' && u' <= u
    ensures Perm(r, t, l, u)
  {
  }

  lemma PermSwap<T>(s: seq<T>, i: int, j: int, l: int, u: int)
    requires 0 <= i < |s| && 0 <= j < |s| && l <= i <= u && l <= j <= u
    ensures Perm(s, s[i := s[j]][j := s[i]], l, u)
  {
  }

  lemma Cancel<T>(a: multiset<T>, x: multiset<T>, y: multiset<T>, c: multiset<T>)
    requires a + x + c == a + y + c
    ensures x == y
  {
    forall e ensures x[e] == y[e] { assert (a + x + c)[e] == (a + y + c)[e]; }
  }

  /** An element that is rearranged comes from the same range. */
  lemma PermRange<T>(s: seq<T>, t: seq<T>, l: int, u: int, k: int)
    requires Perm(s, t, l, u) && 0 <= l <= k <= u < |s|
    ensures t[k] in s[l..u + 1]
  {
    assert s == s[..l] + s[l..u + 1] + s[u + 1..];
    assert t == t[..l] + t[l..u + 1] + t[u + 1..];
    assert s[..l] == t[..l] && s[u + 1..] == t[u + 1..];
    assert multiset(s) == multiset(s[..l]) + multiset(s[l..u + 1]) + multiset(s[u + 1..]);
    assert multiset(t) == multiset(t[..l]) + multiset(t[l..u + 1]) + multiset(t[u + 1..]);
    Cancel(multiset(s[..l]), multiset(s[l..u + 1]), multiset(t[l..u + 1]), multiset(s[u + 1..]));
    assert t[k] in multiset(t[l..u + 1]) by { assert t[l..u + 1][k - l] == t[k]; }
  }

  /** A bound on the elements of a range outlives their rearrangement. */
  lemma PermBound<T>(s: seq<T>, t: seq<T>, l: int, u: int, p: T -> bool)
    requires Perm(s, t, l, u) && 0 <= l && u < |s|
    requires forall k :: l <= k <= u ==> p(s[k])
    ensures forall k :: l <= k <= u ==> p(t[k])
  {
    forall k | l <= k <= u ensures p(t[k]) {
      PermRange(s, t, l, u, k);
      var x :| 0 <= x < |s[l..u + 1]| && s[l..u + 1][x] == t[k];
      assert s[l + x] == t[k];
    }
  }

  function Swapped<T>(s: seq<T>, i: nat, j: nat): (t: seq<T>)
    requires i < |s| && j < |s|
    ensures |t| == |s|
  {
    s[i := s[j]][j := s[i]]
  }

  /** set2 with the two values exchanged */
  method Set2<T>(a: array<T>, i: nat, j: nat, ghost l: int, ghost u: int)
    requires i < a.Length && j < a.Length && l <= i <= u && l <= j <= u
    modifies a
    ensures a[..] == Swapped(old(a[..]), i, j) && Perm(old(a[..]), a[..], l, u)
  {
    PermSwap(a[..], i, j, l, u);
    a[i], a[j] := a[j], a[i];
    assert a[..] == Swapped(old(a[..]), i, j);
  }

  /** The first steps of auxsort: a[l] <= a[i] <= a[u] */
  method MedianOfThree<T(!new)>(a: array<T>, lt: (T, T) -> bool, l: nat, u: nat) returns (i: nat)
    requires StrictWeak(lt) && l < u < a.Length
    modifies a
    ensures Perm(old(a[..]), a[..], l, u) && i == (l + u) / 2
    ensures Le(lt, a[l], a[u]) && (u - l > 1 ==> Le(lt, a[l], a[i]) && Le(lt, a[i], a[u]))
  {
    hide Perm;
    PermSame(a[..], l, u);
    i := (l + u) / 2;
    if lt(a[u], a[l]) {
      PermSwap(a[..], l, u, l, u);
      a[l], a[u] := a[u], a[l];
    }
    if u - l == 1 { return; }
    ghost var s := a[..];
    if lt(a[i], a[l]) {
      PermSwap(a[..], i, l, l, u);
      a[i], a[l] := a[l], a[i];
    } else if lt(a[u], a[i]) {
      PermSwap(a[..], i, u, l, u);
      a[i], a[u] := a[u], a[i];
    }
    PermTrans(old(a[..]), s, a[..], l, u, l, u);
  }

  ghost predicate Below<T>(s: seq<T>, lt: (T, T) -> bool, from: int, to: int, p: T) {
    forall k :: 0 <= from <= k <= to < |s| ==> Le(lt, s[k], p)
  }

  ghost predicate Above<T>(s: seq<T>, lt: (T, T) -> bool, from: int, to: int, p: T) {
    forall k :: 0 <= from <= k <= to < |s| ==> Le(lt, p, s[k])
  }

  /** Repeat ++i until a[i] >= P: the pivot behind stops the scan before its guard could fire. */
  method ScanUp<T(!new)>(a: array<T>, lt: (T, T) -> bool, l: nat, u: nat, from: nat, pivot: T) returns (ok: bool,
      i: nat)
    requires StrictWeak(lt) && l <= from < u - 1 && u < a.Length && a[u - 1] == pivot
    requires Below(a[..], lt, l, from, pivot)
    ensures ok && from < i <= u - 1 && Below(a[..], lt, l, i - 1, pivot) && Le(lt, pivot, a[i])
  {
    i := from + 1;
    while lt(a[i], pivot)
      invariant from < i <= u - 1 && Below(a[..], lt, l, i - 1, pivot)
      decreases u - i
    {
      if i > u { return false, i; }
      i := i + 1;
    }
    ok := true;
  }

  /** Repeat --j until a[j] <= P: an element before `from' stops it. */
  method ScanDown<T(!new)>(a: array<T>, lt: (T, T) -> bool, l: nat, u: nat, from: nat, ghost stop: nat,
      pivot: T) returns (ok: bool, j: nat)
    requires StrictWeak(lt) && l <= stop < from <= u < a.Length && Le(lt, a[stop], pivot)
    requires Above(a[..], lt, from, u, pivot)
    ensures ok && stop <= j < from && Above(a[..], lt, j + 1, u, pivot) && Le(lt, a[j], pivot)
  {
    j := from - 1;
    while lt(pivot, a[j])
      invariant stop <= j < from && Above(a[..], lt, j + 1, u, pivot)
      decreases j
    {
      if j < l { return false, j; }
      j := j - 1;
    }
    ok := true;
  }

  lemma SwapBounds<T(!new)>(s: seq<T>, lt: (T, T) -> bool, l: int, u: int, i: int, j: int, p: T)
    requires StrictWeak(lt) && 0 <= l < i <= j <= u < |s|
    requires Below(s, lt, l, i - 1, p) && Above(s, lt, j + 1, u, p) && Le(lt, p, s[i]) && Le(lt, s[j], p)
    ensures var t := Swapped(s, i, j);
      Below(t, lt, l, i, p) && Above(t, lt, j, u, p) && (j < u - 1 ==> t[u - 1] == s[u - 1])
  {
  }

  lemma PivotAside<T(!new)>(s: seq<T>, lt: (T, T) -> bool, l: nat, u: nat)
    requires StrictWeak(lt) && l + 3 <= u < |s|
    requires var i := (l + u) / 2; Le(lt, s[l], s[i]) && Le(lt, s[i], s[u])
    ensures var i := (l + u) / 2;
      var t := Swapped(s, i, u - 1);
      t[u - 1] == s[i] && Below(t, lt, l, l, s[i]) && Above(t, lt, u - 1, u, s[i])
  {
  }

  lemma PivotHome<T(!new)>(s: seq<T>, lt: (T, T) -> bool, l: nat, u: nat, i: nat, j: int)
    requires StrictWeak(lt) && l < i <= u - 1 && u < |s| && j < i
    requires Below(s, lt, l, i - 1, s[u - 1]) && Above(s, lt, j + 1, u, s[u - 1]) && j >= 0
    ensures var t := Swapped(s, u - 1, i);
      Below(t, lt, l, i - 1, t[i]) && Above(t, lt, i + 1, u, t[i])
  {
  }

  /** The partition: the pivot goes to its place; neither guard against bad order functions fires. */
  method Partition<T(!new)>(a: array<T>, lt: (T, T) -> bool, l: nat, u: nat) returns (ok: bool, m: nat)
    requires StrictWeak(lt) && l + 3 <= u < a.Length
    requires var i := (l + u) / 2; Le(lt, a[l], a[i]) && Le(lt, a[i], a[u])
    modifies a
    ensures ok && l < m < u && Perm(old(a[..]), a[..], l, u)
    ensures Below(a[..], lt, l, m - 1, a[m]) && Above(a[..], lt, m + 1, u, a[m])
  {
    hide Perm, Below, Above, StrictWeak, Swapped;
    var i := (l + u) / 2;
    var pivot := a[i];
    PivotAside(a[..], lt, l, u);
    Set2(a, i, u - 1, l, u);
    i := l;
    var j := u - 1;
    while true
      invariant l <= i <= j <= u - 1 && i < u - 1 && (i == j ==> l < i) && a[..][u - 1] == pivot
      invariant Perm(old(a[..]), a[..], l, u)
      invariant Below(a[..], lt, l, i, pivot) && Above(a[..], lt, j, u, pivot)
      decreases j - i, if i < j then 1 else 0
    {
      ghost var s, stop := a[..], if i < j then i else i - 1;
      OneBelow(s, lt, l, i, stop, pivot);
      ok, i := ScanUp(a, lt, l, u, i, pivot);
      if !ok { return; }
      ok, j := ScanDown(a, lt, l, u, j, stop, pivot);
      if !ok { return; }
      if j < i { break; }
      SwapBounds(s, lt, l, u, i, j, pivot);
      Set2(a, i, j, l, u);
      PermTrans(old(a[..]), s, a[..], l, u, l, u);
    }
    ghost var s := a[..];
    PivotHome(s, lt, l, u, i, j);
    Set2(a, u - 1, i, l, u);
    PermTrans(old(a[..]), s, a[..], l, u, l, u);
    m := i;
  }

  lemma OneBelow<T>(s: seq<T>, lt: (T, T) -> bool, from: int, to: int, k: int, p: T)
    requires 0 <= from <= k <= to < |s| && Below(s, lt, from, to, p)
    ensures Le(lt, s[k], p)
  {
  }

  // ---- the whole sort -------------------------------------------------------------


  /** What lies outside of l..u is in its final place. */
  ghost predicate Final<T>(s: seq<T>, lt: (T, T) -> bool, l0: int, u0: int, l: int, u: int) {
    forall x, y :: 0 <= l0 <= x < y <= u0 < |s| && (x < l || y > u) ==> Le(lt, s[x], s[y])
  }

  /** Rearranging l..u leaves what is outside of it final. */
  lemma FinalStays<T>(s: seq<T>, t: seq<T>, lt: (T, T) -> bool, l0: int, u0: int, l: int, u: int)
    requires Final(s, lt, l0, u0, l, u) && Perm(s, t, l, u) && 0 <= l0 <= l && u <= u0 < |s|
    ensures Final(t, lt, l0, u0, l, u)
  {
    forall x, y | l0 <= x < y <= u0 && (x < l || y > u) ensures Le(lt, t[x], t[y]) {
      if l <= y <= u {
        PermBound(s, t, l, u, e => Le(lt, s[x], e));
      } else if l <= x <= u {
        PermBound(s, t, l, u, e => Le(lt, e, s[y]));
      }
    }
  }

  /** What is not within one half of l..u is in order. */
  ghost predicate Split<T>(s: seq<T>, lt: (T, T) -> bool, l0: int, u0: int, l: int, u: int, m: int) {
    forall x, y :: 0 <= l0 <= x < y <= u0 < |s| && !(l <= x && y < m) && !(m < x && y <= u) ==> Le(lt, s[x], s[y])
  }

  /** The pivot separates the two halves. */
  lemma FinalSplit<T(!new)>(s: seq<T>, lt: (T, T) -> bool, l0: int, u0: int, l: int, u: int, m: int)
    requires StrictWeak(lt) && Final(s, lt, l0, u0, l, u) && 0 <= l0 <= l < m < u <= u0 < |s|
    requires Below(s, lt, l, m - 1, s[m]) && Above(s, lt, m + 1, u, s[m])
    ensures Split(s, lt, l0, u0, l, u, m)
  {
  }

  /** Once one half is sorted, only the other is left. */
  lemma FinalHalf<T>(s: seq<T>, t: seq<T>, lt: (T, T) -> bool, l0: int, u0: int, l: int, u: int, m: int, lower: bool)
    requires 0 <= l0 <= l < m < u <= u0 < |s|
    requires Split(s, lt, l0, u0, l, u, m)
    requires if lower then Perm(s, t, l, m - 1) && Sorted(t, lt, l, m - 1)
        else Perm(s, t, m + 1, u) && Sorted(t, lt, m + 1, u)
    ensures if lower then Final(t, lt, l0, u0, m + 1, u) else Final(t, lt, l0, u0, l, m - 1)
  {
    var j, i := if lower then l else m + 1, if lower then m - 1 else u;
    forall x, y | l0 <= x < y <= u0 && !(l <= x && y < m) && !(m < x && y <= u) ensures Le(lt, t[x], t[y]) {
      if j <= x <= i {
        PermBound(s, t, j, i, e => Le(lt, e, s[y]));
      } else if j <= y <= i {
        PermBound(s, t, j, i, e => Le(lt, s[x], e));
      }
    }
  }

  lemma FinalSorted<T>(s: seq<T>, lt: (T, T) -> bool, l0: int, u0: int, l: int, u: int)
    requires Final(s, lt, l0, u0, l, u) && Sorted(s, lt, l, u) && 0 <= l0 <= l && u <= u0 < |s|
    ensures Sorted(s, lt, l0, u0)
  {
  }

  lemma PermSame<T>(s: seq<T>, l: int, u: int)
    ensures Perm(s, s, l, u)
  {
  }

  lemma StartFinal<T>(s: seq<T>, lt: (T, T) -> bool, l: int, u: int)
    ensures Final(s, lt, l, u, l, u)
  {
  }

  lemma NoneLeft<T>(s: seq<T>, lt: (T, T) -> bool, l0: int, u0: int, l: int, u: int)
    requires Final(s, lt, l0, u0, l, u) && l >= u
    ensures Sorted(s, lt, l0, u0)
  {
  }

  lemma ThreeSorted<T>(s: seq<T>, lt: (T, T) -> bool, l: int, u: int)
    requires 0 <= l < u < |s| && u - l <= 2 && Le(lt, s[l], s[u])
    requires var i := (l + u) / 2; u - l > 1 ==> Le(lt, s[l], s[i]) && Le(lt, s[i], s[u])
    ensures Sorted(s, lt, l, u)
  {
  }

  /** Rearranging l..u again keeps the permutation and what is final. */
  lemma Rearranged<T>(start: seq<T>, s: seq<T>, t: seq<T>, lt: (T, T) -> bool, l0: int, u0: int, l: int, u: int)
    requires 0 <= l0 <= l && u <= u0 < |s|
    requires Perm(start, s, l0, u0) && Final(s, lt, l0, u0, l, u) && Perm(s, t, l, u)
    ensures Perm(start, t, l0, u0) && Final(t, lt, l0, u0, l, u)
  {
    hide Perm, Final;
    PermTrans(start, s, t, l0, u0, l, u);
    FinalStays(s, t, lt, l0, u0, l, u);
  }

  /** The half in the nested call is the smaller one. */
  lemma HalfDepth(d: nat, half: int, size: nat, all: nat)
    requires d == 0 || Pow2(d) <= half
    requires 2 * half < size <= all && size >= 4
    ensures Pow2(d + 1) <= all
  {
  }

  /**
   auxsort sorts a[l..u] and touches nothing else. For a valid order function no error is
   raised, and the calls nest no deeper than the logarithm of the length.
   */
  method AuxSort<T(!new)>(a: array<T>, lt: (T, T) -> bool, l0: nat, u0: int) returns (ok: bool, ghost depth: nat)
    requires StrictWeak(lt) && -1 <= u0 < a.Length
    modifies a
    ensures ok && Perm(old(a[..]), a[..], l0, u0) && Sorted(a[..], lt, l0, u0)
    ensures depth == 0 || Pow2(depth) <= u0 - l0 + 1
    decreases u0 - l0
  {
    hide Perm, Sorted, Final, Split, Below, Above, StrictWeak, Le, Pow2;
    var l: int, u: int := l0, u0;
    depth := 0;
    ghost var start := a[..];
    PermSame(start, l0, u0);
    StartFinal(start, lt, l0, u0);
    while l < u
      invariant l0 <= l && u <= u0 && a.Length == |start|
      invariant l <= u + 2 || l == l0
      invariant Perm(start, a[..], l0, u0) && Final(a[..], lt, l0, u0, l, u)
      invariant depth == 0 || Pow2(depth) <= u0 - l0 + 1
      decreases u - l
    {
      ghost var s := a[..];
      var m := MedianOfThree(a, lt, l, u);
      ghost var s1 := a[..];
      Rearranged(start, s, s1, lt, l0, u0, l, u);
      if u - l <= 2 {
        ThreeSorted(s1, lt, l, u);
        FinalSorted(s1, lt, l0, u0, l, u);
        return true, depth;
      }
      ok, m := Partition(a, lt, l, u);
      if !ok { return; }
      ghost var s2 := a[..];
      Rearranged(start, s1, s2, lt, l0, u0, l, u);
      FinalSplit(s2, lt, l0, u0, l, u, m);
      // sort the smaller half in a call, and the larger one in the next round
      var j, i;
      ghost var lower := m - l < u - m;
      ghost var l1, u1 := l, u;
      if m - l < u - m {
        j := l; i := m - 1; l := i + 2;
      } else {
        j := m + 1; i := u; u := j - 2;
      }
      ghost var d;
      ok, d := AuxSort(a, lt, j, i);
      PermTrans(start, s2, a[..], l0, u0, j, i);
      FinalHalf(s2, a[..], lt, l0, u0, l1, u1, m, lower);
      if d + 1 > depth { depth := d + 1; }
      HalfDepth(d, i - j + 1, u1 - l1 + 1, u0 - l0 + 1);
    }
    NoneLeft(a[..], lt, l0, u0, l, u);
    ok := true;
  }

  /** table.sort: elements 1 to n of the list; index 0 is no part of it. */
  method SortList<T(!new)>(a: array<T>, lt: (T, T) -> bool) returns (ok: bool)
    requires StrictWeak(lt) && a.Length > 0
    modifies a
    ensures ok && a[0] == old(a[0]) && multiset(a[1..]) == multiset(old(a[1..]))
    ensures forall x, y :: 1 <= x < y < a.Length ==> Le(lt, a[x], a[y])
  {
    ghost var s := a[..];
    ghost var depth;
    ok, depth := AuxSort(a, lt, 1, a.Length - 1);
    assert s == s[..1] + s[1..] && a[..] == a[..1] + a[1..];
    assert s[..1] == a[..1];
    Cancel(multiset(s[..1]), multiset(s[1..]), multiset(a[1..]), multiset{});
    assert forall x, y :: 1 <= x < y < a.Length ==> Le(lt, a[..][x], a[..][y]);
  }
}
