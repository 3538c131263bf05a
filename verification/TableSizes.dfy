/** How a table chooses the size of its array part (ltable.c, lobject.c). */
module TableSizes {
  import opened Basics
  import opened TableChain

  /** max size of the array part is 2^MAXBITS */
  const MAXBITS: nat := 26

  const MAXASIZE: nat := Pow2(MAXBITS)

  // ---- luaO_log2 ------------------------------------------------------------

  /** the table log_2: one plus the place of the highest bit of a byte */
  function Log2Table(): (t: seq<int>)
    ensures |t| == 256
  {
    [0, 1] + seq(2, _ => 2) + seq(4, _ => 3) + seq(8, _ => 4) + seq(16, _ => 5) + seq(32, _ => 6)
    + seq(64, _ => 7) + seq(128, _ => 8)
  }

  lemma ByteLog(x: nat)
    requires 0 < x < 256
    ensures 1 <= Log2Table()[x] <= 8
    ensures Pow2(Log2Table()[x] - 1) <= x < Pow2(Log2Table()[x])
  {
    assert Pow2(1) == 2 && Pow2(2) == 4 && Pow2(3) == 8 && Pow2(4) == 16;
    assert Pow2(5) == 32 && Pow2(6) == 64 && Pow2(7) == 128 && Pow2(8) == 256;
  }

  ghost predicate HighBit(x: nat, r: nat) { Pow2(r) <= x < 2 * Pow2(r) }

  lemma HighBitShift(x: nat, r: nat)
    requires HighBit(x / 256, r)
    ensures HighBit(x, r + 8)
  {
    Pow2Adds(r, 8);
    assert Pow2(8) == 256;
  }

  /** luaO_log2: the place of the highest bit, and -1 for zero */
  method Log2(x: nat) returns (l: int)
    ensures x == 0 ==> l == -1
    ensures x > 0 ==> l >= 0 && HighBit(x, l)
  {
    l := -1;
    var y := x;
    while y >= 256
      invariant l >= -1 && (x > 0 ==> y > 0) && (x == 0 ==> y == 0 && l == -1)
      invariant forall r: nat :: HighBit(y, r) ==> HighBit(x, r + 1 + l)
    {
      forall r: nat | HighBit(y / 256, r) ensures HighBit(y, r + 8) { HighBitShift(y, r); }
      l := l + 8;
      y := y / 256;
    }
    if x > 0 {
      ByteLog(y);
      assert HighBit(y, Log2Table()[y] - 1);
    }
    l := l + Log2Table()[y];
  }

  /** The exponent of the least power of two that is not below `k` */
  ghost predicate IsCeilLog(k: nat, i: nat) { k <= Pow2(i) && (i > 0 ==> Pow2(i - 1) < k) }

  /** ceillog2 */
  method CeilLog2(k: nat) returns (i: nat)
    requires k >= 1
    ensures IsCeilLog(k, i)
  {
    var l := Log2(k - 1);
    i := l + 1;
  }

  lemma CeilLogUnique(k: nat, i: nat, j: nat)
    requires IsCeilLog(k, i) && IsCeilLog(k, j)
    ensures i == j
  {
    if i < j { if i < j - 1 { Pow2Grows(i, j - 1); } }
    if j < i { if j < i - 1 { Pow2Grows(j, i - 1); } }
  }

  // ---- counting integer keys by slices ----------------------------------------

  /** The keys between 2^(i-1) and 2^i */
  ghost function Slice(s: set<int>, i: nat): set<int> {
    set k | k in s && (if i == 0 then 0 else Pow2(i - 1)) < k <= Pow2(i)
  }

  /** The keys from 1 to `m` */
  ghost function UpTo(s: set<int>, m: int): set<int> { set k | k in s && 0 < k <= m }

  ghost predicate Counted(nums: seq<nat>, s: set<int>) {
    && |nums| == MAXBITS + 1
    && forall i :: 0 <= i <= MAXBITS ==> nums[i] == |Slice(s, i)|
  }

  function Sum(nums: seq<nat>, i: nat): nat
    requires i <= |nums|
  {
    if i == 0 then 0 else Sum(nums, i - 1) + nums[i - 1]
  }

  /** The first slices make up the keys up to a power of two. */
  lemma {:induction false} SumCounts(nums: seq<nat>, s: set<int>, i: nat)
    requires Counted(nums, s) && i <= MAXBITS
    ensures Sum(nums, i + 1) == |UpTo(s, Pow2(i))|
    decreases i
  {
    if i == 0 {
      assert Slice(s, 0) == UpTo(s, 1);
      assert Sum(nums, 1) == Sum(nums, 0) + nums[0];
    } else {
      SumCounts(nums, s, i - 1);
      var low, high := UpTo(s, Pow2(i - 1)), Slice(s, i);
      assert UpTo(s, Pow2(i)) == low + high && low !! high;
    }
  }

  lemma {:induction false} UpToBound(s: set<int>, m: nat)
    ensures |UpTo(s, m)| <= m
    decreases m
  {
    if m == 0 {
      assert UpTo(s, 0) == {};
    } else {
      UpToBound(s, m - 1);
      assert UpTo(s, m) == UpTo(s, m - 1) + (if m in s then {m as int} else {});
    }
  }

  /** countint: one more key is counted, if it can be an index of the array part. */
  method CountInt(k: int, nums: array<nat>, ghost s: set<int>) returns (c: nat)
    requires Counted(nums[..], s) && (0 < k <= MAXASIZE ==> k !in s)
    modifies nums
    ensures c == if 0 < k <= MAXASIZE then 1 else 0
    ensures Counted(nums[..], if c == 1 then s + {k} else s)
  {
    if !(0 < k <= MAXASIZE) { return 0; }
    var i := CeilLog2(k);
    if i > MAXBITS { if i - 1 > MAXBITS { Pow2Grows(MAXBITS, i - 1); } }
    ghost var was := nums[..];
    nums[i] := nums[i] + 1;
    CountAdds(was, s, k, i, nums[..]);
    return 1;
  }

  lemma CountAdds(was: seq<nat>, s: set<int>, k: nat, i: nat, nums: seq<nat>)
    requires Counted(was, s) && k !in s && k > 0 && IsCeilLog(k, i)
    requires i <= MAXBITS && nums == was[i := was[i] + 1]
    ensures Counted(nums, s + {k})
  {
    hide Slice, IsCeilLog, Pow2;
    forall j | 0 <= j <= MAXBITS ensures nums[j] == |Slice(s + {k}, j)| { SliceAdds(s, k, i, j); }
  }

  /** A new key joins the slice of its logarithm and no other. */
  lemma SliceAdds(s: set<int>, k: nat, i: nat, j: nat)
    requires k !in s && k > 0 && IsCeilLog(k, i)
    ensures |Slice(s + {k}, j)| == |Slice(s, j)| + if j == i then 1 else 0
  {
    hide Pow2;
    if j == i {
      assert Slice(s + {k}, j) == Slice(s, j) + {k};
    } else {
      assert !IsCeilLog(k, j) by { if IsCeilLog(k, j) { CeilLogUnique(k, i, j); } }
      assert Slice(s + {k}, j) == Slice(s, j);
    }
  }

  // ---- computesizes -----------------------------------------------------------

  /** A power of two below 2^i of which more than half is in use */
  ghost predicate Dense(s: set<int>, n: nat, i: nat) {
    |UpTo(s, n)| > n / 2 && exists j: nat :: j < i && n == Pow2(j)
  }

  /** `n` is the largest power of two with more than half of 1..n in use, or zero. */
  ghost predicate Optimal(s: set<int>, n: nat) {
    && (n == 0 || Dense(s, n, MAXBITS + 1))
    && forall i: nat {:trigger Pow2(i)} :: |UpTo(s, Pow2(i))| > Pow2(i) / 2 ==> Pow2(i) <= n
  }

  lemma SlotsOf(nums: seq<nat>, s: set<int>, i: nat)
    requires Counted(nums, s) && i <= MAXBITS
    ensures Sum(nums, i + 1) == |UpTo(s, Pow2(i))| <= Pow2(i)
    ensures i > 0 ==> Sum(nums, i) <= Pow2(i - 1)
  {
    SumCounts(nums, s, i);
    UpToBound(s, Pow2(i));
    if i > 0 { SumCounts(nums, s, i - 1); UpToBound(s, Pow2(i - 1)); }
  }

  /** computesizes: the array part gets the best size, and `na` is the number of keys going there. */
  method ComputeSizes(nums: array<nat>, narray: nat, ghost s: set<int>) returns (n: nat, na: nat)
    requires Counted(nums[..], s) && narray == |s| && forall k :: k in s ==> 0 < k <= MAXASIZE
    ensures Optimal(s, n) && na == |UpTo(s, n)| && n <= MAXASIZE
    ensures n / 2 <= na <= n
  {
    hide Pow2, Sum, UpTo, Best, Dense, Counted;
    ghost var q := nums[..];
    Totals(q, s);
    var i, twotoi, a := 0, 1, 0;
    n, na := 0, 0;
    while twotoi / 2 < narray
      invariant i <= MAXBITS + 1 && twotoi == Pow2(i)
      invariant a == Sum(q, i) && a <= narray && (i == MAXBITS + 1 ==> a == narray)
      invariant (i > 0 && narray > 0 ==> a < narray)
      invariant n == 0 || Dense(s, n, i)
      invariant na == |UpTo(s, n)| && Best(s, n, i)
      decreases MAXBITS + 1 - i
    {
      SlotsOf(q, s, i);
      UpToAll(s, Pow2(i));
      ghost var n0 := n;
      if nums[i] > 0 {
        a := a + nums[i];
        if a > twotoi / 2 {
          n := twotoi;
          na := a;
        }
      }
      BestStep(s, n0, n, i);
      if a == narray {
        Enough(s, n, i);
        DenseBest(s, n, i + 1);
        break;
      }
      i, twotoi := i + 1, twotoi * 2;
    }
    if twotoi / 2 >= narray { TooFew(s, n, i); }
    UpToBound(s, n);
    if twotoi / 2 >= narray { DenseBest(s, n, i); }
  }

  lemma Totals(q: seq<nat>, s: set<int>)
    requires Counted(q, s) && forall k :: k in s ==> 0 < k <= MAXASIZE
    ensures |q| == MAXBITS + 1 && Sum(q, MAXBITS + 1) == |s| && Sum(q, 0) == 0 && Pow2(0) == 1
    ensures |UpTo(s, 0)| == 0 && Best(s, 0, 0)
    ensures forall i :: 0 <= i <= MAXBITS ==> Sum(q, i + 1) == Sum(q, i) + q[i] && Pow2(i + 1) == 2 * Pow2(i)
  {
    hide Slice;
    SumCounts(q, s, MAXBITS);
    assert UpTo(s, MAXASIZE) == s;
    assert UpTo(s, 0) == {};
  }

  lemma DenseBest(s: set<int>, n: nat, i: nat)
    requires i <= MAXBITS + 1 && (n == 0 || Dense(s, n, i))
    ensures n == 0 || Dense(s, n, MAXBITS + 1)
    ensures n / 2 <= |UpTo(s, n)| && n <= MAXASIZE
  {
    hide Pow2, UpTo;
    if n > 0 {
      var j: nat :| j < i && n == Pow2(j);
      if j < MAXBITS { Pow2Grows(j, MAXBITS); }
    }
  }

  /** None below 2^i is better. */
  ghost predicate Best(s: set<int>, n: nat, i: nat) {
    forall j: nat {:trigger Pow2(j)} :: j < i && |UpTo(s, Pow2(j))| > Pow2(j) / 2 ==> Pow2(j) <= n
  }

  lemma BestStep(s: set<int>, n0: nat, n: nat, i: nat)
    requires Best(s, n0, i) && (n0 == 0 || Dense(s, n0, i))
    requires n == if |UpTo(s, Pow2(i))| > Pow2(i) / 2 then Pow2(i) else n0
    ensures Best(s, n, i + 1) && (n == 0 || Dense(s, n, i + 1))
  {
    forall j: nat | j < i + 1 && |UpTo(s, Pow2(j))| > Pow2(j) / 2 ensures Pow2(j) <= n {
      if j < i && n == Pow2(i) { Pow2Grows(j, i); }
    }
  }

  lemma UpToAll(s: set<int>, m: int)
    ensures |UpTo(s, m)| <= |s|
  {
    assert UpTo(s, m) <= s;
    SubsetSize(UpTo(s, m), s);
  }

  lemma SubsetSize<T>(a: set<T>, b: set<T>)
    requires a <= b
    ensures |a| <= |b|
  {
    assert b == a + (b - a);
  }

  /** All keys are counted: a larger array would be half empty. */
  lemma Enough(s: set<int>, n: nat, i: nat)
    requires |s| == |UpTo(s, Pow2(i))|
    requires Best(s, n, i + 1)
    ensures forall j: nat {:trigger Pow2(j)} :: |UpTo(s, Pow2(j))| > Pow2(j) / 2 ==> Pow2(j) <= n
  {
    UpToBound(s, Pow2(i));
    forall j: nat | |UpTo(s, Pow2(j))| > Pow2(j) / 2 ensures Pow2(j) <= n {
      if j > i { Pow2Grows(i, j); UpToAll(s, Pow2(j)); }
    }
  }

  lemma TooFew(s: set<int>, n: nat, i: nat)
    requires Pow2(i) / 2 >= |s|
    requires Best(s, n, i)
    ensures forall j: nat {:trigger Pow2(j)} :: |UpTo(s, Pow2(j))| > Pow2(j) / 2 ==> Pow2(j) <= n
  {
    forall j: nat | |UpTo(s, Pow2(j))| > Pow2(j) / 2 ensures Pow2(j) <= n {
      if j >= i { if j > i { Pow2Grows(i, j); } UpToAll(s, Pow2(j)); }
    }
  }
}
