/** What several parts of the model share. */
module Basics {

  datatype Option<+T> = None | Some(value: T)

  /** unsigned char */
  type byte = x: int | 0 <= x < 256

  type bytes = seq<byte>

  /** llimits.h: maximum value of an int that is safe to compute with */
  const MAX_INT: nat := 0x7fff_fffd

  predicate IsDigit(c: int) { '0' as int <= c <= '9' as int }

  ghost predicate NoDup<T>(q: seq<T>) { forall i, j :: 0 <= i < j < |q| ==> q[i] != q[j] }

  function Elems<T>(q: seq<T>): set<T> { set x | x in q }

  function Pow2(i: nat): (p: nat)
    ensures p >= 1
  {
    if i == 0 then 1 else 2 * Pow2(i - 1)
  }

  lemma {:induction false} Pow2Grows(i: nat, j: nat)
    requires i < j
    ensures 2 * Pow2(i) <= Pow2(j)
    decreases j
  {
    if i < j - 1 { Pow2Grows(i, j - 1); }
  }

  lemma {:induction false} Pow2Adds(i: nat, j: nat)
    ensures Pow2(i + j) == Pow2(i) * Pow2(j)
    decreases j
  {
    if j > 0 { Pow2Adds(i, j - 1); }
  }
}
