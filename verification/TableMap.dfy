/** The finite map that an array part and a hash part stand for. */
module TableMap {
  import opened Basics
  import opened TableChain
  import opened TableSizes

  predicate InArray(key: Key, size: nat) { key.Int? && 1 <= key.n <= size }

  ghost function NodeValue(node: seq<Node>, key: Key): Value {
    if Holds(node, key) then var i :| 0 <= i < |node| && node[i].key == key; node[i].val else Nil
  }

  /** What the two parts hold for a key */
  ghost function Lookup(arr: seq<Value>, node: seq<Node>, key: Key): Value {
    if InArray(key, |arr|) then arr[key.n - 1] else NodeValue(node, key)
  }

  /** The indices of the array part that are in use */
  ghost function ArrayKeys(arr: seq<Value>): set<int> {
    set i | 1 <= i <= |arr| && InUse(arr, i)
  }

  predicate InUse(arr: seq<Value>, i: int)
    requires 1 <= i <= |arr|
  {
    arr[i - 1] != Nil
  }

  ghost function NodeKeys(node: seq<Node>): set<Key> {
    set i | 0 <= i < |node| && node[i].key != NoKey :: node[i].key
  }

  ghost function LiveKeys(node: seq<Node>): set<Key> {
    set i | 0 <= i < |node| && node[i].key != NoKey && node[i].val != Nil :: node[i].key
  }

  ghost function IntKeys(s: set<int>): set<Key> { set i | i in s :: Int(i) }

  ghost function Contents(arr: seq<Value>, node: seq<Node>): map<Key, Value> {
    map k | k in IntKeys(ArrayKeys(arr)) + LiveKeys(node) :: Lookup(arr, node, k)
  }

  /** No key of the hash part belongs into the array part. */
  ghost predicate Apart(arr: seq<Value>, node: seq<Node>) {
    forall i :: 0 <= i < |node| ==> !InArray(node[i].key, |arr|)
  }

  ghost predicate Distinct(node: seq<Node>) {
    && OneNode(node)
    && forall i :: 0 <= i < |node| && node[i].key == NoKey ==> node[i].val == Nil
  }

  lemma NodeValueAt(node: seq<Node>, i: nat)
    requires Distinct(node) && i < |node|
    ensures NodeValue(node, node[i].key) == node[i].val
  {
    assert Holds(node, node[i].key);
  }

  lemma ContentsKeys(arr: seq<Value>, node: seq<Node>)
    requires Distinct(node) && Apart(arr, node)
    ensures forall k :: k in Contents(arr, node) <==> Lookup(arr, node, k) != Nil
    ensures forall k :: k in Contents(arr, node) ==> Contents(arr, node)[k] == Lookup(arr, node, k)
  {
    forall k ensures k in Contents(arr, node) <==> Lookup(arr, node, k) != Nil {
      if InArray(k, |arr|) {
        assert k.n in ArrayKeys(arr) <==> arr[k.n - 1] != Nil;
        assert k !in LiveKeys(node);
        assert k in IntKeys(ArrayKeys(arr)) <==> k.n in ArrayKeys(arr);
      } else {
        assert k !in IntKeys(ArrayKeys(arr));
        if Holds(node, k) {
          var i :| 0 <= i < |node| && node[i].key == k;
          NodeValueAt(node, i);
        }
      }
    }
  }

  /** Contents is determined by what is looked up. */
  lemma SameContents(arr: seq<Value>, node: seq<Node>, arr': seq<Value>, node': seq<Node>)
    requires Distinct(node) && Apart(arr, node) && Distinct(node') && Apart(arr', node')
    requires forall k :: Lookup(arr', node', k) == Lookup(arr, node, k)
    ensures Contents(arr', node') == Contents(arr, node)
  {
    ContentsKeys(arr, node);
    ContentsKeys(arr', node');
  }

  function Put(m: map<Key, Value>, key: Key, v: Value): map<Key, Value> {
    if v == Nil then m - {key} else m[key := v]
  }

  lemma PutContents(arr: seq<Value>, node: seq<Node>, arr': seq<Value>, node': seq<Node>, key: Key, v: Value)
    requires Distinct(node) && Apart(arr, node) && Distinct(node') && Apart(arr', node')
    requires forall k :: Lookup(arr', node', k) == if k == key then v else Lookup(arr, node, k)
    ensures Contents(arr', node') == Put(Contents(arr, node), key, v)
  {
    ContentsKeys(arr, node);
    ContentsKeys(arr', node');
  }

  // ---- counting ---------------------------------------------------------------

  /** The keys that an array part of the given size leaves to the hash part */
  ghost function HashKeys(keys: set<Key>, size: nat): set<Key> { set k | k in keys && !InArray(k, size) }

  lemma {:induction false} ManyKeys(node: seq<Node>)
    requires Distinct(node) && forall i :: 0 <= i < |node| ==> node[i].key != NoKey
    ensures |NodeKeys(node)| == |node|
    decreases |node|
  {
    if node == [] {
      assert NodeKeys(node) == {};
    } else {
      var last := |node| - 1;
      ManyKeys(node[..last]);
      assert NodeKeys(node) == NodeKeys(node[..last]) + {node[last].key};
      assert node[last].key !in NodeKeys(node[..last]);
    }
  }

  /** With fewer keys than nodes there is a free node. */
  lemma FreeExists(node: seq<Node>)
    requires Distinct(node) && |NodeKeys(node)| < |node|
    ensures exists i :: 0 <= i < |node| && node[i].key == NoKey
  {
    if forall i :: 0 <= i < |node| ==> node[i].key != NoKey { ManyKeys(node); }
  }

  lemma Some<T>(s: set<T>) returns (x: T)
    requires s != {}
    ensures x in s
  {
    x :| x in s;
  }

  lemma {:induction false} IntKeysSize(s: set<int>)
    ensures |IntKeys(s)| == |s|
    decreases |s|
  {
    if |s| == 0 {
      assert IntKeys(s) == {};
    } else {
      var x := Some(s);
      IntKeysSize(s - {x});
      assert IntKeys(s) == IntKeys(s - {x}) + {Int(x)};
    }
  }

  /** The integer keys that may go to an array part */
  ghost function Candidates(keys: set<Key>): set<int> {
    set k | k in keys && InArray(k, MAXASIZE) :: k.n
  }

  /** The keys that stay out of the array part are all keys but those up to its size. */
  lemma HashKeysSize(keys: set<Key>, size: nat)
    requires size <= MAXASIZE
    ensures |HashKeys(keys, size)| == |keys| - |UpTo(Candidates(keys), size)|
  {
    var low := UpTo(Candidates(keys), size);
    IntKeysSize(low);
    assert keys == HashKeys(keys, size) + IntKeys(low) by {
      forall k | k in keys ensures k in HashKeys(keys, size) + IntKeys(low) {
        if InArray(k, size) { assert k.n in low; }
      }
    }
    assert HashKeys(keys, size) !! IntKeys(low);
  }
}
