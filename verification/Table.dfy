/**
 Tables (ltable.c): an array part and a hash part that grow and shrink together. The
 table agrees with a finite map, and no re-insertion ever starts another rehash.
 */
module Table {
  import opened Basics
  import opened TableChain
  import opened TableSizes
  import opened TableMap

  datatype Slot = ArraySlot(i: nat) | NodeSlot(i: nat)

  datatype Error = NilIndex | NaNIndex | Overflow

  datatype NextResult = Element(key: Key, value: Value) | End | Invalid


  datatype Result = Found(slot: Slot) | Failed(error: Error)

  /** The place of a key's value */
  predicate IsSlot(arr: seq<Value>, node: seq<Node>, slot: Slot, key: Key) {
    match slot
    case ArraySlot(i) => i < |arr| && key == Int(i + 1)
    case NodeSlot(i) => i < |node| && node[i].key == key != NoKey
  }

  /** The keys of all places, in the order in which luaH_next numbers them */
  ghost function Layout(arr: seq<Value>, node: seq<Node>): seq<Key> {
    seq(|arr|, i => Int(i + 1)) + seq(|node|, i requires 0 <= i < |node| => node[i].key)
  }

  /** One of the first `n' groups of assignments clears the field. */
  ghost predicate Cleared(edits: nat -> seq<(Key, Value)>, n: nat, k: Key) {
    exists j: nat, i: nat :: j < n && i < |edits(j)| && edits(j)[i] == (k, Nil)
  }

  lemma ClearedLater(edits: nat -> seq<(Key, Value)>, n: nat, k: Key)
    ensures Cleared(edits, n, k) ==> Cleared(edits, n + 1, k)
  {
  }

  /** The keys come from different places up to `at'. */
  ghost predicate Visited(keys: seq<Key>, layout: seq<Key>, at: int) {
    && (forall i, j :: 0 <= i < j < |keys| ==> keys[i] != keys[j])
    && forall k :: k in keys ==> exists p :: 0 <= p < |layout| && p <= at && layout[p] == k
  }

  lemma NoneTwice(keys: seq<Key>, layout: seq<Key>, at: int)
    requires Visited(keys, layout, at)
    ensures forall i, j :: 0 <= i < j < |keys| ==> keys[i] != keys[j]
  {
  }

  lemma VisitNext(keys: seq<Key>, layout: seq<Key>, at: int, p: int)
    requires Visited(keys, layout, at) && -1 <= at < p < |layout|
    requires forall q :: 0 <= q < |layout| && layout[q] == layout[p] ==> q == p
    ensures Visited(keys + [layout[p]], layout, p)
  {
    assert layout[p] !in keys;
    var more := keys + [layout[p]];
    forall i, j | 0 <= i < j < |more| ensures more[i] != more[j] {
      if j == |keys| { assert more[i] == keys[i] && keys[i] in keys; }
    }
    forall k | k in more ensures exists q :: 0 <= q < |layout| && q <= p && layout[q] == k {
      if k in keys { var q :| 0 <= q < |layout| && q <= at && layout[q] == k; } else { assert layout[p] == k; }
    }
  }

  /** What is left of the fields `m' of a table: no other field has come, and only cleared ones are gone. */
  ghost predicate Stays(now: map<Key, Value>, m: map<Key, Value>, layout: seq<Key>, edits: nat -> seq<(Key, Value)>,
                        n: nat) {
    && (forall k :: k in now ==> k in m)
    && (forall k :: k in m ==> k in layout && k != NoKey)
    && forall k :: k in m && !Cleared(edits, n, k) ==> k in now
  }

  lemma ValueHasKey(h: Key -> nat, node: seq<Node>, tails: seq<seq<nat>>, i: nat)
    requires Chains(h, node, tails) && i < |node| && node[i].val != Nil
    ensures node[i].key != NoKey && |tails| == |node|
    ensures var p := MainPos(h, node[i].key, |node|); p < |node| && i in tails[p]
  {
    assert FreeOk(node, i) && KeyOk(h, node, tails, i);
  }

  lemma ChainsSize(h: Key -> nat, node: seq<Node>, tails: seq<seq<nat>>)
    requires Chains(h, node, tails)
    ensures |node| > 0
  {
  }

  lemma ChainsDistinct(h: Key -> nat, node: seq<Node>, tails: seq<seq<nat>>)
    requires Chains(h, node, tails)
    ensures Distinct(node)
  {
    forall i | 0 <= i < |node| && node[i].key == NoKey ensures node[i].val == Nil { assert FreeOk(node, i); }
  }

  class Table {
    const h: Key -> nat
    var arr: seq<Value>          // array part
    var node: seq<Node>
    var lastfree: int            // any free position is before this position
    var dummy: bool              // whether `node' is the common dummynode
    ghost var tails: seq<seq<nat>>

    ghost predicate Shape()
      reads this
    {
      && Chains(h, node, tails) && Apart(arr, node)
      && |arr| <= MAXASIZE && lastfree <= |node|
      && (exists i: nat :: i <= MAXBITS && |node| == Pow2(i))
      && (dummy ==> node == [FREE] && lastfree <= 0)
    }

    ghost predicate Valid()
      reads this
    {
      Shape() && (!dummy ==> forall i :: 0 <= i < |node| && lastfree <= i ==> node[i].key != NoKey)
    }

    ghost function Map(): map<Key, Value>
      reads this
    {
      Contents(arr, node)
    }

    /** The chain walk of luaH_get and its kin */
    method Search(key: Key) returns (i: int)
      requires Chains(h, node, tails) && key != NoKey
      ensures -1 <= i < |node|
      ensures if i >= 0 then node[i].key == key else !Holds(node, key)
    {
      var n: int := MainPos(h, key, |node|);
      forall i | 0 <= i < |node| && node[i].key == key ensures i in tails[n] { assert KeyOk(h, node, tails, i); }
      while n != NULL
        invariant n == NULL || 0 <= n < |node|
        invariant forall i :: 0 <= i < |node| && node[i].key == key ==> n != NULL && i in tails[n]
        decreases if n == NULL then 0 else |tails[n]|
      {
        assert TailOk(node, tails, n);
        if node[n].key == key { return n; }
        n := node[n].next;
      }
      return -1;
    }

    /** luaH_get */
    method Get(key: Key) returns (v: Value)
      requires Valid()
      ensures v == if key in Map() then Map()[key] else Nil
      ensures v != Nil <==> key in Map()
    {
      ChainsDistinct(h, node, tails);
      ContentsKeys(arr, node);
      if key == NoKey {
        return Nil;
      }
      if InArray(key, |arr|) { return arr[key.n - 1]; }
      var i := Search(key);
      if i < 0 { return Nil; }
      NodeValueAt(node, i);
      return node[i].val;
    }

    /** getfreepos: the last free node, if there is one. */
    method GetFreePos() returns (n: int)
      requires Valid()
      modifies this`lastfree
      ensures -1 <= n < |node| && Shape()
      ensures n >= 0 ==> !dummy && node[n].key == NoKey && lastfree == n
      ensures n >= 0 ==> forall i :: n < i < |node| ==> node[i].key != NoKey
      ensures n < 0 ==> dummy || forall i :: 0 <= i < |node| ==> node[i].key != NoKey
    {
      while lastfree > 0
        invariant Shape()
        invariant !dummy ==> forall i :: 0 <= i < |node| && lastfree <= i ==> node[i].key != NoKey
        decreases lastfree
      {
        lastfree := lastfree - 1;
        if node[lastfree].key == NoKey { return lastfree; }
      }
      lastfree := lastfree - 1;
      return -1;
    }

    /** setarrayvector and setnodevector with nothing in them */
    constructor (hash: Key -> nat, narray: nat)
      requires narray <= MAXASIZE
      ensures Valid() && h == hash && |arr| == narray && dummy && Map() == map[]
    {
      h := hash;
      arr, node, lastfree, dummy := seq(narray, _ => Nil), [FREE], 0, true;
      tails := [[0]];
      new;
      assert Pow2(0) == 1;
      assert forall i :: 0 <= i < |node| ==> TailOk(node, tails, i);
      assert ArrayKeys(arr) == {};
    }

    /** luaH_set found or made the place; this stores the value there. */
    method Store(slot: Slot, v: Value, ghost key: Key)
      requires Valid() && IsSlot(arr, node, slot, key)
      modifies this`arr, this`node
      ensures Valid() && Map() == Put(old(Map()), key, v)
      ensures |arr| == old(|arr|) && |node| == old(|node|) && NodeKeys(node) == old(NodeKeys(node))
      ensures Layout(arr, node) == old(Layout(arr, node))
    {
      ChainsDistinct(h, node, tails);
      ghost var arr0, node0 := arr, node;
      match slot {
        case ArraySlot(i) => arr := arr[i := v];
        case NodeSlot(i) =>
          ValueSet(h, node, tails, i, v);
          node := node[i := node[i].(val := v)];
      }
      ChainsDistinct(h, node, tails);
      StoredValues(arr0, node0, arr, node, slot, key, v);
      PutContents(arr0, node0, arr, node, key, v);
      assert forall i :: 0 <= i < |node| ==> node[i].key == node0[i].key;
      KeysKept(node0, node);
    }

    /** newkey: the key gets a node; the table is rehashed only when no free node is left. */
    method NewKey(key: Key, ghost grow: bool) returns (r: Result)
      requires Valid() && key != NoKey && key != NaN && !InArray(key, |arr|) && !Holds(node, key)
      requires !grow ==> !dummy && |NodeKeys(node)| < |node|
      modifies this
      ensures r.Found? ==> Valid() && IsSlot(arr, node, r.slot, key) && Map() == old(Map())
      ensures r.Failed? ==> r.error == Overflow && |old(Map()).Keys| >= Pow2(MAXBITS)
      ensures !grow ==> r.Found? && Kept(old(arr), old(node), arr, node, key) && dummy == old(dummy)
      decreases if grow then 1 else 0, 0
    {
      hide Chains, Apart, NodeKeys, Contents, MainPos, Placed, Holds, Distinct, Pow2;
      ChainsSize(h, node, tails);
      var mp := MainPos(h, key, |node|);
      ghost var node0, tails0 := node, tails;
      if node[mp].val != Nil || dummy {
        var n := GetFreePos();
        if n < 0 {
          if !grow { ChainsDistinct(h, node, tails); FreeExists(node); }
          var ok := Rehash(key);
          if !ok { return Failed(Overflow); }
          r := Set(key, false);
          return;
        }
        mp := Collide(mp, n, key);
      } else {
        TakenPlace(h, node, tails, mp, key);
        node := node[mp := node[mp].(key := key)];
      }
      ChainsDistinct(h, node0, tails0);
      PlacedMap(h, arr, node0, node, tails, key, mp);
      return Found(NodeSlot(mp));
    }

    /** The node before `mp' in the chain from `first' */
    method Previous(first: nat, mp: nat) returns (prev: nat)
      requires Chains(h, node, tails) && first < |node| && first != mp && mp in tails[first]
      ensures prev < |node| && node[prev].next == mp && prev != mp
    {
      prev := first;
      while node[prev].next != mp
        invariant prev < |node| == |tails| && prev != mp && mp in tails[prev]
        decreases |tails[prev]|
      {
        assert TailOk(node, tails, prev);
        prev := node[prev].next;
      }
    }

    /** Brent's variation: the main position is taken, and `n' is free. */
    method Collide(mp: nat, n: nat, key: Key) returns (p: nat)
      requires Chains(h, node, tails) && mp < |node| && n < |node| && node[n].key == NoKey && node[mp].val != Nil
      requires key != NoKey && key != NaN && !Holds(node, key) && MainPos(h, key, |node|) == mp
      modifies this`node, this`tails
      ensures Placed(h, old(node), node, tails, key, p) && node[n].key != NoKey
    {
      hide Chains, Placed, MainPos, InsertTails, MoveTails, Holds;
      ValueHasKey(h, node, tails, mp);
      var othern := MainPos(h, node[mp].key, |node|);
      if othern != mp {
        othern := Previous(othern, mp);
        MovedAway(h, node, tails, mp, n, othern, key);
        tails := MoveTails(tails, mp, n);
        node := node[othern := node[othern].(next := n)];
        node := node[n := node[mp]];
        node := node[mp := Node(key, Nil, NULL)];
        return mp;
      } else {
        LinkedBehind(h, node, tails, mp, n, key);
        tails := InsertTails(node, tails, mp, n);
        node := node[n := Node(key, Nil, node[mp].next)];
        node := node[mp := node[mp].(next := n)];
        return n;
      }
    }

    /** The key has a place, whether or not there is a value in it. */
    ghost predicate Present(key: Key)
      reads this
    {
      key != NoKey && (InArray(key, |arr|) || Holds(node, key))
    }

    /** luaH_set: the place of the key, new if need be; the map is the same until a value is stored. */
    method Set(key: Key, ghost grow: bool) returns (r: Result)
      requires Valid()
      requires !grow ==> key != NoKey && key != NaN
      requires !grow ==> InArray(key, |arr|) || Holds(node, key) || (!dummy && |NodeKeys(node)| < |node|)
      modifies this
      ensures r.Found? ==> Valid() && IsSlot(arr, node, r.slot, key) && Map() == old(Map())
      ensures r.Failed? ==> r.error == if key == NoKey then NilIndex else if key == NaN then NaNIndex else Overflow
      ensures key == NoKey || key == NaN ==> r.Failed?
      ensures r.Failed? && r.error != Overflow ==> Valid() && Map() == old(Map())
      ensures r == Failed(Overflow) ==> |old(Map()).Keys| >= Pow2(MAXBITS)
      ensures old(Present(key)) ==> r.Found? && arr == old(arr) && node == old(node)
      ensures !grow ==> r.Found? && Kept(old(arr), old(node), arr, node, key) && dummy == old(dummy)
      decreases if grow then 1 else 0, 1
    {
      if InArray(key, |arr|) { return Found(ArraySlot(key.n - 1)); }
      if key == NoKey { return Failed(NilIndex); }
      var i := Search(key);
      if i >= 0 {
        assert KeyOk(h, node, tails, i);
        return Found(NodeSlot(i));
      }
      if key == NaN { return Failed(NaNIndex); }
      r := NewKey(key, grow);
    }

    /** numusearray: counts the keys of the array part, slice by slice. */
    method NumUseArray(nums: array<nat>) returns (ause: nat)
      requires nums.Length == MAXBITS + 1 && |arr| <= MAXASIZE
      requires forall i :: 0 <= i < nums.Length ==> nums[i] == 0
      modifies nums
      ensures Counted(nums[..], ArrayKeys(arr)) && ause == |ArrayKeys(arr)|
    {
      hide Pow2, UpTo, Slice, ArrayKeys, Counted;
      ghost var s := ArrayKeys(arr);
      ause := 0;
      var i, lg, ttlg := 1, 0, 1;
      NoneUsed(s);
      while lg <= MAXBITS
        invariant 0 <= lg <= MAXBITS + 1 && ttlg == Pow2(lg) && i >= 1
        invariant i - 1 == SliceEnd(lg, |arr|)
        invariant forall j :: 0 <= j < lg ==> nums[j] == |Slice(s, j)|
        invariant forall j :: lg <= j <= MAXBITS ==> nums[j] == 0
        invariant ause == |UpTo(s, i - 1)|
      {
        var lim := ttlg;
        if lim > |arr| {
          lim := |arr|;
          if i > lim { break; }
        }
        NextSlice(arr, lg, lim);
        ghost var first := i - 1;
        var lc := CountRange(i, lim);
        i := lim + 1;
        nums[lg] := nums[lg] + lc;
        ause := ause + lc;
        lg, ttlg := lg + 1, ttlg * 2;
      }
      AllSlices(arr, lg, i - 1, nums[..]);
    }

    /** The number of indices in use from `from' to `lim' */
    method CountRange(from: nat, lim: nat) returns (lc: nat)
      requires 1 <= from <= lim + 1 && lim <= |arr|
      ensures lc == |UpTo(ArrayKeys(arr), lim) - UpTo(ArrayKeys(arr), from - 1)|
    {
      hide UpTo, ArrayKeys, InUse;
      ghost var s := ArrayKeys(arr);
      lc := 0;
      var i := from;
      while i <= lim
        invariant from <= i <= lim + 1
        invariant lc == |UpTo(s, i - 1) - UpTo(s, from - 1)|
      {
        NextUsed(arr, from, i);
        if arr[i - 1] != Nil { lc := lc + 1; }
        i := i + 1;
      }
    }

    /** numusehash: counts the nodes in use, and their keys that could go to the array part. */
    method NumUseHash(nums: array<nat>, ghost s: set<int>) returns (totaluse: nat, ause: nat)
      requires Distinct(node) && Counted(nums[..], s) && forall k :: k in s ==> Int(k) !in LiveKeys(node)
      modifies nums
      ensures Counted(nums[..], s + Candidates(LiveKeys(node)))
      ensures totaluse == |LiveKeys(node)| && ause == |Candidates(LiveKeys(node))|
    {
      hide Counted, LiveKeys, Candidates, Distinct;
      totaluse, ause := 0, 0;
      var i := |node|;
      ghost var live: set<Key>, c: set<int> := {}, {};
      NoneLive();
      assert node[i..] == [] && s + {} == s;
      while i > 0
        invariant i <= |node| && live == LiveKeys(node[i..]) && c == Candidates(live)
        invariant Counted(nums[..], s + c) && totaluse == |live| && ause == |c|
      {
        i := i - 1;
        NextLive(node, i);
        if node[i].val != Nil {
          NotYet(node, i, s);
          var k := if node[i].key.Int? then node[i].key.n else 0;
          totaluse := totaluse + 1;
          var u := CountInt(k, nums, s + c);
          ause := ause + u;
          ghost var c' := if u == 1 then c + {k} else c;
          assert s + c' == if u == 1 then s + c + {k} else s + c;
          live, c := live + {node[i].key}, c';
        }
      }
      assert node[0..] == node;
    }

    /** setnodevector: a new hash part with room for `size' keys, all of it free */
    method SetNodeVector(size: nat) returns (ok: bool)
      modifies this`node, this`lastfree, this`dummy, this`tails
      ensures ok <==> size <= Pow2(MAXBITS)
      ensures ok ==> Chains(h, node, tails) && NodeKeys(node) == {} && (forall i :: 0 <= i < |node| ==> node[i] == FREE)
      ensures ok ==> |node| >= size && (exists i: nat :: i <= MAXBITS && |node| == Pow2(i))
      ensures ok ==> (dummy <==> size == 0) && lastfree == (if dummy then 0 else |node|) && (dummy ==> node == [FREE])
    {
      if size == 0 {
        node, lastfree, dummy, tails := [FREE], 0, true, Singles(1);
        assert Pow2(0) == 1;
        AllFree(h, node);
        return true;
      }
      hide Pow2, Chains, Singles;
      var lsize := CeilLog2(size);
      CeilLogFits(size, lsize);
      if lsize > MAXBITS { return false; }
      node := seq(Pow2(lsize), _ => FREE);
      lastfree, dummy := |node|, false;
      tails := Singles(|node|);
      AllFree(h, node);
      return true;
    }

    lemma ValidApart()
      requires Valid()
      ensures Apart(arr, node) && Distinct(node)
    {
      ChainsDistinct(h, node, tails);
    }

    /** One re-insertion of resize: there is a free node whenever the key needs one. */
    method Reinsert(key: Key, v: Value, ghost m: map<Key, Value>, ghost keys: set<Key>)
      requires Valid() && key != NoKey && key != NaN && v != Nil
      requires key in m && m[key] == v && keys < m.Keys && key !in keys
      requires Map() == Restrict(m, keys) && NodeKeys(node) <= HashKeys(keys, |arr|)
      requires Room(m.Keys, |arr|, |node|, dummy)
      modifies this
      ensures Valid() && Map() == Restrict(m, keys + {key}) && NodeKeys(node) <= HashKeys(keys + {key}, |arr|)
      ensures |arr| == old(|arr|) && |node| == old(|node|) && dummy == old(dummy)
      decreases 0, 2
    {
      hide *;
      RoomLeft(m.Keys, keys, key, NodeKeys(node), |arr|, |node|, dummy);
      var r := Set(key, false);
      KeptMeans(old(arr), old(node), arr, node, key);
      Store(r.slot, v, key);
      RestrictPut(m, keys, key);
      ValidApart();
      OneMore(keys, key, old(NodeKeys(node)), arr, node);
    }

    /** resize: both parts get new sizes, and every key its place. */
    method Resize(nasize: nat, nhsize: nat) returns (ok: bool)
      requires Valid() && nasize <= MAXASIZE && |HashKeys(Map().Keys, nasize)| <= nhsize
      modifies this
      ensures ok <==> nhsize <= Pow2(MAXBITS)
      ensures ok ==> Valid() && Map() == old(Map()) && |arr| == nasize && |node| >= nhsize && (dummy <==> nhsize == 0)
      ensures ok ==> NodeKeys(node) <= HashKeys(Map().Keys, nasize)
      decreases 0, 4
    {
      hide Chains, Apart, Contents, NodeKeys, HashKeys, Restrict, FromArray, Distinct, ArrayOf, Lookup;
      ghost var m := Map();
      var oldarr, nold := arr, node;
      ghost var tails0 := tails;
      ChainsDistinct(h, node, tails);
      if nasize > |arr| { arr := arr + seq(nasize - |arr|, _ => Nil); }
      ok := SetNodeVector(nhsize);
      if !ok { return; }
      if nasize < |arr| { arr := arr[..nasize]; }
      ghost var keys := FromArray(m, if nasize < |oldarr| then nasize else |oldarr|);
      StartResize(oldarr, nold, arr, node, m, keys);
      ReinsertArray(oldarr, nasize, m);
      ReinsertNodes(oldarr, nold, tails0, m);
    }

    /** The vanishing slice of the array part */
    method ReinsertArray(oldarr: seq<Value>, nasize: nat, ghost m: map<Key, Value>)
      requires Valid() && |arr| == nasize && Room(m.Keys, nasize, |node|, dummy)
      requires ArrayOf(oldarr, m)
      requires var keys := FromArray(m, if nasize < |oldarr| then nasize else |oldarr|);
        Map() == Restrict(m, keys) && NodeKeys(node) <= HashKeys(keys, nasize)
      modifies this
      ensures Valid() && |arr| == nasize && |node| == old(|node|) && dummy == old(dummy)
      ensures var keys := FromArray(m, |oldarr|);
        Map() == Restrict(m, keys) && NodeKeys(node) <= HashKeys(keys, nasize)
      decreases 0, 3
    {
      hide Chains, Apart, Contents, NodeKeys, HashKeys, Restrict, Room, FromArray;
      var i := nasize;
      while i < |oldarr|
        invariant nasize <= i && (i <= |oldarr| || i == nasize)
        invariant Valid() && |arr| == nasize && |node| == old(|node|) && dummy == old(dummy)
        invariant var keys := FromArray(m, if i < |oldarr| then i else |oldarr|);
          Map() == Restrict(m, keys) && NodeKeys(node) <= HashKeys(keys, nasize)
      {
        NextIndex(oldarr, m, i);
        assert FromArray(m, i) + {} == FromArray(m, i);
        if oldarr[i] != Nil { Reinsert(Int(i + 1), oldarr[i], m, FromArray(m, i)); }
        i := i + 1;
      }
    }

    /** The old hash part */
    method ReinsertNodes(oldarr: seq<Value>, nold: seq<Node>, ghost tails0: seq<seq<nat>>, ghost m: map<Key, Value>)
      requires Valid() && Room(m.Keys, |arr|, |node|, dummy)
      requires Chains(h, nold, tails0) && Apart(oldarr, nold) && m == Contents(oldarr, nold)
      requires var keys := FromArray(m, |oldarr|);
        Map() == Restrict(m, keys) && NodeKeys(node) <= HashKeys(keys, |arr|)
      modifies this
      ensures Valid() && |arr| == old(|arr|) && |node| == old(|node|) && dummy == old(dummy)
      ensures Map() == m && NodeKeys(node) <= HashKeys(m.Keys, |arr|)
      decreases 0, 3
    {
      hide Chains, Apart, Contents, NodeKeys, HashKeys, Restrict, Room, FromArray, LiveKeys, Distinct, Candidates;
      ChainsDistinct(h, nold, tails0);
      ghost var keys := FromArray(m, |oldarr|);
      var i := |nold|;
      NoneLive();
      assert nold[i..] == [] && keys + {} == keys;
      while i > 0
        invariant 0 <= i <= |nold| && keys == FromArray(m, |oldarr|) + LiveKeys(nold[i..])
        invariant Valid() && |arr| == old(|arr|) && |node| == old(|node|) && dummy == old(dummy)
        invariant Map() == Restrict(m, keys) && NodeKeys(node) <= HashKeys(keys, |arr|)
      {
        i := i - 1;
        NextLive(nold, i);
        if nold[i].val != Nil {
          OldNode(h, oldarr, nold, tails0, i, m);
          Reinsert(nold[i].key, nold[i].val, m, keys);
          keys := keys + {nold[i].key};
        }
      }
      assert nold[0..] == nold;
      AllKeys(oldarr, nold, m);
    }

    /** The first half of rehash: all keys are counted, the extra key included. */
    method CountKeys(key: Key) returns (nums: array<nat>, nasize: nat, totaluse: nat)
      requires Valid() && key != NoKey && key != NaN && !InArray(key, |arr|) && !Holds(node, key)
      ensures fresh(nums) && Counted(nums[..], Candidates(Map().Keys + {key}))
      ensures nasize == |Candidates(Map().Keys + {key})| && totaluse == |Map().Keys| + 1
    {
      hide Chains, Contents, ArrayKeys, LiveKeys, Candidates, Counted, Distinct, Apart;
      ValidApart();
      NotInMap(arr, node, key);
      KeyCounts(arr, node);
      ghost var keys := Map().Keys;
      CandidatesMore(keys, key);
      nums := new nat[MAXBITS + 1](i => 0);
      nasize := NumUseArray(nums);
      totaluse := nasize;
      var u, a := NumUseHash(nums, ArrayKeys(arr));
      totaluse, nasize := totaluse + u, nasize + a;
      var c := CountInt(if key.Int? then key.n else 0, nums, Candidates(keys));
      nasize := nasize + c;
      totaluse := totaluse + 1;
    }

    /** rehash: the best sizes for the keys there are and the extra key, which then finds its place. */
    method Rehash(key: Key) returns (ok: bool)
      requires Valid() && key != NoKey && key != NaN && !InArray(key, |arr|) && !Holds(node, key)
      modifies this
      ensures ok ==> Valid() && Map() == old(Map()) && !Holds(node, key)
      ensures ok ==> InArray(key, |arr|) || (!dummy && |NodeKeys(node)| < |node|)
      ensures ok ==> Optimal(Candidates(Map().Keys + {key}), |arr|)
      ensures !ok ==> |old(Map()).Keys| >= Pow2(MAXBITS)
      decreases 0, 5
    {
      hide *;
      ghost var keys := Map().Keys;
      ValidApart();
      ValidSize();
      NotInMap(arr, node, key);
      var nums, nasize, totaluse := CountKeys(key);
      ghost var s := Candidates(keys + {key});
      CandidatesRange(keys + {key});
      var n, na := ComputeSizes(nums, nasize, s);
      HashKeysSize(keys + {key}, n);
      NewRoom(keys, key, n);
      ok := Resize(n, totaluse - na);
      if ok {
        AbsentAfter(arr, node, keys, key);
        if !InArray(key, n) { SubsetSize(NodeKeys(node), HashKeys(keys, n)); }
      }
    }

    lemma ValidSize()
      requires Valid()
      ensures |arr| <= MAXASIZE && Map() == Contents(arr, node)
    {
    }

    // ---- what the rest of the interpreter calls -----------------------------------

    /** luaH_resizearray, which its callers use to grow the array part */
    method ResizeArray(nasize: nat) returns (ok: bool)
      requires Valid() && |arr| <= nasize <= MAXASIZE
      modifies this
      ensures ok && Valid() && Map() == old(Map()) && |arr| == nasize
    {
      hide *;
      var nsize := if dummy then 0 else |node|;
      NodesFit();
      ValidApart();
      ValidSize();
      FewerNodes(arr, node, nasize);
      SubsetSize(HashKeys(Map().Keys, nasize), LiveKeys(node));
      ok := Resize(nasize, nsize);
    }

    lemma NodesFit()
      requires Valid()
      ensures |node| <= Pow2(MAXBITS) && Distinct(node) && (dummy ==> LiveKeys(node) == {})
    {
      ChainsDistinct(h, node, tails);
      var i: nat :| i <= MAXBITS && |node| == Pow2(i);
      if i < MAXBITS { Pow2Grows(i, MAXBITS); }
    }

    /** A raw assignment: luaH_set, and the value goes where it says. */
    method Assign(key: Key, v: Value) returns (r: Result)
      requires Valid()
      modifies this
      ensures r.Found? ==> Valid() && Map() == Put(old(Map()), key, v)
      ensures r.Failed? ==> r.error == if key == NoKey then NilIndex else if key == NaN then NaNIndex else Overflow
      ensures key == NoKey || key == NaN ==> r.Failed?
      ensures r.Failed? && r.error != Overflow ==> Valid() && Map() == old(Map())
      ensures r == Failed(Overflow) ==> |old(Map()).Keys| >= Pow2(MAXBITS)
      ensures old(Present(key)) ==> r.Found? && Layout(arr, node) == old(Layout(arr, node))
    {
      r := Set(key, true);
      if r.Found? { Store(r.slot, v, key); }
    }

    /** Any number of assignments: the table is the finite map they make, rejected keys left out, until it overflows. */
    method AssignAll(pairs: seq<(Key, Value)>) returns (done: nat)
      requires Valid()
      modifies this
      ensures done <= |pairs| && (done == |pairs| ==> Valid() && Map() == Puts(old(Map()), pairs))
      ensures done < |pairs| ==> |Puts(old(Map()), pairs[..done]).Keys| >= Pow2(MAXBITS)
    {
      hide Valid, Map, Put, Pow2;
      ghost var m := Map();
      done := 0;
      while done < |pairs|
        invariant done <= |pairs| && Valid() && Map() == Puts(m, pairs[..done])
      {
        assert pairs[..done + 1][..done] == pairs[..done];
        var r := Assign(pairs[done].0, pairs[done].1);
        if r == Failed(Overflow) { return; }
        done := done + 1;
      }
      assert pairs[..done] == pairs;
    }

    // ---- traversal ------------------------------------------------------------------

    /** Elements are numbered through both parts. */
    ghost function KeyAt(p: int): Key
      requires 0 <= p < |arr| + |node|
      reads this
    {
      if p < |arr| then Int(p + 1) else node[p - |arr|].key
    }

    ghost function ValueAt(p: int): Value
      requires 0 <= p < |arr| + |node|
      reads this
    {
      if p < |arr| then arr[p] else node[p - |arr|].val
    }

    /** findindex: the number of a key, -1 to begin with, and -2 for a key that is not there */
    method FindIndex(key: Key) returns (i: int)
      requires Valid()
      ensures -2 <= i < |arr| + |node|
      ensures i == -1 <==> key == NoKey
      ensures i >= 0 ==> KeyAt(i) == key
      ensures i == -2 <==> key != NoKey && !Present(key)
    {
      if key == NoKey { return -1; }
      if InArray(key, |arr|) { return key.n - 1; }
      var n := Search(key);
      return if n < 0 then -2 else n + |arr|;
    }

    /** luaH_next: the element after the one of the given key, in the order of their numbers. */
    method Next(key: Key) returns (r: NextResult, ghost at: int, ghost p: int)
      requires Valid()
      ensures r.Invalid? <==> key != NoKey && !Present(key)
      ensures key in Map() ==> !r.Invalid?
      ensures !r.Invalid? ==>
          -1 <= at < p <= |arr| + |node| && (if key == NoKey then at == -1 else at >= 0 && KeyAt(at) == key)
      ensures !r.Invalid? ==> forall q :: at < q < p ==> ValueAt(q) == Nil
      ensures r.Element? ==> p < |arr| + |node| && r.key == KeyAt(p) && r.value == ValueAt(p) != Nil
      ensures r.End? ==> p == |arr| + |node|
    {
      MapPresent(key);
      var i := FindIndex(key);
      if i == -2 { return Invalid, -1, 0; }
      at := i;
      i := i + 1;
      while i < |arr|
        invariant at < i && (i <= |arr| || i == at + 1) && i <= |arr| + |node|
        invariant forall q :: at < q < i ==> ValueAt(q) == Nil
      {
        if arr[i] != Nil { return Element(Int(i + 1), arr[i]), at, i; }
        i := i + 1;
      }
      while i - |arr| < |node|
        invariant at < i && |arr| <= i <= |arr| + |node|
        invariant forall q :: at < q < i ==> ValueAt(q) == Nil
      {
        var n := node[i - |arr|];
        if n.val != Nil { return Element(n.key, n.val), at, i; }
        i := i + 1;
      }
      return End, at, i;
    }

    lemma MapPresent(key: Key)
      requires Valid()
      ensures key in Map() ==> Present(key)
    {
      ValidApart();
      ContentsKeys(arr, node);
      if key in Map() && !InArray(key, |arr|) {
        var i :| 0 <= i < |node| && node[i].key == key;
        NodeValueAt(node, i);
        assert FreeOk(node, i);
      }
    }

    /** One of the elements numbered up to `at' has the key. */
    ghost predicate Seen(k: Key, at: int)
      reads this
    {
      exists p :: 0 <= p <= at && p < |arr| + |node| && KeyAt(p) == k && ValueAt(p) != Nil
    }

    /** A whole traversal visits every key of the map exactly once. */
    method Traverse() returns (keys: seq<Key>)
      requires Valid()
      ensures (forall i, j :: 0 <= i < j < |keys| ==> keys[i] != keys[j])
      ensures forall k :: k in keys <==> k in Map()
    {
      hide Valid, Map;
      keys := [];
      var key := NoKey;
      ghost var at := -1;
      while true
        invariant -1 <= at < |arr| + |node| && (at == -1 <==> key == NoKey)
        invariant at >= 0 ==> KeyAt(at) == key && ValueAt(at) != Nil
        invariant forall i, j :: 0 <= i < j < |keys| ==> keys[i] != keys[j]
        invariant forall k :: k in keys <==> Seen(k, at)
        decreases |arr| + |node| - at
      {
        if at >= 0 { Numbered(at); }
        var r, from, p := Next(key);
        if at >= 0 { OneNumber(at, from); }
        SeenNext(at, p);
        if r.End? {
          AllNumbered();
          return;
        }
        keys := keys + [r.key];
        key, at := r.key, p;
        Numbered(at);
      }
    }

    /**
     A traversal during which fields that were there when it began are assigned to, or cleared: `edits' tells what
     happens between the calls of luaH_next. No call fails, no key comes twice, and every key comes that was there
     and was not cleared.
     */
    method TraverseEditing(edits: nat -> seq<(Key, Value)>) returns (keys: seq<Key>)
      requires Valid() && forall j, i :: 0 <= i < |edits(j)| ==> edits(j)[i].0 in Map()
      modifies this
      ensures Valid() && forall i, j :: 0 <= i < j < |keys| ==> keys[i] != keys[j]
      ensures forall k :: k in keys ==> k in old(Map())
      ensures forall k :: k in old(Map()) && !Cleared(edits, |keys|, k) ==> k in keys
    {
      hide Valid, Map, Put, Present, Layout, Cleared, Visited, Stays;
      ghost var m, layout := Map(), Layout(arr, node);
      keys := [];
      var key := NoKey;
      ghost var at := -1;
      LayoutSize();
      StartVisit(edits);
      while true
        invariant Valid() && Layout(arr, node) == layout && |layout| == |arr| + |node| && -1 <= at < |layout|
        invariant key == (if at == -1 then NoKey else layout[at]) && (at >= 0 ==> key != NoKey)
        invariant Visited(keys, layout, at) && forall k :: k in keys ==> k in m
        invariant Stays(Map(), m, layout, edits, |keys|)
        invariant forall p :: 0 <= p <= at && layout[p] in m && !Cleared(edits, |keys|, layout[p]) ==> layout[p] in keys
        decreases |layout| - at
      {
        if at >= 0 { HasPlace(at); }
        var n := |keys|;
        var r, from, p := Next(key);
        if at >= 0 { SamePlace(at, from); }
        Skipped(m, edits, n, at, p);
        if r.End? {
          forall k | k in m && !Cleared(edits, n, k) ensures k in keys { PlaceOf(k, m, edits, n); }
          NoneTwice(keys, layout, at);
          return;
        }
        HasValue(p, m, edits, n);
        VisitNext(keys, layout, at, p);
        keys := keys + [r.key];
        key, at := r.key, p;
        Edit(edits(n), m, edits, n);
        forall q | 0 <= q <= at && layout[q] in m && !Cleared(edits, n + 1, layout[q]) ensures layout[q] in keys {
          ClearedLater(edits, n, layout[q]);
        }
      }
    }

    /** The assignments between two calls of luaH_next */
    method Edit(pairs: seq<(Key, Value)>, ghost m: map<Key, Value>, ghost edits: nat -> seq<(Key, Value)>, ghost n: nat)
      requires Valid() && pairs == edits(n) && forall i :: 0 <= i < |pairs| ==> pairs[i].0 in m
      requires Stays(Map(), m, Layout(arr, node), edits, n)
      modifies this
      ensures Valid() && Layout(arr, node) == old(Layout(arr, node)) && |arr| + |node| == old(|arr| + |node|)
      ensures Stays(Map(), m, Layout(arr, node), edits, n + 1)
    {
      hide Valid, Map, Present, Layout;
      var i := 0;
      LayoutSize();
      while i < |pairs|
        invariant i <= |pairs| && Valid() && Layout(arr, node) == old(Layout(arr, node))
        invariant forall k :: k in Map() ==> k in m
        invariant forall k ::
            k in m && !Cleared(edits, n, k) && (forall j :: 0 <= j < i ==> pairs[j] != (k, Nil)) ==> k in Map()
      {
        PresentByLayout(pairs[i].0);
        var _ := Assign(pairs[i].0, pairs[i].1);
        i := i + 1;
      }
      LayoutSize();
    }

    lemma LayoutSize()
      ensures |Layout(arr, node)| == |arr| + |node|
      ensures forall p :: 0 <= p < |arr| + |node| ==> Layout(arr, node)[p] == KeyAt(p)
    {
    }

    lemma PresentByLayout(k: Key)
      requires k in Layout(arr, node) && k != NoKey
      ensures Present(k)
    {
      var p :| 0 <= p < |Layout(arr, node)| && Layout(arr, node)[p] == k;
      if p >= |arr| { assert node[p - |arr|].key == k; }
    }

    lemma HasPlace(p: int)
      requires 0 <= p < |arr| + |node| && Layout(arr, node)[p] != NoKey
      ensures Present(Layout(arr, node)[p])
    {
      PresentByLayout(Layout(arr, node)[p]);
    }

    lemma SamePlace(p: int, q: int)
      requires Valid() && 0 <= p < |arr| + |node| && 0 <= q < |arr| + |node|
      requires Layout(arr, node)[p] == KeyAt(q) != NoKey
      ensures p == q
    {
      hide Valid;
      LayoutSize();
      OneNumber(p, q);
    }

    lemma StartVisit(edits: nat -> seq<(Key, Value)>)
      requires Valid()
      ensures Visited([], Layout(arr, node), -1) && Stays(Map(), Map(), Layout(arr, node), edits, 0)
    {
      hide Valid, Map, Layout, Present;
      forall k | k in Map() ensures k in Layout(arr, node) && k != NoKey {
        MapPresent(k);
        PresentInLayout(k);
      }
    }

    lemma PresentInLayout(k: Key)
      requires Present(k)
      ensures k in Layout(arr, node) && k != NoKey
    {
      if InArray(k, |arr|) {
        assert Layout(arr, node)[k.n - 1] == k;
      } else {
        var i :| 0 <= i < |node| && node[i].key == k;
        assert Layout(arr, node)[|arr| + i] == k;
      }
    }

    /** A position with a value, and one without */
    lemma AtPosition(q: int)
      requires Valid() && 0 <= q < |arr| + |node|
      ensures Layout(arr, node)[q] == KeyAt(q) && (ValueAt(q) != Nil <==> KeyAt(q) in Map())
      ensures KeyAt(q) in Map() ==> KeyAt(q) != NoKey
    {
      hide Chains;
      LayoutSize();
      ValidApart();
      hide Valid, Layout;
      ContentsKeys(arr, node);
      if ValueAt(q) != Nil { Numbered(q); }
      MapPresent(KeyAt(q));
      if q >= |arr| { NodeValueAt(node, q - |arr|); }
    }

    lemma Skipped(m: map<Key, Value>, edits: nat -> seq<(Key, Value)>, n: nat, at: int, p: int)
      requires Valid() && Stays(Map(), m, Layout(arr, node), edits, n) && -1 <= at < p <= |arr| + |node|
      requires forall q :: at < q < p ==> ValueAt(q) == Nil
      ensures |Layout(arr, node)| == |arr| + |node|
      ensures forall q :: at < q < p && Layout(arr, node)[q] in m ==> Cleared(edits, n, Layout(arr, node)[q])
    {
      hide Valid, Map, Layout, Cleared;
      LayoutSize();
      forall q | at < q < p && Layout(arr, node)[q] in m
        ensures Cleared(edits, n, Layout(arr, node)[q]) { AtPosition(q); }
    }

    lemma HasValue(p: int, m: map<Key, Value>, edits: nat -> seq<(Key, Value)>, n: nat)
      requires Valid() && 0 <= p < |arr| + |node| && ValueAt(p) != Nil && Stays(Map(), m, Layout(arr, node), edits, n)
      ensures |Layout(arr, node)| == |arr| + |node|
      ensures var k := Layout(arr, node)[p]; k == KeyAt(p) && k != NoKey && k in m
      ensures forall q :: 0 <= q < |arr| + |node| && Layout(arr, node)[q] == KeyAt(p) ==> q == p
    {
      hide Valid, Map, Layout, Cleared;
      LayoutSize();
      AtPosition(p);
      forall q | 0 <= q < |arr| + |node| && Layout(arr, node)[q] == KeyAt(p) ensures q == p { OneNumber(q, p); }
    }

    lemma PlaceOf(k: Key, m: map<Key, Value>, edits: nat -> seq<(Key, Value)>, n: nat)
      requires Stays(Map(), m, Layout(arr, node), edits, n) && k in m
      ensures exists p :: 0 <= p < |Layout(arr, node)| && Layout(arr, node)[p] == k
    {
    }

    lemma SeenNext(at: int, p: int)
      requires Valid() && -1 <= at < p <= |arr| + |node|
      requires forall q :: at < q < p ==> ValueAt(q) == Nil
      ensures p < |arr| + |node| && ValueAt(p) != Nil ==>
          !Seen(KeyAt(p), at) && forall k :: Seen(k, p) <==> Seen(k, at) || k == KeyAt(p)
      ensures p == |arr| + |node| ==> forall k :: Seen(k, p) <==> Seen(k, at)
    {
      if p < |arr| + |node| && ValueAt(p) != Nil {
        Numbered(p);
        forall q | 0 <= q <= at ensures KeyAt(q) != KeyAt(p) { if KeyAt(q) == KeyAt(p) { OneNumber(p, q); } }
        forall k ensures Seen(k, p) <==> Seen(k, at) || k == KeyAt(p) {}
      }
    }

    lemma Numbered(p: int)
      requires Valid() && 0 <= p < |arr| + |node| && ValueAt(p) != Nil
      ensures KeyAt(p) in Map() && KeyAt(p) != NoKey && Map()[KeyAt(p)] == ValueAt(p)
    {
      ValidApart();
      ContentsKeys(arr, node);
      if p >= |arr| {
        assert FreeOk(node, p - |arr|);
        NodeValueAt(node, p - |arr|);
      }
    }

    lemma OneNumber(p: int, q: int)
      requires Valid() && 0 <= p < |arr| + |node| && 0 <= q < |arr| + |node|
      requires KeyAt(p) == KeyAt(q) != NoKey
      ensures p == q
    {
      ValidApart();
    }

    lemma AllNumbered()
      requires Valid()
      ensures forall k :: k in Map() <==> Seen(k, |arr| + |node|)
    {
      ValidApart();
      ContentsKeys(arr, node);
      forall k | k in Map() ensures Seen(k, |arr| + |node|) {
        if InArray(k, |arr|) {
          assert KeyAt(k.n - 1) == k && ValueAt(k.n - 1) != Nil;
        } else {
          var i :| 0 <= i < |node| && node[i].key == k;
          NodeValueAt(node, i);
          assert KeyAt(|arr| + i) == k && ValueAt(|arr| + i) != Nil;
        }
      }
      forall p | 0 <= p < |arr| + |node| && ValueAt(p) != Nil ensures KeyAt(p) in Map() { Numbered(p); }
    }

    // ---- the length -------------------------------------------------------------------

    /** `n' is a boundary: `t[n]' is not nil, or `n' is 0, and `t[n + 1]' is nil. */
    ghost predicate Boundary(n: nat)
      reads this
    {
      (n == 0 || Int(n) in Map()) && Int(n + 1) !in Map()
    }

    lemma ArrayMap()
      requires Valid()
      ensures forall i: nat :: 0 < i <= |arr| ==> (Int(i) in Map() <==> arr[i - 1] != Nil)
      ensures dummy ==> Int(|arr| + 1) !in Map()
    {
      ValidApart();
      ContentsKeys(arr, node);
    }

    /** unbound_search, beyond the present index (or 0) `start' */
    method UnboundSearch(start: nat) returns (n: nat)
      requires Valid() && (start == 0 || Int(start) in Map())
      ensures Boundary(n)
    {
      hide Valid, Map;
      var i, j := start, start + 1;
      var v := Get(Int(j));
      while v != Nil
        invariant 0 <= i < j && (i == 0 || Int(i) in Map()) && (v != Nil <==> Int(j) in Map())
        decreases if j > MAX_INT then 0 else MAX_INT + 1 - j, if v == Nil then 0 else 1
      {
        i := j;
        j := j * 2;
        if j > MAX_INT {
          n := LinearSearch();
          return;
        }
        v := Get(Int(j));
      }
      while j - i > 1
        invariant 0 <= i < j && (i == 0 || Int(i) in Map()) && Int(j) !in Map()
      {
        var m := (i + j) / 2;
        v := Get(Int(m));
        if v == Nil { j := m; } else { i := m; }
      }
      return i;
    }

    method LinearSearch() returns (n: nat)
      requires Valid()
      ensures Boundary(n)
    {
      hide Valid, Map;
      var i := 1;
      var v := Get(Int(i));
      while v != Nil
        invariant i >= 1 && (v != Nil <==> Int(i) in Map())
        invariant forall k :: 1 <= k < i ==> Int(k) in Map()
        decreases |Map().Keys| + 1 - i, if v == Nil then 0 else 1
      {
        ManyInts(Map().Keys, i);
        i := i + 1;
        v := Get(Int(i));
      }
      return i - 1;
    }

    /** luaH_getn */
    method GetN() returns (n: nat)
      requires Valid()
      ensures Boundary(n)
    {
      hide Valid, Map;
      ArrayMap();
      var j := |arr|;
      if j > 0 && arr[j - 1] == Nil {
        var i := 0;
        while j - i > 1
          invariant 0 <= i < j <= |arr| && (i == 0 || arr[i - 1] != Nil) && arr[j - 1] == Nil
        {
          var m := (i + j) / 2;
          if arr[m - 1] == Nil { j := m; } else { i := m; }
        }
        return i;
      } else if dummy {
        return j;
      } else {
        n := UnboundSearch(j);
      }
    }
  }

  /** The map after a sequence of assignments */
  ghost function Puts(m: map<Key, Value>, pairs: seq<(Key, Value)>): map<Key, Value> {
    if pairs == [] then m
    else
      var before, (key, v) := Puts(m, pairs[..|pairs| - 1]), pairs[|pairs| - 1];
      if key == NoKey || key == NaN then before else Put(before, key, v)
  }

  lemma NextUsed(arr: seq<Value>, from: nat, i: nat)
    requires 1 <= from <= i <= |arr|
    ensures var s := ArrayKeys(arr);
      |UpTo(s, i) - UpTo(s, from - 1)| == |UpTo(s, i - 1) - UpTo(s, from - 1)| + if arr[i - 1] != Nil then 1 else 0
  {
    var s := ArrayKeys(arr);
    var used := arr[i - 1] != Nil;
    assert InUse(arr, i) == used;
    assert UpTo(s, i) - UpTo(s, from - 1) == UpTo(s, i - 1) - UpTo(s, from - 1) + (if used then {i as int} else {});
  }

  lemma KeysKept(node: seq<Node>, node': seq<Node>)
    requires |node'| == |node| && forall i :: 0 <= i < |node| ==> node'[i].key == node[i].key
    ensures NodeKeys(node') == NodeKeys(node)
  {
    forall k ensures k in NodeKeys(node') <==> k in NodeKeys(node) {
      if k in NodeKeys(node) {
        var i :| 0 <= i < |node| && node[i].key != NoKey && node[i].key == k; assert node'[i].key == k;
      }
      if k in NodeKeys(node') {
        var i :| 0 <= i < |node'| && node'[i].key != NoKey && node'[i].key == k; assert node[i].key == k;
      }
    }
  }

  lemma StoredValues(arr: seq<Value>, node: seq<Node>, arr': seq<Value>, node': seq<Node>, slot: Slot, key: Key,
                     v: Value)
    requires Distinct(node) && Distinct(node') && Apart(arr, node) && IsSlot(arr, node, slot, key)
    requires match slot
      case ArraySlot(i) => arr' == arr[i := v] && node' == node
      case NodeSlot(i) => arr' == arr && node' == node[i := node[i].(val := v)]
    ensures forall k :: Lookup(arr', node', k) == if k == key then v else Lookup(arr, node, k)
  {
    if slot.NodeSlot? {
      forall k ensures NodeValue(node', k) == if k == key then v else NodeValue(node, k) {
        if Holds(node, k) {
          var i :| 0 <= i < |node| && node[i].key == k;
          NodeValueAt(node, i);
          NodeValueAt(node', i);
          assert node'[i].key == k;
        }
      }
    }
  }

  /** Only the new key joins the keys of the hash part. */
  ghost predicate Kept(arr: seq<Value>, node: seq<Node>, arr': seq<Value>, node': seq<Node>, key: Key) {
    arr' == arr && |node'| == |node| && NodeKeys(node') <= NodeKeys(node) + {key}
  }

  ghost predicate Has(node: seq<Node>, key: Key, v: Value) {
    exists i :: 0 <= i < |node| && node[i].key == key && node[i].val == v
  }

  /** Every value of `node` is in `node'` under its key. */
  ghost predicate Carries(node: seq<Node>, node': seq<Node>) {
    forall i :: 0 <= i < |node| && node[i].val != Nil ==> Has(node', node[i].key, node[i].val)
  }

  lemma SameValues(node: seq<Node>, node': seq<Node>)
    requires Distinct(node) && Distinct(node') && Carries(node, node') && Carries(node', node)
    ensures forall k :: NodeValue(node', k) == NodeValue(node, k)
  {
    forall k ensures NodeValue(node', k) == NodeValue(node, k) {
      ValueCarried(node, node', k);
      ValueCarried(node', node, k);
    }
  }

  lemma ValueCarried(node: seq<Node>, node': seq<Node>, k: Key)
    requires Distinct(node) && Distinct(node') && Carries(node, node')
    ensures NodeValue(node, k) != Nil ==> NodeValue(node', k) == NodeValue(node, k)
  {
    if NodeValue(node, k) != Nil {
      var i :| 0 <= i < |node| && node[i].key == k;
      NodeValueAt(node, i);
      assert Has(node', k, node[i].val);
      var j :| 0 <= j < |node'| && node'[j].key == k && node'[j].val == node[i].val;
      NodeValueAt(node', j);
    }
  }

  lemma AwayCarries(node: seq<Node>, mp: nat, n: nat, prev: nat, key: Key)
    requires mp < |node| && n < |node| && prev < |node| && prev != mp && prev != n && mp != n
    requires node[n].key == NoKey && node[n].val == Nil
    ensures var node' := Away(node, mp, n, prev, key);
      Carries(node, node') && Carries(node', node) && NodeKeys(node') <= NodeKeys(node) + {key}
  {
    var node' := Away(node, mp, n, prev, key);
    forall i | 0 <= i < |node| && node[i].val != Nil ensures Has(node', node[i].key, node[i].val) {
      var j := if i == mp then n else i;
      assert node'[j].key == node[i].key && node'[j].val == node[i].val;
    }
    forall i | 0 <= i < |node| && node'[i].val != Nil ensures Has(node, node'[i].key, node'[i].val) {
      var j := if i == n then mp else i;
      assert node[j].key == node'[i].key && node[j].val == node'[i].val;
    }
    forall k | k in NodeKeys(node') ensures k in NodeKeys(node) + {key} {
      var i :| 0 <= i < |node| && node'[i].key != NoKey && node'[i].key == k;
      assert i != mp ==> node[if i == n then mp else i].key == k;
    }
  }

  lemma BehindCarries(node: seq<Node>, mp: nat, n: nat, key: Key)
    requires mp < |node| && n < |node| && mp != n && node[n].key == NoKey && node[n].val == Nil
    ensures var node' := Behind(node, mp, n, key);
      Carries(node, node') && Carries(node', node) && NodeKeys(node') <= NodeKeys(node) + {key}
  {
    var node' := Behind(node, mp, n, key);
    assert forall i :: 0 <= i < |node| && i != n ==> node'[i].key == node[i].key && node'[i].val == node[i].val;
    forall k | k in NodeKeys(node') ensures k in NodeKeys(node) + {key} {
      var i :| 0 <= i < |node| && node'[i].key != NoKey && node'[i].key == k;
      assert i != n ==> node[i].key == k;
    }
  }

  lemma TakeCarries(node: seq<Node>, mp: nat, key: Key)
    requires mp < |node| && node[mp].val == Nil
    ensures var node' := node[mp := node[mp].(key := key)];
      Carries(node, node') && Carries(node', node) && NodeKeys(node') <= NodeKeys(node) + {key}
  {
    var node' := node[mp := node[mp].(key := key)];
    assert forall i :: 0 <= i < |node| && i != mp ==> node'[i].key == node[i].key && node'[i].val == node[i].val;
    forall k | k in NodeKeys(node') ensures k in NodeKeys(node) + {key} {
      var i :| 0 <= i < |node| && node'[i].key != NoKey && node'[i].key == k;
      assert i != mp ==> node[i].key == k;
    }
  }

  /** The key is in node `p'; every stored value is still there. */
  ghost predicate Placed(h: Key -> nat, node: seq<Node>, node': seq<Node>, tails': seq<seq<nat>>, key: Key, p: nat) {
    && Chains(h, node', tails') && |node'| == |node| && p < |node| && node'[p].key == key
    && Carries(node, node') && Carries(node', node) && NodeKeys(node') <= NodeKeys(node) + {key}
    && forall i :: 0 <= i < |node| && node[i].key != NoKey ==> node'[i].key != NoKey
  }

  lemma MovedAway(h: Key -> nat, node: seq<Node>, tails: seq<seq<nat>>, mp: nat, n: nat, prev: nat, key: Key)
    requires Chains(h, node, tails) && mp < |node| && n < |node| && prev < |node|
    requires node[n].key == NoKey && node[mp].key != NoKey && MainPos(h, node[mp].key, |node|) != mp
    requires node[prev].next == mp
    requires key != NoKey && key != NaN && !Holds(node, key) && MainPos(h, key, |node|) == mp
    ensures Placed(h, node, Away(node, mp, n, prev, key), MoveTails(tails, mp, n), key, mp)
  {
    assert FreeOk(node, n) && FreeOk(node, prev);
    NotBehindItself(node, tails, prev);
    MoveAway(h, node, tails, mp, n, prev, key);
    AwayCarries(node, mp, n, prev, key);
  }

  lemma LinkedBehind(h: Key -> nat, node: seq<Node>, tails: seq<seq<nat>>, mp: nat, n: nat, key: Key)
    requires Chains(h, node, tails) && mp < |node| && n < |node|
    requires node[n].key == NoKey && node[mp].key != NoKey && MainPos(h, node[mp].key, |node|) == mp
    requires key != NoKey && key != NaN && !Holds(node, key) && MainPos(h, key, |node|) == mp
    ensures Placed(h, node, Behind(node, mp, n, key), InsertTails(node, tails, mp, n), key, n)
  {
    assert FreeOk(node, n);
    InsertBehind(h, node, tails, mp, n, key);
    BehindCarries(node, mp, n, key);
  }

  lemma TakenPlace(h: Key -> nat, node: seq<Node>, tails: seq<seq<nat>>, mp: nat, key: Key)
    requires Chains(h, node, tails) && mp < |node| && node[mp].val == Nil
    requires key != NoKey && key != NaN && !Holds(node, key) && MainPos(h, key, |node|) == mp
    ensures Placed(h, node, node[mp := node[mp].(key := key)], tails, key, mp)
  {
    TakePlace(h, node, tails, mp, key);
    TakeCarries(node, mp, key);
  }

  lemma PlacedMap(h: Key -> nat, arr: seq<Value>, node: seq<Node>, node': seq<Node>, tails': seq<seq<nat>>, key: Key,
      p: nat)
    requires Placed(h, node, node', tails', key, p) && Distinct(node) && Apart(arr, node) && !InArray(key, |arr|)
    ensures Apart(arr, node') && Contents(arr, node') == Contents(arr, node)
    ensures Chains(h, node', tails') && |node'| == |node| && p < |node| && node'[p].key == key
    ensures NodeKeys(node') <= NodeKeys(node) + {key}
    ensures forall i :: 0 <= i < |node| && node[i].key != NoKey ==> node'[i].key != NoKey
  {
    ChainsDistinct(h, node', tails');
    forall i | 0 <= i < |node| ensures !InArray(node'[i].key, |arr|) {
      if node'[i].key != NoKey { assert node'[i].key in NodeKeys(node'); }
    }
    SameValues(node, node');
    SameContents(arr, node, arr, node');
  }

  lemma NoneUsed(s: set<int>)
    ensures |UpTo(s, 0)| == 0 && Pow2(0) == 1
  {
    assert UpTo(s, 0) == {};
  }

  /** How far the slices before `lg` reach into an array of the given size */
  function SliceEnd(lg: nat, size: nat): nat {
    if lg == 0 then 0 else if Pow2(lg - 1) < size then Pow2(lg - 1) else size
  }

  /** One round of numusearray looks at one slice. */
  lemma NextSlice(arr: seq<Value>, lg: nat, lim: nat)
    requires lim == (if Pow2(lg) > |arr| then |arr| else Pow2(lg))
    ensures var s, first := ArrayKeys(arr), SliceEnd(lg, |arr|);
      && first <= lim == SliceEnd(lg + 1, |arr|) && Pow2(lg + 1) == 2 * Pow2(lg)
      && |Slice(s, lg)| == |UpTo(s, lim) - UpTo(s, first)|
      && |UpTo(s, lim)| == |UpTo(s, first)| + |UpTo(s, lim) - UpTo(s, first)|
  {
    var s, first := ArrayKeys(arr), SliceEnd(lg, |arr|);
    assert Slice(s, lg) == UpTo(s, lim) - UpTo(s, first);
    assert UpTo(s, lim) == UpTo(s, first) + (UpTo(s, lim) - UpTo(s, first));
  }

  /** Beyond the array there is nothing to count. */
  lemma AllSlices(arr: seq<Value>, lg: nat, last: nat, nums: seq<nat>)
    requires |nums| == MAXBITS + 1 && lg <= MAXBITS + 1 && |arr| <= MAXASIZE
    requires last == SliceEnd(lg, |arr|)
    requires lg <= MAXBITS ==> last == |arr|
    requires forall j :: 0 <= j < lg ==> nums[j] == |Slice(ArrayKeys(arr), j)|
    requires forall j :: lg <= j <= MAXBITS ==> nums[j] == 0
    ensures Counted(nums, ArrayKeys(arr)) && UpTo(ArrayKeys(arr), last) == ArrayKeys(arr)
  {
    forall j | lg <= j <= MAXBITS ensures Slice(ArrayKeys(arr), j) == {} {
      if lg > 0 && lg - 1 < j - 1 { Pow2Grows(lg - 1, j - 1); }
    }
  }

  lemma CeilLogFits(size: nat, lsize: nat)
    requires IsCeilLog(size, lsize)
    ensures lsize <= MAXBITS <==> size <= Pow2(MAXBITS)
    ensures size <= Pow2(lsize)
  {
    if lsize > MAXBITS {
      if lsize - 1 > MAXBITS { Pow2Grows(MAXBITS, lsize - 1); }
    } else if lsize < MAXBITS {
      Pow2Grows(lsize, MAXBITS);
    }
  }

  lemma NoneLive()
    ensures LiveKeys([]) == {} && Candidates({}) == {}
  {
  }

  lemma NextLive(node: seq<Node>, i: nat)
    requires Distinct(node) && i < |node|
    ensures var l, rest := LiveKeys(node[i..]), LiveKeys(node[i + 1..]);
      && node[i].key !in rest
      && l == rest + (if node[i].val != Nil then {node[i].key} else {})
      && Candidates(l) == Candidates(rest) + (if node[i].val != Nil && InArray(node[i].key, MAXASIZE) then
          {node[i].key.n} else {})
  {
    var l, rest := LiveKeys(node[i..]), LiveKeys(node[i + 1..]);
    forall k | k in l ensures k in rest || (node[i].val != Nil && k == node[i].key) {
      var j :| 0 <= j < |node[i..]| && node[i..][j].key != NoKey && node[i..][j].val != Nil && node[i..][j].key == k;
      assert j > 0 ==> node[i + 1..][j - 1].key == k;
    }
    forall k | k in rest ensures k in l && k != node[i].key {
      var j :| 0 <= j < |node[i + 1..]| && node[i + 1..][j].key != NoKey && node[i + 1..][j].val != Nil
          && node[i + 1..][j].key == k;
      assert node[i..][j + 1].key == k && node[i + 1 + j].key == k;
    }
    if node[i].val != Nil { assert node[i..][0].key in l; }
  }

  lemma NotYet(node: seq<Node>, i: nat, s: set<int>)
    requires Distinct(node) && i < |node| && node[i].val != Nil
    requires forall k :: k in s ==> Int(k) !in LiveKeys(node)
    requires node[i].key !in LiveKeys(node[i + 1..])
    ensures node[i].key.Int? ==> node[i].key.n !in s + Candidates(LiveKeys(node[i + 1..]))
  {
    assert node[i].key in LiveKeys(node);
  }

  // ---- resize -----------------------------------------------------------------

  function Restrict(m: map<Key, Value>, keys: set<Key>): map<Key, Value> {
    map k | k in m && k in keys :: m[k]
  }

  /** Every key that is not for the array part finds a free node. */
  ghost predicate Room(keys: set<Key>, asize: nat, hsize: nat, dummy: bool) {
    |HashKeys(keys, asize)| <= (if dummy then 0 else hsize)
  }

  lemma RoomLeft(all: set<Key>, keys: set<Key>, key: Key, used: set<Key>, asize: nat, hsize: nat, dummy: bool)
    requires Room(all, asize, hsize, dummy) && keys < all && key in all && key !in keys
    requires used <= HashKeys(keys, asize)
    ensures InArray(key, asize) || (!dummy && |used| < hsize)
  {
    if !InArray(key, asize) {
      assert key in HashKeys(all, asize) && used + {key} <= HashKeys(all, asize) && key !in used;
      SubsetSize(used + {key}, HashKeys(all, asize));
    }
  }

  lemma RestrictPut(m: map<Key, Value>, keys: set<Key>, key: Key)
    requires key in m && m[key] != Nil
    ensures Put(Restrict(m, keys), key, m[key]) == Restrict(m, keys + {key})
  {
  }

  ghost function FromArray(m: map<Key, Value>, size: nat): set<Key> { set k | k in m && InArray(k, size) }

  lemma StartResize(oldarr: seq<Value>, nold: seq<Node>, arr: seq<Value>, node: seq<Node>, m: map<Key, Value>,
                    keys: set<Key>)
    requires Distinct(nold) && Apart(oldarr, nold) && m == Contents(oldarr, nold)
    requires forall i :: 0 <= i < |node| ==> node[i] == FREE
    requires |arr| <= |oldarr| ==> arr == oldarr[..|arr|]
    requires |arr| > |oldarr| ==> arr == oldarr + seq(|arr| - |oldarr|, _ => Nil)
    requires keys == FromArray(m, if |arr| < |oldarr| then |arr| else |oldarr|)
    ensures Contents(arr, node) == Restrict(m, keys) && NodeKeys(node) == {} && ArrayOf(oldarr, m) && Apart(arr, node)
  {
    ContentsKeys(oldarr, nold);
    ContentsKeys(arr, node);
    forall k ensures Lookup(arr, node, k) == if k in m && k in keys then m[k] else Nil {
      FreeValue(node, k);
    }
  }

  lemma FreeValue(node: seq<Node>, k: Key)
    requires forall i :: 0 <= i < |node| ==> node[i] == FREE
    ensures NodeValue(node, k) == Nil
  {
  }

  /** The map has what the array holds. */
  ghost predicate ArrayOf(arr: seq<Value>, m: map<Key, Value>) {
    forall i :: 0 <= i < |arr| ==>
        if arr[i] == Nil then Int(i + 1) !in m else Int(i + 1) in m && m[Int(i + 1)] == arr[i]
  }

  lemma NextIndex(oldarr: seq<Value>, m: map<Key, Value>, i: nat)
    requires i < |oldarr| && ArrayOf(oldarr, m)
    ensures FromArray(m, i + 1) == FromArray(m, i) + (if oldarr[i] == Nil then {} else {Int(i + 1)})
    ensures oldarr[i] != Nil ==> FromArray(m, i) < m.Keys && Int(i + 1) !in FromArray(m, i)
    ensures oldarr[i] != Nil ==> Int(i + 1) in m && m[Int(i + 1)] == oldarr[i]
  {
    if oldarr[i] != Nil { assert Int(i + 1) in m.Keys; }
  }

  lemma OneMore(keys: set<Key>, key: Key, used: set<Key>, arr: seq<Value>, node: seq<Node>)
    requires used <= HashKeys(keys, |arr|) && NodeKeys(node) <= used + {key} && Apart(arr, node)
    ensures NodeKeys(node) <= HashKeys(keys + {key}, |arr|)
  {
    forall k | k in NodeKeys(node) ensures !InArray(k, |arr|) {
      var i :| 0 <= i < |node| && node[i].key != NoKey && node[i].key == k;
    }
  }

  lemma KeptMeans(arr: seq<Value>, node: seq<Node>, arr': seq<Value>, node': seq<Node>, key: Key)
    requires Kept(arr, node, arr', node', key)
    ensures arr' == arr && |node'| == |node| && NodeKeys(node') <= NodeKeys(node) + {key}
  {
  }

  lemma OldNode(h: Key -> nat, oldarr: seq<Value>, nold: seq<Node>, tails: seq<seq<nat>>, i: nat, m: map<Key, Value>)
    requires Chains(h, nold, tails) && Apart(oldarr, nold) && m == Contents(oldarr, nold) && i < |nold|
    requires nold[i].val != Nil
    ensures var k := nold[i].key;
      && k != NoKey && k != NaN && k in m && m[k] == nold[i].val && k !in FromArray(m, |oldarr|)
      && FromArray(m, |oldarr|) + LiveKeys(nold[i + 1..]) < m.Keys
  {
    ChainsDistinct(h, nold, tails);
    assert FreeOk(nold, i) && KeyOk(h, nold, tails, i);
    NodeValueAt(nold, i);
    ContentsKeys(oldarr, nold);
    NextLive(nold, i);
    forall k | k in LiveKeys(nold[i + 1..]) ensures k in m {
      var j :| 0 <= j < |nold[i + 1..]| && nold[i + 1..][j].key != NoKey && nold[i + 1..][j].val != Nil
          && nold[i + 1..][j].key == k;
      assert nold[i + 1 + j].key == k;
    }
    assert nold[i].key in m.Keys;
  }

  lemma AllKeys(oldarr: seq<Value>, nold: seq<Node>, m: map<Key, Value>)
    requires Distinct(nold) && Apart(oldarr, nold) && m == Contents(oldarr, nold)
    ensures FromArray(m, |oldarr|) + LiveKeys(nold) == m.Keys
    ensures Restrict(m, m.Keys) == m
  {
    ContentsKeys(oldarr, nold);
    forall k | k in m ensures k in FromArray(m, |oldarr|) + LiveKeys(nold) {}
  }

  // ---- rehash -----------------------------------------------------------------

  lemma NotInMap(arr: seq<Value>, node: seq<Node>, key: Key)
    requires Distinct(node) && Apart(arr, node) && !InArray(key, |arr|) && !Holds(node, key)
    ensures key !in Contents(arr, node).Keys
  {
    ContentsKeys(arr, node);
  }

  /** The counts of the two parts are those of the keys of the map. */
  lemma KeyCounts(arr: seq<Value>, node: seq<Node>)
    requires Distinct(node) && Apart(arr, node) && |arr| <= MAXASIZE
    ensures var keys := Contents(arr, node).Keys;
      && |keys| == |ArrayKeys(arr)| + |LiveKeys(node)|
      && Candidates(keys) == ArrayKeys(arr) + Candidates(LiveKeys(node))
      && |Candidates(keys)| == |ArrayKeys(arr)| + |Candidates(LiveKeys(node))|
    ensures forall k :: k in ArrayKeys(arr) ==> Int(k) !in LiveKeys(node)
  {
    var keys, live := Contents(arr, node).Keys, LiveKeys(node);
    forall k | k in live ensures !InArray(k, |arr|) {}
    assert keys == IntKeys(ArrayKeys(arr)) + live;
    assert IntKeys(ArrayKeys(arr)) !! live;
    IntKeysSize(ArrayKeys(arr));
    CandidatesSum(ArrayKeys(arr), live);
    forall k | k in ArrayKeys(arr) ensures k !in Candidates(live) {}
    assert ArrayKeys(arr) !! Candidates(live);
  }

  lemma CandidatesSum(s: set<int>, live: set<Key>)
    requires forall k :: k in s ==> 0 < k <= MAXASIZE
    ensures Candidates(IntKeys(s) + live) == s + Candidates(live)
  {
    forall k | k in s ensures k in Candidates(IntKeys(s) + live) { assert Int(k) in IntKeys(s) + live; }
  }

  lemma CandidatesMore(keys: set<Key>, key: Key)
    requires key !in keys
    ensures Candidates(keys + {key}) == Candidates(keys) + (if InArray(key, MAXASIZE) then {key.n} else {})
    ensures key.Int? ==> key.n !in Candidates(keys)
  {
    if InArray(key, MAXASIZE) { assert key in keys + {key} && key.n in Candidates(keys + {key}); }
  }

  lemma CandidatesRange(keys: set<Key>)
    ensures forall k :: k in Candidates(keys) ==> 0 < k <= MAXASIZE
  {
  }

  lemma NewRoom(keys: set<Key>, key: Key, n: nat)
    requires key !in keys
    ensures |HashKeys(keys + {key}, n)| == |HashKeys(keys, n)| + (if InArray(key, n) then 0 else 1)
    ensures |keys + {key}| == |keys| + 1
  {
    assert HashKeys(keys + {key}, n) == HashKeys(keys, n) + (if InArray(key, n) then {} else {key});
  }

  lemma AbsentAfter(arr: seq<Value>, node: seq<Node>, keys: set<Key>, key: Key)
    requires NodeKeys(node) <= HashKeys(keys, |arr|) && key !in keys && key != NoKey
    ensures !Holds(node, key)
  {
    forall i | 0 <= i < |node| ensures node[i].key != key {
      assert node[i].key != NoKey ==> node[i].key in NodeKeys(node);
    }
  }

  lemma FewerNodes(arr: seq<Value>, node: seq<Node>, size: nat)
    requires Distinct(node) && Apart(arr, node) && size >= |arr|
    ensures HashKeys(Contents(arr, node).Keys, size) <= LiveKeys(node) && |LiveKeys(node)| <= |node|
  {
    LiveFit(node);
  }

  lemma {:induction false} LiveFit(node: seq<Node>)
    requires Distinct(node)
    ensures |LiveKeys(node)| <= |node|
    decreases |node|
  {
    if node == [] {
      assert LiveKeys(node) == {};
    } else {
      NextLive(node, 0);
      assert node[0..] == node;
      LiveFit(node[1..]);
    }
  }

  lemma {:induction false} ManyInts(keys: set<Key>, n: nat)
    requires forall k :: 1 <= k <= n ==> Int(k) in keys
    ensures |keys| >= n
    decreases n
  {
    if n > 0 {
      ManyInts(keys - {Int(n)}, n - 1);
      assert keys == keys - {Int(n)} + {Int(n)};
    }
  }
}
