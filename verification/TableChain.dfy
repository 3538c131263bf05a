/**
 The hash part of a table (ltable.c): a vector of nodes whose `next` links form chains.
 Collisions are resolved by Brent's variation: a key that is not in its main
 position collides there with a key that is.
 */
module TableChain {

  datatype Key = NoKey | Int(n: int) | Float(id: int) | NaN | Str(id: int) | Bool(b: bool) | Obj(id: int)

  datatype Value = Nil | Val(id: int)

  const NULL: int := -1

  datatype Node = Node(key: Key, val: Value, next: int)

  const FREE := Node(NoKey, Nil, NULL)

  /** mainposition: strings and booleans by lmod, the rest modulo an odd number */
  function MainPos(h: Key -> nat, key: Key, size: nat): (p: nat)
    requires size > 0
    ensures p < size
  {
    if key.Str? || key.Bool? then h(key) % size
    else h(key) % (if size == 1 then 1 else size - 1)
  }

  /** `tails[i]` lists the nodes from `i` to the end of its chain. */
  ghost predicate Linked(node: seq<Node>, tails: seq<seq<nat>>) {
    && |tails| == |node|
    && forall i :: 0 <= i < |node| ==> TailOk(node, tails, i)
  }

  ghost predicate TailOk(node: seq<Node>, tails: seq<seq<nat>>, i: nat)
    requires i < |node| == |tails|
  {
    var nx := node[i].next;
    (nx == NULL || 0 <= nx < |node|) && tails[i] == [i] + (if nx == NULL then [] else tails[nx])
  }

  /** A stored key is in the chain of its main position, where the key is at home. */
  ghost predicate KeyOk(h: Key -> nat, node: seq<Node>, tails: seq<seq<nat>>, i: nat)
    requires i < |node| == |tails|
  {
    node[i].key != NoKey ==>
      var p := MainPos(h, node[i].key, |node|);
      && node[i].key != NaN && i in tails[p]
      && node[p].key != NoKey && MainPos(h, node[p].key, |node|) == p
  }

  ghost predicate FreeOk(node: seq<Node>, i: nat)
    requires i < |node|
  {
    && (node[i].key == NoKey ==> node[i].val == Nil && node[i].next == NULL)
    && (0 <= node[i].next < |node| ==> node[node[i].next].key != NoKey)
  }

  /** The chain invariant of insertion. */
  ghost predicate Chains(h: Key -> nat, node: seq<Node>, tails: seq<seq<nat>>) {
    && |node| > 0 && Linked(node, tails)
    && (forall i :: 0 <= i < |node| ==> FreeOk(node, i))
    && (forall i :: 0 <= i < |node| ==> KeyOk(h, node, tails, i))
    && OnePredecessor(node) && OneNode(node)
  }

  /** A node has at most one predecessor. */
  ghost predicate OnePredecessor(node: seq<Node>) {
    forall i, j :: 0 <= i < j < |node| && node[i].next == node[j].next ==> node[i].next == NULL
  }

  /** A key is stored at most once. */
  ghost predicate OneNode(node: seq<Node>) {
    forall i, j :: 0 <= i < j < |node| && node[i].key == node[j].key ==> node[i].key == NoKey
  }

  ghost predicate Holds(node: seq<Node>, key: Key) { exists i :: 0 <= i < |node| && node[i].key == key }

  // ---- tails ----------------------------------------------------------------

  /** What follows a node in a chain is shorter: chains have no cycle. */
  lemma {:induction false} TailOf(node: seq<Node>, tails: seq<seq<nat>>, i: nat, x: nat)
    requires Linked(node, tails) && i < |node| && x in tails[i]
    ensures x < |node| && |tails[x]| <= |tails[i]| && (x != i ==> |tails[x]| < |tails[i]|)
    ensures forall y :: y in tails[x] ==> y in tails[i]
    decreases |tails[i]|
  {
    assert TailOk(node, tails, i);
    if x != i { TailOf(node, tails, node[i].next, x); }
  }

  lemma NotBehindItself(node: seq<Node>, tails: seq<seq<nat>>, i: nat)
    requires Linked(node, tails) && i < |node| && node[i].next != NULL
    ensures 0 <= node[i].next < |node| && i !in tails[node[i].next] && node[i].next != i
  {
    assert TailOk(node, tails, i);
    if i in tails[node[i].next] { TailOf(node, tails, node[i].next, i); }
  }

  /** A node without predecessor is in no other chain. */
  lemma {:induction false} Loose(node: seq<Node>, tails: seq<seq<nat>>, i: nat, x: nat)
    requires Linked(node, tails) && i < |node| && x < |node| && x != i
    requires forall j :: 0 <= j < |node| ==> node[j].next != x
    ensures x !in tails[i]
    decreases |tails[i]|
  {
    assert TailOk(node, tails, i);
    if node[i].next != NULL { Loose(node, tails, node[i].next, x); }
  }

  // ---- a new node behind another --------------------------------------------

  /** `s` with `y` inserted behind `x` */
  function Inserted(s: seq<nat>, x: nat, y: nat): seq<nat> {
    if s == [] then []
    else if s[0] == x then [x, y] + s[1..]
    else [s[0]] + Inserted(s[1..], x, y)
  }

  lemma {:induction false} InsertedIs(s: seq<nat>, x: nat, y: nat)
    ensures x !in s ==> Inserted(s, x, y) == s
    ensures forall i :: i in Inserted(s, x, y) <==> i in s || (i == y && x in s)
  {
    if s != [] {
      InsertedIs(s[1..], x, y);
      assert s == [s[0]] + s[1..];
    }
  }

  function InsertTails(node: seq<Node>, tails: seq<seq<nat>>, mp: nat, n: nat): (r: seq<seq<nat>>)
    requires |tails| == |node| && mp < |node|
    ensures |r| == |tails|
  {
    seq(|tails|, i requires 0 <= i < |tails| =>
      if i == n then [n] + (if 0 <= node[mp].next < |node| then tails[node[mp].next] else [])
      else Inserted(tails[i], mp, n))
  }

  function Behind(node: seq<Node>, mp: nat, n: nat, key: Key): seq<Node>
    requires mp < |node| && n < |node|
  {
    node[n := Node(key, Nil, node[mp].next)][mp := node[mp].(next := n)]
  }

  /** A new key whose main position is taken by a key at home goes to the free node, behind it. */
  lemma InsertBehind(h: Key -> nat, node: seq<Node>, tails: seq<seq<nat>>, mp: nat, n: nat, key: Key)
    requires Chains(h, node, tails) && mp < |node| && n < |node|
    requires node[n].key == NoKey && node[mp].key != NoKey && MainPos(h, node[mp].key, |node|) == mp
    requires key != NoKey && key != NaN && !Holds(node, key) && MainPos(h, key, |node|) == mp
    ensures Chains(h, Behind(node, mp, n, key), InsertTails(node, tails, mp, n))
  {
    var node', tails' := Behind(node, mp, n, key), InsertTails(node, tails, mp, n);
    assert FreeOk(node, mp) && FreeOk(node, n);
    forall j | 0 <= j < |node| ensures node[j].next != n { assert FreeOk(node, j); }
    BehindTails(node, tails, mp, n, key);
    hide Inserted, InsertTails, Linked;
    assert OnePredecessor(node') && OneNode(node') by { hide KeyOk, FreeOk, MainPos; }
    hide OnePredecessor, OneNode;
    BehindMembers(node, tails, mp, n);
    hide MainPos;
    assert forall i :: 0 <= i < |node| ==> FreeOk(node', i) by {
      hide KeyOk;
      forall i | 0 <= i < |node| ensures FreeOk(node', i) { assert FreeOk(node, i); }
    }
    hide FreeOk;
    forall i | 0 <= i < |node| ensures KeyOk(h, node', tails', i) {
      assert KeyOk(h, node, tails, i) && KeyOk(h, node, tails, mp);
    }
  }

  lemma BehindMembers(node: seq<Node>, tails: seq<seq<nat>>, mp: nat, n: nat)
    requires |tails| == |node| && mp < |node|
    ensures forall i, x :: 0 <= i < |node| && i != n && x in tails[i] ==> x in InsertTails(node, tails, mp, n)[i]
    ensures forall i :: 0 <= i < |node| && i != n && mp in tails[i] ==> n in InsertTails(node, tails, mp, n)[i]
  {
    forall i | 0 <= i < |node|
      ensures forall x :: x in Inserted(tails[i], mp, n) <==> x in tails[i] || (x == n && mp in tails[i]) {
      InsertedIs(tails[i], mp, n);
    }
  }

  lemma BehindTails(node: seq<Node>, tails: seq<seq<nat>>, mp: nat, n: nat, key: Key)
    requires Linked(node, tails) && mp < |node| && n < |node| && mp != n
    requires forall j :: 0 <= j < |node| ==> node[j].next != n
    requires node[n].next == NULL
    ensures Linked(Behind(node, mp, n, key), InsertTails(node, tails, mp, n))
  {
    hide Inserted, InsertTails, TailOk;
    assert TailOk(node, tails, mp);
    if node[mp].next != NULL { NotBehindItself(node, tails, mp); }
    BehindEnds(node, tails, mp, n, key);
    forall i | 0 <= i < |node| && i != mp && i != n
      ensures TailOk(Behind(node, mp, n, key), InsertTails(node, tails, mp, n), i) {
      BehindOther(node, tails, mp, n, key, i);
    }
  }

  lemma BehindEnds(node: seq<Node>, tails: seq<seq<nat>>, mp: nat, n: nat, key: Key)
    requires |tails| == |node| && mp < |node| && n < |node| && mp != n && TailOk(node, tails, mp) && node[mp].next != n
    requires node[mp].next != NULL ==> mp !in tails[node[mp].next]
    ensures TailOk(Behind(node, mp, n, key), InsertTails(node, tails, mp, n), mp)
    ensures TailOk(Behind(node, mp, n, key), InsertTails(node, tails, mp, n), n)
  {
    hide Inserted;
    var next, tails' := node[mp].next, InsertTails(node, tails, mp, n);
    var behind := if next == NULL then [] else tails[next];
    InsertedIs(behind, mp, n);
    InsertedCons(mp, behind, mp, n);
    assert tails'[n] == [n] + behind && tails'[mp] == [mp] + tails'[n];
  }

  lemma BehindOther(node: seq<Node>, tails: seq<seq<nat>>, mp: nat, n: nat, key: Key, i: nat)
    requires |tails| == |node| && mp < |node| && n < |node| && i < |node| && i != mp && i != n
    requires TailOk(node, tails, i) && node[i].next != n
    ensures TailOk(Behind(node, mp, n, key), InsertTails(node, tails, mp, n), i)
  {
    hide Inserted;
    InsertedCons(i, if node[i].next == NULL then [] else tails[node[i].next], mp, n);
  }

  lemma InsertedCons(i: nat, rest: seq<nat>, x: nat, y: nat)
    ensures Inserted([], x, y) == []
    ensures Inserted([i] + rest, x, y) == if i == x then [x, y] + rest else [i] + Inserted(rest, x, y)
  {
    assert ([i] + rest)[1..] == rest;
  }

  // ---- moving a node out of another key's main position -----------------------

  /** `s` with `y` in place of `x` */
  function Moved(s: seq<nat>, x: nat, y: nat): seq<nat> {
    if s == [] then []
    else [if s[0] == x then y else s[0]] + Moved(s[1..], x, y)
  }

  lemma {:induction false} MovedIs(s: seq<nat>, x: nat, y: nat)
    ensures x !in s ==> Moved(s, x, y) == s
    ensures forall i :: i in Moved(s, x, y) <==> (i in s && i != x) || (i == y && x in s)
  {
    if s != [] {
      MovedIs(s[1..], x, y);
      assert s == [s[0]] + s[1..];
    }
  }

  function MoveTails(tails: seq<seq<nat>>, mp: nat, n: nat): (r: seq<seq<nat>>)
    requires mp < |tails| && n < |tails|
    ensures |r| == |tails|
  {
    seq(|tails|, i requires 0 <= i < |tails| =>
      if i == mp then [mp] else if i == n then Moved(tails[mp], mp, n) else Moved(tails[i], mp, n))
  }

  function Away(node: seq<Node>, mp: nat, n: nat, prev: nat, key: Key): seq<Node>
    requires mp < |node| && n < |node| && prev < |node|
  {
    node[prev := node[prev].(next := n)][n := node[mp]][mp := Node(key, Nil, NULL)]
  }

  /**
   A node that is away from its main position moves to the free node, and its predecessor
   `prev` follows it there; the new key gets its main position.
   */
  lemma MoveAway(h: Key -> nat, node: seq<Node>, tails: seq<seq<nat>>, mp: nat, n: nat, prev: nat, key: Key)
    requires Chains(h, node, tails) && mp < |node| && n < |node| && prev < |node|
    requires node[n].key == NoKey && node[mp].key != NoKey && MainPos(h, node[mp].key, |node|) != mp
    requires node[prev].next == mp
    requires key != NoKey && key != NaN && !Holds(node, key) && MainPos(h, key, |node|) == mp
    ensures Chains(h, Away(node, mp, n, prev, key), MoveTails(tails, mp, n))
  {
    var node', tails' := Away(node, mp, n, prev, key), MoveTails(tails, mp, n);
    assert FreeOk(node, mp) && FreeOk(node, n) && FreeOk(node, prev);
    forall j | 0 <= j < |node|
      ensures node[j].next != n && (node[j].next == mp ==> j == prev) { assert FreeOk(node, j); }
    NotBehindItself(node, tails, prev);
    AwayTails(node, tails, mp, n, prev, key);
    hide Moved, MoveTails, Linked;
    assert OnePredecessor(node') by { hide KeyOk, FreeOk, MainPos, OneNode; }
    hide OnePredecessor;
    assert OneNode(node') by { hide KeyOk, FreeOk, MainPos; }
    hide OneNode;
    AwayMembers(tails, mp, n);
    hide MainPos;
    assert forall i :: 0 <= i < |node| ==> FreeOk(node', i) by {
      hide KeyOk;
      forall i | 0 <= i < |node| ensures FreeOk(node', i) { assert FreeOk(node, i); }
    }
    hide FreeOk;
    forall i | 0 <= i < |node| ensures KeyOk(h, node', tails', i) {
      assert KeyOk(h, node, tails, i) && KeyOk(h, node, tails, mp);
    }
  }

  lemma AwayMembers(tails: seq<seq<nat>>, mp: nat, n: nat)
    requires mp < |tails| && n < |tails|
    ensures forall i, x :: 0 <= i < |tails| && i != n && i != mp && x in tails[i] && x != mp ==>
        x in MoveTails(tails, mp, n)[i]
    ensures forall i :: 0 <= i < |tails| && i != n && i != mp && mp in tails[i] ==> n in MoveTails(tails, mp, n)[i]
    ensures mp != n ==> mp in MoveTails(tails, mp, n)[mp]
  {
    forall i | 0 <= i < |tails|
      ensures forall x :: x in Moved(tails[i], mp, n) <==> (x in tails[i] && x != mp) || (x == n && mp in tails[i]) {
      MovedIs(tails[i], mp, n);
    }
  }

  lemma AwayTails(node: seq<Node>, tails: seq<seq<nat>>, mp: nat, n: nat, prev: nat, key: Key)
    requires Linked(node, tails) && mp < |node| && n < |node| && prev < |node| && mp != n && prev != n && prev != mp
    requires forall j :: 0 <= j < |node| ==> node[j].next != n && (node[j].next == mp ==> j == prev)
    requires node[prev].next == mp && node[n].next == NULL
    ensures Linked(Away(node, mp, n, prev, key), MoveTails(tails, mp, n))
  {
    assert TailOk(node, tails, mp);
    if node[mp].next != NULL { NotBehindItself(node, tails, mp); }
    var node', tails' := Away(node, mp, n, prev, key), MoveTails(tails, mp, n);
    hide Moved;
    forall i | 0 <= i < |node| ensures TailOk(node', tails', i) {
      assert TailOk(node, tails, i);
      var nx := node[i].next;
      var rest := if nx == NULL then [] else tails[nx];
      MovedCons(i, rest, mp, n);
      MovedIs(rest, mp, n);
      if i != n && i != mp && i != prev {
        assert node'[i] == node[i];
        assert Moved(rest, mp, n) == if nx == NULL then [] else tails'[nx];
      }
    }
  }

  lemma MovedCons(i: nat, rest: seq<nat>, x: nat, y: nat)
    ensures Moved([], x, y) == []
    ensures Moved([i] + rest, x, y) == [if i == x then y else i] + Moved(rest, x, y)
  {
    assert ([i] + rest)[1..] == rest;
  }

  // ---- a main position that can be used as it is --------------------------------

  /** A key takes its main position when no value is there, whatever chain the node is in. */
  lemma TakePlace(h: Key -> nat, node: seq<Node>, tails: seq<seq<nat>>, mp: nat, key: Key)
    requires Chains(h, node, tails) && mp < |node| && node[mp].val == Nil
    requires key != NoKey && key != NaN && !Holds(node, key) && MainPos(h, key, |node|) == mp
    ensures Chains(h, node[mp := node[mp].(key := key)], tails)
  {
    var node' := node[mp := node[mp].(key := key)];
    assert TailOk(node, tails, mp);
    forall i | 0 <= i < |node| ensures TailOk(node', tails, i) { assert TailOk(node, tails, i); }
    forall i | 0 <= i < |node| ensures FreeOk(node', i) && KeyOk(h, node', tails, i) {
      assert FreeOk(node, i) && KeyOk(h, node, tails, i);
    }
  }

  /** Values are no part of the structure. */
  lemma ValueSet(h: Key -> nat, node: seq<Node>, tails: seq<seq<nat>>, i: nat, v: Value)
    requires Chains(h, node, tails) && i < |node| && node[i].key != NoKey
    ensures Chains(h, node[i := node[i].(val := v)], tails)
  {
    var node' := node[i := node[i].(val := v)];
    forall j | 0 <= j < |node| ensures TailOk(node', tails, j) && FreeOk(node', j) && KeyOk(h, node', tails, j) {
      assert TailOk(node, tails, j) && FreeOk(node, j) && KeyOk(h, node, tails, j);
    }
  }

  function Singles(n: nat): seq<seq<nat>> { seq(n, i requires 0 <= i < n => [i]) }

  lemma AllFree(h: Key -> nat, node: seq<Node>)
    requires |node| > 0 && forall i :: 0 <= i < |node| ==> node[i] == FREE
    ensures Chains(h, node, Singles(|node|))
  {
  }
}
