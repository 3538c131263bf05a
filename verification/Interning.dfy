/**
 The string table (lstring.c) and its sweep (lgc.c): at most one string object per content, each
 where its hash says.
 */
module Interning {
  import opened Basics

  type Id = nat

  const MINSTRTABSIZE: nat := 32

  // ---- hashing --------------------------------------------------------------------

  function Mix(h: bv32, c: byte): bv32 { h ^ ((h << 5) + (h >> 2) + (c as bv32)) }

  /** The hash loop of luaS_newlstr: long strings skip characters. */
  function HashFrom(s: bytes, l1: nat, step: nat, h: bv32): bv32
    requires l1 <= |s| && step > 0
    decreases l1
  {
    if l1 < step then h else HashFrom(s, l1 - step, step, Mix(h, s[l1 - 1]))
  }

  function Seed(l: nat): bv32 { (l % 0x1_0000_0000) as bv32 }

  function Hash(s: bytes): nat { HashFrom(s, |s|, |s| / 32 + 1, Seed(|s|)) as nat }

  /** lmod; the size is a power of two */
  function Bucket(h: nat, size: nat): (b: nat)
    requires size > 0
    ensures b < size
  {
    h % size
  }

  method ComputeHash(s: bytes) returns (h: nat)
    ensures h == Hash(s)
  {
    var v := Seed(|s|);
    var step := |s| / 32 + 1;
    var l1: nat := |s|;
    while l1 >= step
      invariant l1 <= |s| && HashFrom(s, l1, step, v) == HashFrom(s, |s|, |s| / 32 + 1, Seed(|s|))
    {
      v := Mix(v, s[l1 - 1]);
      l1 := l1 - step;
    }
    h := v as nat;
  }

  // ---- the table --------------------------------------------------------------------

  /** One of the two whites, or black */
  datatype Colour = White(bit: bool) | Black

  /** A fixed string is never freed. */
  datatype TString = TString(content: bytes, hash: nat, colour: Colour, fixed: bool)

  datatype Phase = Mark | SweepString(next: nat) | SweepRest

  /** What happens to the table during a run */
  datatype Op =
    | Intern(s: bytes)
    | Fix(i: Id)
    | Grow(size: nat)
    | Check
    | FlipWhite(colours: Id -> Colour)
    | Sweep
    | EndCycle

  /** The chains hold exactly the strings of `ids', each once, in the bucket of its hash. */
  ghost predicate Placed(hash: seq<seq<Id>>, str: map<Id, TString>, ids: set<Id>) {
    && |hash| > 0 && ids <= str.Keys
    && (forall b :: 0 <= b < |hash| ==> NoDup(hash[b]))
    && (forall b, i :: 0 <= b < |hash| && i in hash[b] ==> i in ids && Bucket(str[i].hash, |hash|) == b)
    && (forall i :: i in ids ==> i in hash[Bucket(str[i].hash, |hash|)])
  }

  ghost predicate Unique(str: map<Id, TString>) {
    && (forall i :: i in str ==> str[i].hash == Hash(str[i].content))
    && (forall i, j :: i in str && j in str && str[i].content == str[j].content ==> i == j)
  }

  class StringTable {
    var hash: seq<seq<Id>>       // chains
    var nuse: nat                // number of elements
    var str: map<Id, TString>
    var white: bool              // currentwhite
    var phase: Phase

    ghost predicate Valid()
      reads this
    {
      && Placed(hash, str, str.Keys) && Unique(str) && nuse == |str.Keys|
      && (phase.SweepString? ==> phase.next <= |hash|)
    }

    constructor ()
      ensures Valid() && str == map[]
    {
      hash, nuse, str := NoChains(MINSTRTABSIZE), 0, map[];
      white, phase := false, Mark;
    }

    /** isdead: the string has the other white. */
    predicate IsDead(i: Id)
      requires i in str
      reads this
    {
      str[i].colour == White(!white)
    }

    /** Fixed strings are still there, fixed and with the same content. */
    ghost predicate FixedKept(was: map<Id, TString>)
      reads this
    {
      forall j :: j in was && was[j].fixed ==> j in str && str[j].fixed && str[j].content == was[j].content
    }

    /** Every string but the one is as it was. */
    ghost predicate Others(was: map<Id, TString>, i: Id)
      reads this
    {
      forall j :: j in was && j != i ==> j in str && str[j] == was[j]
    }

    /**
     luaS_newlstr: the one object with this content, which is not dead afterwards. `spare' is what
     malloc would return.
     */
    method NewLStr(s: bytes, spare: Id) returns (i: Id)
      requires Valid() && spare !in str
      modifies this
      ensures Valid() && i in str && str[i].content == s && !IsDead(i) && (i in old(str) ==> old(str)[i].content == s)
      ensures Others(old(str), i) && white == old(white) && phase == old(phase)
      ensures if exists j :: j in old(str) && old(str)[j].content == s
              then i in old(str) && str == old(str)[i := Revived(old(str)[i], white)]
              else i == spare && str == old(str)[spare := TString(s, Hash(s), White(white), false)]
    {
      hide Placed, Unique, Hash, Bucket;
      var h := ComputeHash(s);
      var found, k := Lookup(s, h);
      if found {
        i := k;
        if IsDead(i) {
          // string may be dead: resurrect it
          Recoloured(hash, str, i, White(white));
          str := str[i := str[i].(colour := White(white))];
        }
        return;
      }
      AddString(s, h, spare);
      return spare;
    }

    /** The search in the chain */
    method Lookup(s: bytes, h: nat) returns (found: bool, i: Id)
      requires Valid() && h == Hash(s)
      ensures if found then i in str && str[i].content == s else forall j :: j in str ==> str[j].content != s
    {
      hide Placed, Unique, Hash, Bucket;
      NonEmpty(hash, str, str.Keys);
      var chain := hash[Bucket(h, |hash|)];
      var k := 0;
      while k < |chain|
        invariant k <= |chain| && forall m :: 0 <= m < k ==> chain[m] in str && str[chain[m]].content != s
      {
        Member(hash, str, Bucket(h, |hash|), chain[k]);
        if str[chain[k]].content == s { return true, chain[k]; }
        k := k + 1;
      }
      forall j | j in str ensures str[j].content != s {
        HomeOf(hash, str, j);
        assert str[j].content == s ==> j in chain;
      }
      return false, 0;
    }

    /** newlstr: the string goes to the front of its chain; a crowded table grows. */
    method AddString(s: bytes, h: nat, i: Id)
      requires Valid() && i !in str && h == Hash(s) && forall j :: j in str ==> str[j].content != s
      modifies this
      ensures Valid() && str == old(str)[i := TString(s, h, White(white), false)]
      ensures white == old(white) && phase == old(phase)
    {
      hide Placed, Unique, Hash, Bucket;
      NonEmpty(hash, str, str.Keys);
      UniqueAdd(str, i, TString(s, h, White(white), false));
      var b := Bucket(h, |hash|);
      Inserted(hash, str, str.Keys, i, TString(s, h, White(white), false));
      str := str[i := TString(s, h, White(white), false)];
      hash := hash[b := [i] + hash[b]];
      assert str.Keys == old(str).Keys + {i};
      nuse := nuse + 1;
      if nuse > |hash| && |hash| <= MAX_INT / 2 { Resize(|hash| * 2); }
    }

    /** luaS_resize: every string moves to its chain in the new vector; not while the sweep walks the old one. */
    method Resize(newsize: nat)
      requires Valid() && newsize > 0
      modifies this`hash
      ensures Valid() && |hash| == if phase.SweepString? then old(|hash|) else newsize
    {
      hide Placed, Bucket, Unique, Before, Elems, Waiting, NoChains;
      if phase.SweepString? { return; }
      NonEmpty(hash, str, str.Keys);
      NoneBefore(hash);
      var newhash := NoChains(newsize);
      ghost var done: set<Id> := {};
      NothingPlaced(newhash, str);
      var i := 0;
      var oldhash := hash;
      while i < |oldhash|
        invariant i <= |oldhash| && |newhash| == newsize && Placed(newhash, str, done)
        invariant done == Before(oldhash, i)
      {
        ChainApart(oldhash, str, i);
        BeforeNext(oldhash, i);
        newhash, done := Rechain(newhash, oldhash[i], done);
        i := i + 1;
      }
      AllBefore(oldhash, str);
      hash := newhash;
    }

    /** The strings of one old chain, put into their new ones */
    method Rechain(newhash: seq<seq<Id>>, p: seq<Id>, ghost done: set<Id>) returns (r: seq<seq<Id>>, ghost all: set<Id>)
      requires Placed(newhash, str, done) && Waiting(p, str, done)
      ensures |r| == |newhash| && all == done + Elems(p) && Placed(r, str, all)
    {
      hide Placed, Bucket;
      NonEmpty(newhash, str, done);
      assert Elems<nat>([]) == {};
      r, all := newhash, done;
      var k := 0;
      assert p[..0] == [];
      while k < |p|
        invariant k <= |p| && |r| == |newhash| && Placed(r, str, all) && all == done + Elems(p[..k])
      {
        var x := p[k];
        assert p[..k + 1] == p[..k] + [x] && x !in p[..k];
        Moved(r, str, all, x);
        assert Elems(p[..k + 1]) == Elems(p[..k]) + {x};
        var h1 := Bucket(str[x].hash, |r|);
        r := r[h1 := [x] + r[h1]];
        all := all + {x};
        k := k + 1;
      }
      assert p[..k] == p;
    }

    // ---- the sweep ----------------------------------------------------------------------

    /** The end of the mark phase: the whites change roles; which strings are marked is up to the marking. */
    method Flip(colours: Id -> Colour)
      requires Valid() && phase == Mark
      modifies this
      ensures Valid() && white != old(white) && phase == SweepString(0) && str.Keys == old(str).Keys
      ensures hash == old(hash) && str == map i | i in old(str) :: old(str)[i].(colour := colours(i))
    {
      Painted(hash, str, colours);
      str := map i | i in str :: str[i].(colour := colours(i));
      white, phase := !white, SweepString(0);
    }

    /** Whether the sweep frees a string that it comes to */
    predicate Frees(i: Id)
      requires i in str
      reads this
    {
      IsDead(i) && !str[i].fixed
    }

    /** One step of the string sweep: the dead strings of one chain are freed, the others get the current white. */
    method SweepChain()
      requires Valid() && phase.SweepString? && phase.next < |hash|
      modifies this
      ensures Valid() && white == old(white) && |hash| == old(|hash|)
      ensures phase == if old(phase.next) + 1 >= |hash| then SweepRest else SweepString(old(phase.next) + 1)
      ensures forall i :: i in old(str) ==>
        (i in str <==> !(old(Frees(i)) && i in old(hash[phase.next])))
      ensures str.Keys <= old(str).Keys
      ensures forall i :: i in str ==>
          str[i] == if i in old(hash[phase.next]) then old(str)[i].(colour := White(white)) else old(str)[i]
    {
      hide Placed, Unique, Swept, NoDup;
      var n := phase.next;
      ghost var was, hash0 := str, hash;
      var chain, kept, k: nat := hash[n], [], 0;
      ghost var freed: set<Id> := {};
      ChainOf(hash, str, n);
      assert chain[..0] == [];
      NothingSwept(was, white);
      while k < |chain|
        invariant k <= |chain| && white == old(white) && phase == old(phase) && hash == hash0
        invariant Swept(was, str, chain[..k], kept, freed, white)
        invariant nuse + |freed| == |was.Keys|
      {
        var curr := chain[k];
        assert chain[..k + 1] == chain[..k] + [curr] && curr !in chain[..k] by { NextInChain(chain, k); }
        SweptNext(was, str, chain[..k], kept, freed, white, curr);
        if Frees(curr) {
          str := str - {curr};
          FreedFewer(was, freed, curr);
          nuse := nuse - 1;
          freed := freed + {curr};
        } else {
          str := str[curr := str[curr].(colour := White(white))];
          kept := kept + [curr];
        }
        k := k + 1;
      }
      assert chain[..k] == chain;
      SweptPlaced(hash0, was, str, n, kept, freed, white);
      hash := hash[n := kept];
      phase := if n + 1 >= |hash| then SweepRest else SweepString(n + 1);
      SweptMeans(was, str, chain, kept, freed, white);
    }

    /** checkSizes, at the end of a cycle */
    method CheckSizes()
      requires Valid()
      modifies this`hash
      ensures Valid()
      ensures |hash| ==
        if !phase.SweepString? && nuse < |old(hash)| / 4 && |old(hash)| > MINSTRTABSIZE * 2 then |old(hash)| / 2
        else |old(hash)|
    {
      hide Placed, Unique;
      if nuse < |hash| / 4 && |hash| > MINSTRTABSIZE * 2 { Resize(|hash| / 2); }
    }

    /** The object is the string with this content, and not dead. */
    ghost predicate Alive(i: Id, s: bytes)
      reads this
    {
      i in str && !IsDead(i) && str[i].content == s
    }

    /** One operation. What is alive stays so, except that new whites make it fair game. */
    method Step(op: Op, spare: Id) returns (i: Id)
      requires Valid() && spare !in str
      modifies this
      ensures Valid() && (op.Intern? ==> Alive(i, op.s))
      ensures !op.FlipWhite? ==> forall x, s {:trigger Alive(x, s)} :: old(Alive(x, s)) ==> Alive(x, s)
      ensures FixedKept(old(str)) && (op.Fix? && op.i in old(str) ==> op.i in str && str[op.i].fixed)
    {
      hide Valid;
      i := spare;
      match op {
        case Intern(s) => i := NewLStr(s, spare);
        case Fix(x) => FixString(x);
        case Grow(size) => if size > 0 { Resize(size); }
        case Check => CheckSizes();
        case FlipWhite(colours) => if phase == Mark { Flip(colours); }
        case Sweep => SweepStep();
        case EndCycle => EndCycle();
      }
    }

    /** luaS_fix: the string is never freed from now on. */
    method FixString(i: Id)
      requires Valid()
      modifies this`str
      ensures Valid()
      ensures str == if i in old(str) then old(str)[i := old(str)[i].(fixed := true)] else old(str)
    {
      hide Placed, Unique;
      if i in str {
        Refixed(hash, str, i);
        str := str[i := str[i].(fixed := true)];
      }
    }

    method SweepStep()
      requires Valid()
      modifies this
      ensures FixedKept(old(str))
      ensures Valid() && forall x, s {:trigger Alive(x, s)} :: old(Alive(x, s)) ==> Alive(x, s)
    {
      hide Placed, Unique;
      if phase.SweepString? && phase.next < |hash| { SweepChain(); }
    }

    method EndCycle()
      requires Valid()
      modifies this`phase
      ensures Valid()
    {
      if phase == SweepRest { phase := Mark; }
    }

    /**
     Any sequence of interning, resizing, and collector steps, whatever unused object malloc returns:
     the table stays valid, what interning returned since the whites last changed is still the
     string with the content that was asked for, and not dead, and fixed strings are never freed.
     */
    method Run(ops: seq<Op>, malloc: (nat, set<Id>) -> Id) returns (got: seq<Id>)
      requires Valid() && forall k, used :: malloc(k, used) !in used
      modifies this
      ensures Valid() && |got| == |ops|
      ensures forall k :: 0 <= k < |ops| && ops[k].Intern? && SameWhites(ops, k, |ops|) ==> Alive(got[k], ops[k].s)
      ensures FixedKept(old(str))
    {
      hide Valid, Alive;
      got := [];
      while |got| < |ops|
        invariant Valid() && |got| <= |ops| && FixedKept(old(str))
        invariant forall k :: 0 <= k < |got| && ops[k].Intern? && SameWhites(ops, k, |got|) ==> Alive(got[k], ops[k].s)
      {
        var k := |got|;
        forall j | 0 <= j < k && SameWhites(ops, j, k + 1) ensures SameWhites(ops, j, k) && !ops[k].FlipWhite? {}
        var i := Step(ops[k], malloc(k, str.Keys));
        got := got + [i];
      }
    }
  }

  /** The string as it is once it has been found again */
  function Revived(t: TString, white: bool): TString {
    if t.colour == White(!white) then t.(colour := White(white)) else t
  }

  /** Between two operations the whites do not change. */
  ghost predicate SameWhites(ops: seq<Op>, j: nat, k: nat)
    requires k <= |ops|
  {
    forall m :: j < m < k ==> !ops[m].FlipWhite?
  }

  function NoChains(n: nat): (hash: seq<seq<Id>>)
    ensures |hash| == n && forall b :: 0 <= b < n ==> hash[b] == []
  {
    seq(n, _ => [])
  }

  /** The strings of the chains before the `n'th */
  ghost function Before(hash: seq<seq<Id>>, n: nat): set<Id>
    requires n <= |hash|
  {
    if n == 0 then {} else Before(hash, n - 1) + Elems(hash[n - 1])
  }

  lemma NoneBefore(hash: seq<seq<Id>>)
    ensures Before(hash, 0) == {}
  {
  }

  lemma BeforeNext(hash: seq<seq<Id>>, n: nat)
    requires n < |hash|
    ensures Before(hash, n + 1) == Before(hash, n) + Elems(hash[n])
  {
  }

  lemma {:induction false} BeforeHas(hash: seq<seq<Id>>, n: nat, i: Id)
    requires n <= |hash|
    ensures i in Before(hash, n) <==> exists b :: 0 <= b < n && i in hash[b]
    decreases n
  {
    if n > 0 { BeforeHas(hash, n - 1, i); }
  }

  /** The strings of a chain, none of them moved so far */
  ghost predicate Waiting(p: seq<Id>, str: map<Id, TString>, done: set<Id>) {
    NoDup(p) && forall i :: i in p ==> i in str && i !in done
  }

  /** No string is in two chains. */
  lemma ChainApart(hash: seq<seq<Id>>, str: map<Id, TString>, n: nat)
    requires Placed(hash, str, str.Keys) && n < |hash|
    ensures Waiting(hash[n], str, Before(hash, n))
  {
    forall i | i in hash[n] ensures i in str && i !in Before(hash, n) { BeforeHas(hash, n, i); }
  }

  lemma AllBefore(hash: seq<seq<Id>>, str: map<Id, TString>)
    requires Placed(hash, str, str.Keys)
    ensures Before(hash, |hash|) == str.Keys
  {
    forall i ensures i in Before(hash, |hash|) <==> i in str { BeforeHas(hash, |hash|, i); }
  }

  // ---- what the operations do to the chains ------------------------------------------

  lemma NonEmpty(hash: seq<seq<Id>>, str: map<Id, TString>, ids: set<Id>)
    requires Placed(hash, str, ids)
    ensures |hash| > 0
  {
  }

  lemma Member(hash: seq<seq<Id>>, str: map<Id, TString>, b: nat, i: Id)
    requires Placed(hash, str, str.Keys) && b < |hash| && i in hash[b]
    ensures i in str && Bucket(str[i].hash, |hash|) == b
  {
  }

  lemma HomeOf(hash: seq<seq<Id>>, str: map<Id, TString>, i: Id)
    requires Placed(hash, str, str.Keys) && i in str
    ensures |hash| > 0 && i in hash[Bucket(str[i].hash, |hash|)]
    ensures Unique(str) ==> str[i].hash == Hash(str[i].content)
  {
  }

  lemma UniqueAdd(str: map<Id, TString>, i: Id, t: TString)
    requires Unique(str) && i !in str && t.hash == Hash(t.content)
    requires forall j :: j in str ==> str[j].content != t.content
    ensures Unique(str[i := t])
  {
  }

  lemma NothingPlaced(hash: seq<seq<Id>>, str: map<Id, TString>)
    requires |hash| > 0 && forall b :: 0 <= b < |hash| ==> hash[b] == []
    ensures Placed(hash, str, {})
  {
  }

  lemma Refixed(hash: seq<seq<Id>>, str: map<Id, TString>, i: Id)
    requires Placed(hash, str, str.Keys) && Unique(str) && i in str
    ensures var str' := str[i := str[i].(fixed := true)];
      Placed(hash, str', str'.Keys) && Unique(str') && str'.Keys == str.Keys
  {
  }

  lemma Recoloured(hash: seq<seq<Id>>, str: map<Id, TString>, i: Id, c: Colour)
    requires Placed(hash, str, str.Keys) && Unique(str) && i in str
    ensures var str' := str[i := str[i].(colour := c)];
      Placed(hash, str', str'.Keys) && Unique(str') && str'.Keys == str.Keys
  {
  }

  lemma Inserted(hash: seq<seq<Id>>, str: map<Id, TString>, ids: set<Id>, i: Id, t: TString)
    requires Placed(hash, str, ids) && i !in str && ids == str.Keys
    ensures var b := Bucket(t.hash, |hash|);
      Placed(hash[b := [i] + hash[b]], str[i := t], ids + {i})
  {
    SamePlaces(hash, str, str[i := t], ids);
    Moved(hash, str[i := t], ids, i);
  }

  lemma SamePlaces(hash: seq<seq<Id>>, str: map<Id, TString>, str': map<Id, TString>, ids: set<Id>)
    requires Placed(hash, str, ids) && ids <= str'.Keys && forall j :: j in ids ==> str'[j].hash == str[j].hash
    ensures Placed(hash, str', ids)
  {
    hide Bucket;
  }

  lemma Moved(hash: seq<seq<Id>>, str: map<Id, TString>, ids: set<Id>, i: Id)
    requires Placed(hash, str, ids) && i in str && i !in ids
    ensures var b := Bucket(str[i].hash, |hash|);
      Placed(hash[b := [i] + hash[b]], str, ids + {i})
  {
    hide Bucket;
  }

  lemma Painted(hash: seq<seq<Id>>, str: map<Id, TString>, colours: Id -> Colour)
    requires Placed(hash, str, str.Keys) && Unique(str)
    ensures var str' := map i | i in str :: str[i].(colour := colours(i));
      Placed(hash, str', str'.Keys) && Unique(str') && str'.Keys == str.Keys
  {
  }

  lemma ChainOf(hash: seq<seq<Id>>, str: map<Id, TString>, n: nat)
    requires Placed(hash, str, str.Keys) && n < |hash|
    ensures NoDup(hash[n]) && forall i :: i in hash[n] ==> i in str
  {
  }

  /** The part of a chain that has been swept: the freed strings are gone, the kept ones have the current white. */
  ghost predicate Swept(was: map<Id, TString>, str: map<Id, TString>, done: seq<Id>, kept: seq<Id>, freed: set<Id>,
                        white: bool) {
    && str.Keys == was.Keys - freed && freed <= was.Keys
    && (forall i :: i in done ==> i in was)
    && (forall i :: i in freed <==> i in done && was[i].colour == White(!white) && !was[i].fixed)
    && NoDup(kept) && (forall i :: i in kept <==> i in done && i !in freed)
    && (forall i :: i in str ==> str[i] == if i in done then was[i].(colour := White(white)) else was[i])
  }

  lemma NextInChain(chain: seq<Id>, k: nat)
    requires NoDup(chain) && k < |chain|
    ensures chain[..k + 1] == chain[..k] + [chain[k]] && chain[k] !in chain[..k]
  {
  }

  lemma NothingSwept(str: map<Id, TString>, white: bool)
    ensures Swept(str, str, [], [], {}, white)
  {
  }

  lemma SweptNext(was: map<Id, TString>, str: map<Id, TString>, done: seq<Id>, kept: seq<Id>, freed: set<Id>,
                  white: bool, i: Id)
    requires Swept(was, str, done, kept, freed, white) && i in was && i !in done
    ensures i in str && str[i] == was[i] && i !in freed && freed <= was.Keys
    ensures if was[i].colour == White(!white) && !was[i].fixed then
        Swept(was, str - {i}, done + [i], kept, freed + {i}, white)
            else Swept(was, str[i := str[i].(colour := White(white))], done + [i], kept + [i], freed, white)
  {
    forall j ensures j in done + [i] <==> j in done || j == i {}
  }

  lemma SweptMeans(was: map<Id, TString>, str: map<Id, TString>, done: seq<Id>, kept: seq<Id>, freed: set<Id>,
                   white: bool)
    requires Swept(was, str, done, kept, freed, white)
    ensures forall i :: i in was ==> (i in str <==> !(i in done && was[i].colour == White(!white) && !was[i].fixed))
    ensures forall i :: i in str ==> i in was && str[i] == if i in done then was[i].(colour := White(white)) else was[i]
  {
  }

  lemma FreedFewer(was: map<Id, TString>, freed: set<Id>, i: Id)
    requires freed <= was.Keys && i in was && i !in freed
    ensures |freed + {i}| == |freed| + 1 <= |was.Keys|
  {
    assert was.Keys == freed + {i} + (was.Keys - freed - {i});
  }

  lemma SweptPlaced(hash: seq<seq<Id>>, was: map<Id, TString>, str: map<Id, TString>, n: nat, kept: seq<Id>,
                    freed: set<Id>, white: bool)
    requires Placed(hash, was, was.Keys) && Unique(was) && n < |hash| && Swept(was, str, hash[n], kept, freed, white)
    ensures Placed(hash[n := kept], str, str.Keys) && Unique(str) && |str.Keys| == |was.Keys| - |freed|
  {
    hide Bucket, Unique, Swept;
    SweptUnique(was, str, hash[n], kept, freed, white);
    SweptFacts(was, str, hash[n], kept, freed, white);
    SweptChains(hash, was, str, n, kept, freed);
  }

  lemma SweptFacts(was: map<Id, TString>, str: map<Id, TString>, done: seq<Id>, kept: seq<Id>, freed: set<Id>,
                   white: bool)
    requires Swept(was, str, done, kept, freed, white)
    ensures NoDup(kept) && (forall i :: i in kept <==> i in done && i !in freed)
    ensures forall i :: i in str <==> i in was && i !in freed
    ensures forall i :: i in freed ==> i in done
    ensures forall i :: i in str ==> str[i].hash == was[i].hash
  {
  }

  lemma SweptChains(hash: seq<seq<Id>>, was: map<Id, TString>, str: map<Id, TString>, n: nat, kept: seq<Id>,
                    freed: set<Id>)
    requires Placed(hash, was, was.Keys) && n < |hash| && NoDup(kept)
    requires forall i :: i in kept <==> i in hash[n] && i !in freed
    requires forall i :: i in str <==> i in was && i !in freed
    requires forall i :: i in freed ==> i in hash[n]
    requires forall i :: i in str ==> str[i].hash == was[i].hash
    ensures Placed(hash[n := kept], str, str.Keys)
  {
    hide Bucket;
    var hash' := hash[n := kept];
    forall b | 0 <= b < |hash'| ensures NoDup(hash'[b]) {}
    forall b, i | 0 <= b < |hash'| && i in hash'[b] ensures i in str.Keys && Bucket(str[i].hash, |hash'|) == b {
      assert i in hash[b];
      assert i in was && Bucket(was[i].hash, |hash|) == b;
      assert b != n ==> i !in freed;
    }
    forall i | i in str.Keys ensures i in hash'[Bucket(str[i].hash, |hash'|)] {
      assert i in was && i in hash[Bucket(was[i].hash, |hash|)];
    }
  }

  lemma SweptUnique(was: map<Id, TString>, str: map<Id, TString>, done: seq<Id>, kept: seq<Id>, freed: set<Id>,
                    white: bool)
    requires Unique(was) && Swept(was, str, done, kept, freed, white)
    ensures Unique(str) && |str.Keys| == |was.Keys| - |freed|
  {
    assert was.Keys == str.Keys + freed && str.Keys !! freed;
    forall i | i in str ensures i in was && str[i].hash == was[i].hash && str[i].content == was[i].content {}
  }
}
