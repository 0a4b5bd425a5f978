/** The cache's hash table: buckets of chained slots, resized as it grows. */
module HandleTables {
  import opened Wrappers

  // Only the equality of keys matters to the cache.
  type Key = nat

  /** A cache entry as the table sees it: its hash, its key, and which entry it is. */
  datatype Slot = Slot(hash: nat, key: Key, id: nat)

  predicate Matches(s: Slot, key: Key, hash: nat) {
    s.hash == hash && s.key == key
  }

  function Pow2(k: nat): nat {
    if k == 0 then 1 else 2 * Pow2(k - 1)
  }

  ghost predicate IsPow2(n: nat) {
    exists k: nat :: n == Pow2(k)
  }

  /** The bucket of a hash; masking with the length less one, as the length is a power of two. */
  function Mask(n: nat): nat -> nat
    requires n > 0
  {
    (h: nat) => h % n
  }

  lemma MaskInRange(n: nat)
    requires n > 0
    ensures forall h: nat :: Mask(n)(h) < n
  {
  }

  /** A chain holds slots of its own bucket only, no two of the same hash and key. */
  ghost predicate ChainOk(chain: seq<Slot>, b: nat, at: nat -> nat) {
    && (forall s :: s in chain ==> at(s.hash) == b)
    && forall i, j :: 0 <= i < j < |chain| ==> !Matches(chain[i], chain[j].key, chain[j].hash)
  }

  /** The buckets hold exactly the slots of `contents`, each in the bucket of its hash. */
  ghost predicate Represents(list: seq<seq<Slot>>, at: nat -> nat, contents: set<Slot>) {
    && (forall h: nat :: at(h) < |list|)
    && (forall b :: 0 <= b < |list| ==> ChainOk(list[b], b, at))
    && forall s {:trigger at(s.hash)} :: s in contents <==> s in list[at(s.hash)]
  }

  /** No two slots have the same hash and key. */
  lemma OneMatch(list: seq<seq<Slot>>, at: nat -> nat, contents: set<Slot>, s: Slot, t: Slot)
    requires Represents(list, at, contents) && s in contents && t in contents && Matches(s, t.key, t.hash)
    ensures s == t
  {
    var chain := list[at(s.hash)];
    assert ChainOk(chain, at(s.hash), at) && s in chain && t in chain;
  }

  ghost predicate Absent(contents: set<Slot>, key: Key, hash: nat) {
    forall s :: s in contents ==> !Matches(s, key, hash)
  }

  lemma ChainSet(chain: seq<Slot>, b: nat, at: nat -> nat, i: nat, s: Slot)
    requires ChainOk(chain, b, at) && i < |chain| && Matches(s, chain[i].key, chain[i].hash)
    ensures ChainOk(chain[i := s], b, at)
    ensures forall t :: t in chain[i := s] <==> (t in chain && t != chain[i]) || t == s
  {
    var c := chain[i := s];
    forall t | t in chain && t != chain[i]
      ensures t in c
    {
      var j :| 0 <= j < |chain| && chain[j] == t;
      assert c[j] == t;
    }
    assert c[i] == s && chain[i] in chain;
    forall t | t in c && t != s
      ensures t in chain && t != chain[i]
    {
      var j :| 0 <= j < |c| && c[j] == t;
      assert chain[j] == t && j != i;
    }
  }

  lemma ChainDrop(chain: seq<Slot>, b: nat, at: nat -> nat, i: nat)
    requires ChainOk(chain, b, at) && i < |chain|
    ensures ChainOk(chain[..i] + chain[i + 1..], b, at)
    ensures forall t :: t in chain[..i] + chain[i + 1..] <==> t in chain && t != chain[i]
  {
    assert chain == chain[..i] + [chain[i]] + chain[i + 1..];
    assert forall j :: 0 <= j < |chain| && j != i ==> chain[j] != chain[i];
  }

  /** The chain of a slot's bucket, with the slot added. */
  function Extended(chain: seq<Slot>, s: Slot, atFront: bool): seq<Slot> {
    if atFront then [s] + chain else chain + [s]
  }

  lemma ChainExtend(chain: seq<Slot>, at: nat -> nat, s: Slot, atFront: bool)
    requires ChainOk(chain, at(s.hash), at) && forall t :: t in chain ==> !Matches(t, s.key, s.hash)
    ensures ChainOk(Extended(chain, s, atFront), at(s.hash), at)
    ensures forall t :: t in Extended(chain, s, atFront) <==> t in chain || t == s
  {
    var c := Extended(chain, s, atFront);
    assert forall i :: 0 <= i < |chain| ==> chain[i] in chain && c[if atFront then i + 1 else i] == chain[i];
    assert c[if atFront then 0 else |chain|] == s;
  }

  lemma OneMore(s: set<Slot>, x: Slot)
    requires x !in s
    ensures |s + {x}| == |s| + 1
  {
  }

  lemma OneLess(s: set<Slot>, x: Slot)
    requires x in s
    ensures |s - {x}| == |s| - 1
  {
  }

  /** Putting a matching slot in place of another. */
  lemma SlotReplaced(list: seq<seq<Slot>>, at: nat -> nat, contents: set<Slot>, i: nat, s: Slot)
    requires Represents(list, at, contents)
    requires i < |list[at(s.hash)]| && Matches(list[at(s.hash)][i], s.key, s.hash)
    ensures var b := at(s.hash);
      && Represents(list[b := list[b][i := s]], at, contents - {list[b][i]} + {s})
      && list[b][i] in contents && |contents - {list[b][i]} + {s}| == |contents|
  {
    var b := at(s.hash);
    var x := list[b][i];
    assert x in list[b];
    ChainSet(list[b], b, at, i, s);
    assert s in contents ==> s == x;
    OneLess(contents, x);
    OneMore(contents - {x}, s);
  }

  /** A new slot at the end of its chain, or at the front. */
  lemma SlotAdded(list: seq<seq<Slot>>, at: nat -> nat, contents: set<Slot>, s: Slot, atFront: bool)
    requires Represents(list, at, contents) && Absent(contents, s.key, s.hash)
    ensures var b := at(s.hash);
      && Represents(list[b := Extended(list[b], s, atFront)], at, contents + {s})
      && |contents + {s}| == |contents| + 1
  {
    var b := at(s.hash);
    forall t | t in list[b]
      ensures !Matches(t, s.key, s.hash)
    {
      assert t in contents;
    }
    ChainExtend(list[b], at, s, atFront);
    OneMore(contents, s);
  }

  lemma SlotDropped(list: seq<seq<Slot>>, at: nat -> nat, contents: set<Slot>, b: nat, i: nat)
    requires Represents(list, at, contents) && b < |list| && i < |list[b]|
    ensures list[b][i] in contents && |contents - {list[b][i]}| == |contents| - 1
    ensures Represents(list[b := list[b][..i] + list[b][i + 1..]], at, contents - {list[b][i]})
  {
    var x := list[b][i];
    assert x in list[b];
    ChainDrop(list[b], b, at, i);
    OneLess(contents, x);
  }

  method SetSlot(list: seq<seq<Slot>>, at: nat -> nat, ghost contents: set<Slot>, i: nat, s: Slot)
      returns (r: seq<seq<Slot>>)
    requires Represents(list, at, contents)
    requires i < |list[at(s.hash)]| && Matches(list[at(s.hash)][i], s.key, s.hash)
    ensures var x := Slot(s.hash, s.key, list[at(s.hash)][i].id);
      x in contents && Represents(r, at, contents - {x} + {s}) && |contents - {x} + {s}| == |contents|
    ensures |r| == |list|
  {
    SlotReplaced(list, at, contents, i, s);
    r := list[at(s.hash) := list[at(s.hash)][i := s]];
  }

  method AddSlot(list: seq<seq<Slot>>, at: nat -> nat, ghost contents: set<Slot>, s: Slot, atFront: bool)
      returns (r: seq<seq<Slot>>)
    requires Represents(list, at, contents) && Absent(contents, s.key, s.hash)
    ensures |r| == |list| && Represents(r, at, contents + {s}) && |contents + {s}| == |contents| + 1
  {
    SlotAdded(list, at, contents, s, atFront);
    r := list[at(s.hash) := Extended(list[at(s.hash)], s, atFront)];
  }

  /** The position of the slot that matches, or the end of its chain. */
  method FindPointer(list: seq<seq<Slot>>, at: nat -> nat, ghost contents: set<Slot>, key: Key, hash: nat)
      returns (i: nat)
    requires Represents(list, at, contents)
    ensures i <= |list[at(hash)]|
    ensures i < |list[at(hash)]| ==> Matches(list[at(hash)][i], key, hash) && list[at(hash)][i] in contents
    ensures i == |list[at(hash)]| ==> Absent(contents, key, hash)
  {
    var b := at(hash);
    i := 0;
    while i < |list[b]| && !Matches(list[b][i], key, hash)
      invariant i <= |list[b]| && forall j :: 0 <= j < i ==> !Matches(list[b][j], key, hash)
    {
      i := i + 1;
    }
    if i < |list[b]| {
      assert list[b][i] in list[b];
    }
  }

  /** The contents after `s` has taken the place of the entry `r`, if any. */
  ghost function After(contents: set<Slot>, r: Option<nat>, s: Slot): set<Slot> {
    contents - (if r.Some? then {Slot(s.hash, s.key, r.value)} else {}) + {s}
  }

  method Put(list: seq<seq<Slot>>, at: nat -> nat, ghost contents: set<Slot>, s: Slot)
      returns (list2: seq<seq<Slot>>, r: Option<nat>)
    requires Represents(list, at, contents)
    ensures r.Some? ==> Slot(s.hash, s.key, r.value) in contents && |After(contents, r, s)| == |contents|
    ensures r.None? ==> Absent(contents, s.key, s.hash) && |After(contents, r, s)| == |contents| + 1
    ensures |list2| == |list| && Represents(list2, at, After(contents, r, s))
  {
    var i := FindPointer(list, at, contents, s.key, s.hash);
    if i < |list[at(s.hash)]| {
      r := Some(list[at(s.hash)][i].id);
      list2 := SetSlot(list, at, contents, i, s);
    } else {
      r := None;
      list2 := AddSlot(list, at, contents, s, false);
      assert After(contents, r, s) == contents + {s};
    }
  }

  /** What the first `i` buckets hold. */
  ghost function Upto(contents: set<Slot>, at: nat -> nat, i: nat): set<Slot> {
    set s | s in contents && at(s.hash) < i
  }

  /** The slots of `moved` and the first `j` of the chain. */
  ghost function With(moved: set<Slot>, chain: seq<Slot>, j: nat): set<Slot>
    requires j <= |chain|
  {
    moved + set s | s in chain[..j]
  }

  /** Moves the slots of one old bucket to the front of their new chains. */
  method MoveChain(chain: seq<Slot>, newList: seq<seq<Slot>>, newAt: nat -> nat, ghost moved: set<Slot>)
      returns (r: seq<seq<Slot>>, count: nat)
    requires Represents(newList, newAt, moved)
    requires forall j :: 0 <= j < |chain| ==> Absent(With(moved, chain, j), chain[j].key, chain[j].hash)
    ensures |r| == |newList| && Represents(r, newAt, With(moved, chain, |chain|))
    ensures count == |With(moved, chain, |chain|)| - |moved|
  {
    r, count := newList, 0;
    assert With(moved, chain, 0) == moved;
    for j := 0 to |chain|
      invariant |r| == |newList| && Represents(r, newAt, With(moved, chain, j))
      invariant count == |With(moved, chain, j)| - |moved|
    {
      WithNext(moved, chain, j);
      r := AddSlot(r, newAt, With(moved, chain, j), chain[j], true);
      count := count + 1;
    }
  }

  lemma WithNext(moved: set<Slot>, chain: seq<Slot>, j: nat)
    requires j < |chain|
    ensures With(moved, chain, j + 1) == With(moved, chain, j) + {chain[j]}
  {
    assert chain[..j + 1] == chain[..j] + [chain[j]];
  }

  lemma NotMoved(list: seq<seq<Slot>>, at: nat -> nat, contents: set<Slot>, i: nat, j: nat)
    requires Represents(list, at, contents) && i < |list| && j < |list[i]|
    ensures Absent(With(Upto(contents, at, i), list[i], j), list[i][j].key, list[i][j].hash)
  {
    assert list[i][j] in list[i];
    forall s | s in With(Upto(contents, at, i), list[i], j)
      ensures !Matches(s, list[i][j].key, list[i][j].hash)
    {
      if s in list[i][..j] {
        var k :| 0 <= k < j && list[i][k] == s;
      }
    }
  }

  lemma ChainIsRest(list: seq<seq<Slot>>, at: nat -> nat, contents: set<Slot>, i: nat)
    requires Represents(list, at, contents) && i < |list|
    ensures With(Upto(contents, at, i), list[i], |list[i]|) == Upto(contents, at, i + 1)
  {
    assert list[i][..|list[i]|] == list[i];
  }

  class HandleTable {
    var elems: nat
    var list: seq<seq<Slot>>
    ghost var contents: set<Slot>

    ghost predicate Valid()
      reads this
    {
      && list != [] && Represents(list, Mask(|list|), contents)
      && elems == |contents| && elems <= |list| && IsPow2(|list|)
    }

    constructor ()
      ensures Valid() && contents == {}
    {
      elems := 0;
      list := [[], [], [], []];
      contents := {};
      new;
      MaskInRange(4);
      assert Pow2(2) == 4;
    }

    method Lookup(key: Key, hash: nat) returns (r: Option<nat>)
      requires Valid()
      ensures r.Some? ==> Slot(hash, key, r.value) in contents
      ensures r.None? ==> Absent(contents, key, hash)
    {
      var at := Mask(|list|);
      var i := FindPointer(list, at, contents, key, hash);
      r := if i < |list[at(hash)]| then Some(list[at(hash)][i].id) else None;
    }

    /** Adds a slot; the one it takes the place of, if any, is returned. */
    method Insert(s: Slot) returns (r: Option<nat>)
      requires Valid()
      modifies this
      ensures Valid()
      ensures r.Some? ==> Slot(s.hash, s.key, r.value) in old(contents)
      ensures r.None? ==> Absent(old(contents), s.key, s.hash)
      ensures contents == After(old(contents), r, s)
    {
      var list2;
      list2, r := Put(list, Mask(|list|), contents, s);
      Adopt(list2, After(contents, r, s), r.None?);
    }

    /** Takes over changed buckets; counts a slot just added, and resizes if there are now more slots than buckets. */
    method Adopt(list2: seq<seq<Slot>>, ghost contents2: set<Slot>, added: bool)
      requires list2 != [] && Represents(list2, Mask(|list2|), contents2) && IsPow2(|list2|)
      requires |contents2| == elems + (if added then 1 else 0) && elems <= |list2|
      modifies this
      ensures Valid() && contents == contents2
    {
      list, contents := list2, contents2;
      if added {
        elems := elems + 1;
        if elems > |list| {
          Resize();
        }
      }
    }

    /** Takes out the slot that matches, if there is one. */
    method Remove(key: Key, hash: nat) returns (r: Option<nat>)
      requires Valid()
      modifies this
      ensures Valid()
      ensures r.Some? ==> Slot(hash, key, r.value) in old(contents)
      ensures r.None? ==> Absent(old(contents), key, hash)
      ensures contents == old(contents) - if r.Some? then {Slot(hash, key, r.value)} else {}
    {
      var at := Mask(|list|);
      var i := FindPointer(list, at, contents, key, hash);
      var b := at(hash);
      if i < |list[b]| {
        r := Some(list[b][i].id);
        SlotDropped(list, at, contents, b, i);
        contents := contents - {list[b][i]};
        list := list[b := list[b][..i] + list[b][i + 1..]];
        elems := elems - 1;
      } else {
        r := None;
      }
    }

    /** Rehashes into at least as many buckets as there are elements, losing and repeating none. */
    method Resize()
      requires list != [] && Represents(list, Mask(|list|), contents) && elems == |contents|
      modifies `list
      ensures Valid()
    {
      var newLength := 4;
      assert Pow2(2) == 4;
      ghost var k: nat := 2;
      while newLength < elems
        invariant newLength == Pow2(k) && newLength >= 4
        decreases elems - newLength
      {
        newLength := newLength * 2;
        k := k + 1;
      }
      var newList, count := Rehash(list, Mask(|list|), contents, newLength);
      assert elems == count;
      list := newList;
    }
  }

  method Rehash(list: seq<seq<Slot>>, at: nat -> nat, ghost contents: set<Slot>, newLength: nat)
      returns (r: seq<seq<Slot>>, count: nat)
    requires Represents(list, at, contents) && newLength > 0
    ensures |r| == newLength && Represents(r, Mask(newLength), contents) && count == |contents|
  {
    var newAt := Mask(newLength);
    MaskInRange(newLength);
    r, count := seq(newLength, b => []), 0;
    for i := 0 to |list|
      invariant |r| == newLength && Represents(r, newAt, Upto(contents, at, i)) && count == |Upto(contents, at, i)|
    {
      forall j | 0 <= j < |list[i]|
        ensures Absent(With(Upto(contents, at, i), list[i], j), list[i][j].key, list[i][j].hash)
      {
        NotMoved(list, at, contents, i, j);
      }
      ChainIsRest(list, at, contents, i);
      var c;
      r, c := MoveChain(list[i], r, newAt, Upto(contents, at, i));
      count := count + c;
    }
    assert Upto(contents, at, |list|) == contents;
  }
}
