/** Runs of the cache: the unused entries are in the order of their last use, and the longest unused go first. */
module LruRuns {
  import opened Wrappers
  import opened HandleTables
  import opened LruCaches

  /** The states of a cache from its creation on, one after each call. */
  ghost predicate Run(run: seq<Cache>, ops: seq<Op>) {
    && |run| == |ops| + 1
    && run[0] == Cache(run[0].capacity, 0, map[], [], [], {}, 0, multiset{}, multiset{})
    && forall n :: 0 <= n < |ops| ==> Step(run[n], ops[n], run[n + 1])
  }

  /** The last call up to the `n`th that left the entry with no user though it had one before, or was new. */
  ghost function UnusedSince(run: seq<Cache>, n: nat, id: nat): (t: nat)
    requires n < |run|
    ensures t <= n
  {
    if n == 0 then 0
    else if !Unused(run[n - 1].heap, id) && Unused(run[n].heap, id) then n
    else UnusedSince(run, n - 1, id)
  }

  /** Earlier in the list means unused for longer. */
  ghost predicate InOrder(run: seq<Cache>, n: nat, ids: seq<nat>)
    requires n < |run|
  {
    forall i, j :: 0 <= i < j < |ids| ==> UnusedSince(run, n, ids[i]) < UnusedSince(run, n, ids[j])
  }

  // -------------------------------------------------- what a call does to the list

  lemma {:induction false} WithoutInOrder(run: seq<Cache>, n: nat, ids: seq<nat>, e: nat)
    requires n < |run| && InOrder(run, n, ids)
    ensures InOrder(run, n, Without(ids, e)) && forall id: nat :: id in Without(ids, e) ==> id in ids
  {
    if ids != [] {
      WithoutInOrder(run, n, ids[..|ids| - 1], e);
      var last := ids[|ids| - 1];
      forall id: nat | id in Without(ids[..|ids| - 1], e)
        ensures UnusedSince(run, n, id) < UnusedSince(run, n, last)
      {
        var i :| 0 <= i < |ids| - 1 && ids[i] == id;
      }
    }
  }

  /** One entry may leave the list and the oldest ones may be dropped, or a used one comes to the end. */
  ghost predicate ListStep(c: Cache, d: Cache) {
    || (exists e: nat, k: nat :: k <= |Without(c.lru, e)| && d.lru == Without(c.lru, e)[k..])
    || (exists e: nat :: !Unused(c.heap, e) && d.lru == c.lru + [e])
  }

  lemma SomeLeave(c: Cache, d: Cache, e: nat, k: nat)
    requires k <= |Without(c.lru, e)| && d.lru == Without(c.lru, e)[k..]
    ensures ListStep(c, d)
  {
  }

  lemma ListKept(c: Cache, d: Cache, k: nat)
    requires CacheOk(c, {}) && k <= |c.lru| && d.lru == c.lru[k..]
    ensures ListStep(c, d)
  {
    assert c.nextId !in c.lru;
    WithoutIs(c.lru, c.nextId);
    SomeLeave(c, d, c.nextId, k);
  }

  lemma LookedUpList(c: Cache, id: nat)
    requires CacheOk(c, {}) && id in c.heap
    ensures ListStep(c, LookedUp(c, id))
  {
    var d := LookedUp(c, id);
    if c.heap[id].refs == 1 && c.heap[id].inCache {
      SomeLeave(c, d, id, 0);
    } else {
      ListKept(c, d, 0);
    }
  }

  lemma ReleasedList(c: Cache, id: nat)
    requires CacheOk(c, {}) && id in c.heap && c.heap[id].refs > 0
    ensures ListStep(c, Released(c, id))
  {
    var d := Released(c, id);
    if c.heap[id].refs == 2 && c.heap[id].inCache {
      assert d.lru == c.lru + [id] && !Unused(c.heap, id);
    } else {
      ListKept(c, d, 0);
    }
  }

  lemma ErasedList(c: Cache, d: Cache, id: nat)
    requires id in c.heap && c.heap[id].refs > 0 && d == Erased(c, id)
    ensures ListStep(c, d)
  {
    SomeLeave(c, d, id, 0);
  }

  /** The list before the evictions: without the entry replaced. */
  lemma InsertedList(c: Cache, key: Key, hash: nat, charge: nat, replaced: Option<nat>)
    requires CacheOk(c, {}) && ReplacedOk(c, key, hash, charge, replaced)
    ensures Inserted(c, key, hash, charge, replaced).lru
         == if replaced.Some? then Without(c.lru, replaced.value) else c.lru
  {
  }

  lemma InsertList(c: Cache, key: Key, hash: nat, charge: nat, replaced: Option<nat>, k: nat, d: Cache)
    requires CacheOk(c, {}) && InsertStep(c, key, hash, charge, replaced, k, d)
    ensures ListStep(c, d)
  {
    InsertedList(c, key, hash, charge, replaced);
    if replaced.Some? {
      SomeLeave(c, d, replaced.value, k);
    } else {
      ListKept(c, d, k);
    }
  }

  lemma StepList(c: Cache, op: Op, d: Cache)
    requires Step(c, op, d)
    ensures ListStep(c, d)
  {
    hide CacheOk, ListStep, LookedUp, Released, Erased, Evicts, InsertStep;
    match op
    case Lookup(key, hash) =>
      if id: nat :| Cached(c.heap, key, hash, id) && d == LookedUp(c, id) {
        LookedUpList(c, id);
      } else {
        ListKept(c, d, 0);
      }
    case Insert(key, hash, charge) =>
      var replaced, k :| InsertStep(c, key, hash, charge, replaced, k, d);
      InsertList(c, key, hash, charge, replaced, k, d);
    case Release(id) => ReleasedList(c, id);
    case Erase(key, hash) =>
      if id: nat :| Cached(c.heap, key, hash, id) && c.heap[id].refs > 0 && d == Erased(c, id) {
        ErasedList(c, d, id);
      } else {
        ListKept(c, d, 0);
      }
    case Prune =>
      PrunedList(c, d);
  }

  lemma PrunedList(c: Cache, d: Cache)
    requires CacheOk(c, {}) && Evicts(c, d, |c.lru|)
    ensures ListStep(c, d)
  {
    ListKept(c, d, |c.lru|);
  }

  // ------------------------------------------------------------------- the order

  /** Times of entries unused before and after do not change. */
  lemma SameTimes(run: seq<Cache>, n: nat, ids: seq<nat>)
    requires n + 1 < |run| && InOrder(run, n, ids) && forall id :: id in ids ==> Unused(run[n].heap, id)
    ensures InOrder(run, n + 1, ids) && forall id :: id in ids ==> UnusedSince(run, n + 1, id) <= n
  {
  }

  lemma StepInOrder(run: seq<Cache>, n: nat)
    requires n + 1 < |run| && CacheOk(run[n], {}) && CacheOk(run[n + 1], {}) && ListStep(run[n], run[n + 1])
    requires InOrder(run, n, run[n].lru)
    ensures InOrder(run, n + 1, run[n + 1].lru)
  {
    var c, d := run[n], run[n + 1];
    if e: nat, k: nat :| k <= |Without(c.lru, e)| && d.lru == Without(c.lru, e)[k..] {
      WithoutInOrder(run, n, c.lru, e);
      assert InOrder(run, n, d.lru);
      SameTimes(run, n, d.lru);
    } else {
      var e: nat :| !Unused(c.heap, e) && d.lru == c.lru + [e];
      SameTimes(run, n, c.lru);
      assert e in d.lru;
    }
  }

  lemma StepOk(c: Cache, op: Op, d: Cache)
    requires Step(c, op, d)
    ensures CacheOk(c, {}) && CacheOk(d, {})
  {
  }

  /** In every state of every run the unused entries are listed from the longest unused on. */
  lemma {:induction false} RunInOrder(run: seq<Cache>, ops: seq<Op>, n: nat)
    requires Run(run, ops) && n < |run|
    ensures InOrder(run, n, run[n].lru)
  {
    hide CacheOk, Step, ListStep, UnusedSince;
    if n > 0 {
      RunInOrder(run, ops, n - 1);
      StepOk(run[n - 1], ops[n - 1], run[n]);
      StepList(run[n - 1], ops[n - 1], run[n]);
      StepInOrder(run, n - 1);
    }
  }

  // ---------------------------------------------------------------- the eviction

  lemma InsertedHeap(c: Cache, key: Key, hash: nat, charge: nat, replaced: Option<nat>, id: nat)
    requires ReplacedOk(c, key, hash, charge, replaced) && id in c.heap && replaced != Some(id)
    ensures id in Inserted(c, key, hash, charge, replaced).heap
  {
  }

  lemma EvictedParts(a: Cache, d: Cache, k: nat, gone: nat)
    requires Evicts(a, d, k) && gone in a.heap && gone !in d.heap
    ensures k <= |a.lru| && gone in a.lru[..k] && d.lru == a.lru[k..]
  {
  }

  /** The entry that went is one of those dropped from the front, the one that stayed is behind them. */
  lemma GoneBeforeKept(run: seq<Cache>, n: nat, a: Cache, d: Cache, k: nat, gone: nat, kept: nat)
    requires n < |run| && InOrder(run, n, a.lru) && Evicts(a, d, k)
    requires gone in a.heap && gone !in d.heap && kept in d.lru
    ensures UnusedSince(run, n, gone) < UnusedSince(run, n, kept)
  {
    hide Evicts, UnusedSince;
    EvictedParts(a, d, k, gone);
    var i :| 0 <= i < k && a.lru[..k][i] == gone;
    var j :| 0 <= j < |d.lru| && a.lru[k..][j] == kept;
    assert a.lru[i] == gone && a.lru[k + j] == kept;
  }

  /**
   * What an insertion evicts had been unused for longer than every unused entry it keeps. The entry
   * of the same key is replaced, whatever its age.
   */
  lemma LongestUnusedGoFirst(run: seq<Cache>, ops: seq<Op>, n: nat, gone: nat, kept: nat)
    requires Run(run, ops) && n < |ops| && ops[n].Insert?
    requires Unused(run[n].heap, gone) && gone !in run[n + 1].heap
    requires !Cached(run[n].heap, ops[n].key, ops[n].hash, gone) && Unused(run[n + 1].heap, kept)
    ensures UnusedSince(run, n, gone) < UnusedSince(run, n, kept)
  {
    hide InOrder, Evicts, UnusedSince, Inserted;
    var c, d, op := run[n], run[n + 1], ops[n];
    assert Step(c, op, d);
    RunInOrder(run, ops, n);
    var replaced, k :| InsertStep(c, op.key, op.hash, op.charge, replaced, k, d);
    InsertedList(c, op.key, op.hash, op.charge, replaced);
    InsertedHeap(c, op.key, op.hash, op.charge, replaced, gone);
    if replaced.Some? {
      WithoutInOrder(run, n, c.lru, replaced.value);
    }
    GoneBeforeKept(run, n, Inserted(c, op.key, op.hash, op.charge, replaced), d, k, gone, kept);
  }

  // ------------------------------------------------------- the cache as a map

  /** Every entry cached after was cached before, with its key, but for the new one. */
  ghost predicate CachedBefore(c: Cache, d: Cache, added: Option<nat>) {
    forall id: nat :: id in d.heap && d.heap[id].inCache && Some(id) != added ==>
      && id in c.heap && c.heap[id].inCache && c.heap[id].key == d.heap[id].key && c.heap[id].hash == d.heap[id].hash
  }

  ghost predicate NoneCached(c: Cache, key: Key, hash: nat, but: Option<nat>) {
    forall id: nat :: Cached(c.heap, key, hash, id) ==> Some(id) == but
  }

  ghost predicate CachedTogether(c: Cache, a: nat, b: nat) {
    a in c.heap && c.heap[a].inCache && Cached(c.heap, c.heap[a].key, c.heap[a].hash, b)
  }

  lemma OnlyOne(c: Cache, key: Key, hash: nat, e: nat)
    requires OneEach(c) && Cached(c.heap, key, hash, e)
    ensures NoneCached(c, key, hash, Some(e))
  {
    forall id: nat | Cached(c.heap, key, hash, id)
      ensures id == e
    {
      assert CachedTogether(c, e, id);
    }
  }

  /** A key has one cached entry at most, and a cache without capacity has none. */
  ghost predicate OneEach(c: Cache) {
    && (forall a: nat, b: nat :: CachedTogether(c, a, b) ==> a == b)
    && (c.capacity == 0 ==> forall a: nat :: a in c.heap ==> !c.heap[a].inCache)
  }

  lemma FinishErasedHeap(d: Cache, e: nat)
    requires e in d.heap && d.heap[e].refs > 0
    ensures var r := FinishErased(d, e);
            && r.capacity == d.capacity && (e in r.heap ==> !r.heap[e].inCache)
            && forall id: nat :: id in r.heap && id != e ==> id in d.heap && r.heap[id] == d.heap[id]
  {
  }

  lemma InsertedCached(c: Cache, key: Key, hash: nat, charge: nat, replaced: Option<nat>)
    requires OneEach(c) && ReplacedOk(c, key, hash, charge, replaced) && c.nextId !in c.heap
    ensures var a := Inserted(c, key, hash, charge, replaced);
            && a.capacity == c.capacity && CachedBefore(c, a, Some(c.nextId))
            && NoneCached(a, key, hash, Some(c.nextId))
            && (c.capacity == 0 ==> !Cached(a.heap, key, hash, c.nextId))
            && (c.nextId in a.heap ==> a.heap[c.nextId].key == key && a.heap[c.nextId].hash == hash)
  {
    hide FinishErased;
    if c.capacity > 0 && replaced.Some? {
      var d := Added(c, key, hash, charge);
      FinishErasedHeap(d.(slots := After(d.slots, replaced, SlotOf(d.heap, c.nextId))), replaced.value);
      OnlyOne(c, key, hash, replaced.value);
    } else if c.capacity > 0 {
      NothingToErase(c, key, hash);
    } else {
      assert NoneCached(c, key, hash, None);
    }
  }

  /** Evictions only take entries away. */
  ghost predicate HeapWithin(a: Cache, d: Cache) {
    d.capacity == a.capacity && forall id: nat :: id in d.heap ==> id in a.heap && d.heap[id] == a.heap[id]
  }

  lemma EvictsWithin(a: Cache, d: Cache, k: nat)
    requires Evicts(a, d, k)
    ensures HeapWithin(a, d)
  {
  }

  lemma WithinCached(c: Cache, a: Cache, d: Cache, added: Option<nat>, key: Key, hash: nat)
    requires CachedBefore(c, a, added) && HeapWithin(a, d)
    ensures CachedBefore(c, d, added)
    ensures NoneCached(a, key, hash, added) ==> NoneCached(d, key, hash, added)
    ensures forall id: nat :: Cached(d.heap, key, hash, id) ==> Cached(a.heap, key, hash, id)
  {
  }

  lemma InsertCached(c: Cache, key: Key, hash: nat, charge: nat, replaced: Option<nat>, k: nat, d: Cache)
    requires CacheOk(c, {}) && OneEach(c) && InsertStep(c, key, hash, charge, replaced, k, d)
    ensures d.capacity == c.capacity && CachedBefore(c, d, Some(c.nextId))
    ensures NoneCached(d, key, hash, Some(c.nextId))
    ensures c.capacity == 0 ==> !Cached(d.heap, key, hash, c.nextId)
    ensures c.nextId in d.heap ==> d.heap[c.nextId].key == key && d.heap[c.nextId].hash == hash
  {
    hide CacheOk, OneEach, Evicts, Inserted, CachedBefore, NoneCached;
    var a := Inserted(c, key, hash, charge, replaced);
    NewNotUnused(c);
    InsertedCached(c, key, hash, charge, replaced);
    EvictsWithin(a, d, k);
    WithinCached(c, a, d, Some(c.nextId), key, hash);
  }

  lemma NewNotUnused(c: Cache)
    requires CacheOk(c, {})
    ensures c.nextId !in c.heap && c.nextId !in c.lru
  {
  }

  lemma SameCached(c: Cache)
    ensures CachedBefore(c, c, None)
    ensures forall id :: id in c.heap ==> LookedUp(c, id).capacity == c.capacity
    ensures forall id :: id in c.heap ==> CachedBefore(c, LookedUp(c, id), None)
  {
  }

  lemma ReleasedCached(c: Cache, id: nat)
    requires id in c.heap && c.heap[id].refs > 0
    ensures CachedBefore(c, Released(c, id), None) && Released(c, id).capacity == c.capacity
  {
  }

  lemma ErasedCached(c: Cache, id: nat, key: Key, hash: nat)
    requires OneEach(c) && Cached(c.heap, key, hash, id) && c.heap[id].refs > 0
    ensures CachedBefore(c, Erased(c, id), None) && NoneCached(Erased(c, id), key, hash, None)
    ensures Erased(c, id).capacity == c.capacity
  {
    hide FinishErased;
    OnlyOne(c, key, hash, id);
    FinishErasedHeap(c.(slots := c.slots - {SlotOf(c.heap, id)}), id);
  }

  /** What a call does to what is cached. */
  ghost predicate MapStep(c: Cache, op: Op, d: Cache) {
    && d.capacity == c.capacity
    && match op
       case Insert(key, hash, _) =>
         && CachedBefore(c, d, Some(c.nextId)) && NoneCached(d, key, hash, Some(c.nextId))
         && (c.capacity == 0 ==> !Cached(d.heap, key, hash, c.nextId))
         && (c.nextId in d.heap ==> d.heap[c.nextId].key == key && d.heap[c.nextId].hash == hash)
       case Erase(key, hash) => CachedBefore(c, d, None) && NoneCached(d, key, hash, None)
       case _ => CachedBefore(c, d, None)
  }

  lemma StepMaps(c: Cache, op: Op, d: Cache)
    requires Step(c, op, d) && OneEach(c)
    ensures MapStep(c, op, d)
  {
    hide CacheOk, OneEach, InsertStep, LookedUp, Released, Erased, Evicts, CachedBefore, NoneCached;
    SameCached(c);
    match op
    case Insert(key, hash, charge) =>
      var replaced, k :| InsertStep(c, key, hash, charge, replaced, k, d);
      InsertCached(c, key, hash, charge, replaced, k, d);
    case Erase(key, hash) =>
      if id: nat :| Cached(c.heap, key, hash, id) && c.heap[id].refs > 0 && d == Erased(c, id) {
        ErasedCached(c, id, key, hash);
      } else {
        NothingToErase(c, key, hash);
      }
    case Release(id) => ReleasedCached(c, id);
    case Prune =>
      EvictsWithin(c, d, |c.lru|);
      WithinCached(c, c, d, None, 0, 0);
    case Lookup(_, _) =>
  }

  lemma NothingToErase(c: Cache, key: Key, hash: nat)
    requires forall id: nat :: !Cached(c.heap, key, hash, id)
    ensures NoneCached(c, key, hash, None)
  {
  }

  lemma StepOneEach(c: Cache, op: Op, d: Cache)
    requires OneEach(c) && MapStep(c, op, d)
    ensures OneEach(d)
  {
    forall a: nat, b: nat | CachedTogether(d, a, b)
      ensures a == b
    {
      assert CachedTogether(c, a, b) || (op.Insert? && (a == c.nextId || b == c.nextId));
    }
  }

  lemma {:induction false} RunOneEach(run: seq<Cache>, ops: seq<Op>, n: nat)
    requires Run(run, ops) && n < |run|
    ensures OneEach(run[n])
  {
    hide Step, MapStep;
    if n > 0 {
      RunOneEach(run, ops, n - 1);
      StepMaps(run[n - 1], ops[n - 1], run[n]);
      StepOneEach(run[n - 1], ops[n - 1], run[n]);
    }
  }

  /** The call inserts or erases the key. */
  ghost predicate Touches(op: Op, key: Key, hash: nat) {
    (op.Insert? || op.Erase?) && op.key == key && op.hash == hash
  }

  /** Call `m` inserted the entry under the key, and no call since has inserted or erased the key. */
  ghost predicate LatestInsert(run: seq<Cache>, ops: seq<Op>, m: nat, n: nat, key: Key, hash: nat, id: nat)
    requires |run| == |ops| + 1 && n <= |ops|
  {
    && m < n && ops[m].Insert? && Touches(ops[m], key, hash) && run[m].nextId == id
    && forall j :: m < j < n ==> !Touches(ops[j], key, hash)
  }

  /** In every run, the entry a look-up finds is the one inserted last under the key, and it was not erased since. */
  lemma {:induction false} CachedIsLatest(run: seq<Cache>, ops: seq<Op>, n: nat, key: Key, hash: nat, id: nat)
    returns (m: nat)
    requires Run(run, ops) && n < |run| && Cached(run[n].heap, key, hash, id)
    ensures LatestInsert(run, ops, m, n, key, hash, id)
  {
    hide Step, OneEach;
    m := 0;
    if n > 0 {
      RunOneEach(run, ops, n - 1);
      StepMaps(run[n - 1], ops[n - 1], run[n]);
      if ops[n - 1].Insert? && id == run[n - 1].nextId {
        m := n - 1;
      } else {
        m := CachedIsLatest(run, ops, n - 1, key, hash, id);
      }
    }
  }

  /** With room in the cache, an entry just inserted is found, for as long as its handle is held. */
  lemma InsertedIsCached(c: Cache, key: Key, hash: nat, charge: nat, d: Cache)
    requires Step(c, Op.Insert(key, hash, charge), d) && c.capacity > 0
    ensures Cached(d.heap, key, hash, c.nextId) && d.heap[c.nextId].charge == charge
    ensures d.held[c.nextId] == c.held[c.nextId] + 1
  {
    hide CacheOk;
    var replaced, k :| InsertStep(c, key, hash, charge, replaced, k, d);
    NewNotUnused(c);
    InsertedNew(c, key, hash, charge, replaced, k, d);
  }

  lemma InsertedNew(c: Cache, key: Key, hash: nat, charge: nat, replaced: Option<nat>, k: nat, d: Cache)
    requires InsertStep(c, key, hash, charge, replaced, k, d) && c.capacity > 0 && c.nextId !in c.lru
    requires c.nextId !in c.heap
    ensures Cached(d.heap, key, hash, c.nextId) && d.heap[c.nextId].charge == charge
    ensures d.held[c.nextId] == c.held[c.nextId] + 1
  {
    var a := Inserted(c, key, hash, charge, replaced);
    if replaced.Some? {
      NotAdded(c.lru, replaced.value, c.nextId);
    }
    assert c.nextId !in a.lru;
    assert Cached(a.heap, key, hash, c.nextId) && a.heap[c.nextId].charge == charge;
  }

  lemma {:induction false} NotAdded(ids: seq<nat>, e: nat, id: nat)
    requires id !in ids
    ensures id !in Without(ids, e)
  {
    if ids != [] {
      NotAdded(ids[..|ids| - 1], e, id);
    }
  }
}
