/** The LRU cache: reference counts, the two lists, the hash table and the usage always agree. */
module LruCaches {
  import opened Wrappers
  import opened HandleTables

  /** A cache entry. Its references include the cache's own while it is in the cache. */
  datatype Entry = Entry(key: Key, hash: nat, charge: nat, inCache: bool, refs: nat)

  /**
   * The cache: live entries by number, the list of unused entries from oldest to newest, the list of
   * entries in use, and what the table holds. `held` records the handles clients have yet to
   * release, `freed` the calls of deleters.
   */
  datatype Cache = Cache(
    capacity: nat, usage: int, heap: map<nat, Entry>, lru: seq<nat>, inUse: seq<nat>, slots: set<Slot>,
    nextId: nat, held: multiset<nat>, freed: multiset<nat>)

  // ----------------------------------------------------------------- the lists

  function Without(ids: seq<nat>, e: nat): seq<nat> {
    if ids == [] then [] else Without(ids[..|ids| - 1], e) + if ids[|ids| - 1] == e then [] else [ids[|ids| - 1]]
  }

  /** The list with `e` appended, or as it is. */
  function Append(ids: seq<nat>, e: nat, listed: bool): seq<nat> {
    if listed then ids + [e] else ids
  }

  predicate NoRepeats(ids: seq<nat>) {
    forall i, j :: 0 <= i < j < |ids| ==> ids[i] != ids[j]
  }

  function Charge(heap: map<nat, Entry>, id: nat): nat {
    if id in heap then heap[id].charge else 0
  }

  function Charges(heap: map<nat, Entry>, ids: seq<nat>): nat {
    if ids == [] then 0 else Charges(heap, ids[..|ids| - 1]) + Charge(heap, ids[|ids| - 1])
  }

  lemma {:induction false} WithoutIs(ids: seq<nat>, e: nat)
    requires NoRepeats(ids)
    ensures NoRepeats(Without(ids, e))
    ensures forall id: nat :: id in Without(ids, e) <==> id in ids && id != e
    ensures e !in ids ==> Without(ids, e) == ids
  {
    if ids != [] {
      var rest, last := ids[..|ids| - 1], ids[|ids| - 1];
      WithoutIs(rest, e);
      assert ids == rest + [last];
      assert last !in rest;
    }
  }

  lemma {:induction false} WithoutFirst(ids: seq<nat>)
    requires NoRepeats(ids) && ids != []
    ensures Without(ids, ids[0]) == ids[1..]
  {
    var rest := ids[..|ids| - 1];
    if rest != [] {
      WithoutFirst(rest);
      assert ids[1..] == rest[1..] + [ids[|ids| - 1]];
    }
  }

  lemma ChargesSnoc(heap: map<nat, Entry>, ids: seq<nat>, e: nat)
    ensures Charges(heap, ids + [e]) == Charges(heap, ids) + Charge(heap, e)
  {
    assert (ids + [e])[..|ids|] == ids;
  }

  lemma {:induction false} WithoutCharges(heap: map<nat, Entry>, ids: seq<nat>, e: nat)
    requires NoRepeats(ids)
    ensures Charges(heap, Without(ids, e)) + (if e in ids then Charge(heap, e) else 0) == Charges(heap, ids)
  {
    if ids != [] {
      var rest, last := ids[..|ids| - 1], ids[|ids| - 1];
      WithoutCharges(heap, rest, e);
      assert ids == rest + [last];
      if last != e {
        assert e in ids <==> e in rest;
        ChargesSnoc(heap, Without(rest, e), last);
      } else {
        assert last !in rest;
        assert Without(ids, e) == Without(rest, e);
      }
    }
  }

  lemma {:induction false} ChargesSame(heap: map<nat, Entry>, heap2: map<nat, Entry>, ids: seq<nat>)
    requires forall id: nat :: id in ids ==> Charge(heap2, id) == Charge(heap, id)
    ensures Charges(heap2, ids) == Charges(heap, ids)
  {
    if ids != [] {
      ChargesSame(heap, heap2, ids[..|ids| - 1]);
    }
  }

  // ------------------------------------------------------------- what must agree

  ghost predicate Unused(heap: map<nat, Entry>, id: nat) {
    id in heap && heap[id].inCache && heap[id].refs == 1
  }

  ghost predicate Used(heap: map<nat, Entry>, id: nat) {
    id in heap && heap[id].inCache && heap[id].refs >= 2
  }

  /** The first list holds exactly the cached entries only the cache refers to, the second the other cached ones. */
  ghost predicate ListsOk(heap: map<nat, Entry>, lru: seq<nat>, inUse: seq<nat>) {
    && NoRepeats(lru) && NoRepeats(inUse)
    && (forall id: nat :: id in lru <==> Unused(heap, id)) && forall id: nat :: id in inUse <==> Used(heap, id)
  }

  /** References are the clients' and the cache's; entries without any are gone, each deleted once. */
  ghost predicate RefsOk(heap: map<nat, Entry>, held: multiset<nat>, freed: multiset<nat>, nextId: nat) {
    && (forall id: nat :: id in heap ==> id < nextId && heap[id].refs >= 1)
    && (forall id: nat :: id in heap ==> heap[id].refs == held[id] + if heap[id].inCache then 1 else 0)
    && (forall id: nat :: id !in heap ==> held[id] == 0)
    && forall id: nat :: freed[id] == if id < nextId && id !in heap then 1 else 0
  }

  function SlotOf(heap: map<nat, Entry>, id: nat): Slot
    requires id in heap
  {
    Slot(heap[id].hash, heap[id].key, id)
  }

  /** The table holds exactly the cached entries, but for `out`. */
  ghost predicate TableFits(heap: map<nat, Entry>, slots: set<Slot>, out: set<nat>) {
    forall s :: s in slots <==> s.id in heap && s.id !in out && heap[s.id].inCache && s == SlotOf(heap, s.id)
  }

  // -------------------------------------------------------------- the operations

  function WithRef(c: Cache, e: nat): Cache
    requires e in c.heap
  {
    var h := c.heap[e];
    var c2 := c.(heap := c.heap[e := h.(refs := h.refs + 1)]);
    if h.refs == 1 && h.inCache then c2.(lru := Without(c.lru, e), inUse := c.inUse + [e]) else c2
  }

  function WithoutRef(c: Cache, e: nat): Cache
    requires e in c.heap && c.heap[e].refs > 0
  {
    var h := c.heap[e].(refs := c.heap[e].refs - 1);
    if h.refs == 0 then c.(heap := c.heap - {e}, freed := c.freed + multiset{e})
    else
      var c2 := c.(heap := c.heap[e := h]);
      if h.inCache && h.refs == 1 then c2.(inUse := Without(c.inUse, e), lru := c.lru + [e]) else c2
  }

  /** The entry leaves its list and no longer counts as cached. */
  function Unlisted(c: Cache, e: nat): Cache
    requires e in c.heap
  {
    c.(lru := Without(c.lru, e), inUse := Without(c.inUse, e), usage := c.usage - c.heap[e].charge,
       heap := c.heap[e := c.heap[e].(inCache := false)])
  }

  /** After that the cache gives up its reference. */
  function FinishErased(c: Cache, e: nat): Cache
    requires e in c.heap && c.heap[e].refs > 0
  {
    WithoutRef(Unlisted(c, e), e)
  }

  function LookedUp(c: Cache, e: nat): Cache
    requires e in c.heap
  {
    WithRef(c, e).(held := c.held + multiset{e})
  }

  function Released(c: Cache, e: nat): Cache
    requires e in c.heap && c.heap[e].refs > 0
  {
    WithoutRef(c.(held := c.held - multiset{e}), e)
  }

  function WithEntry(c: Cache, key: Key, hash: nat, charge: nat, e: nat): Cache {
    c.(heap := c.heap[e := Entry(key, hash, charge, true, 2)], inUse := c.inUse + [e], usage := c.usage + charge)
  }

  /** A new entry with a reference for the returned handle and, if it is cached, one for the cache. */
  function Added(c: Cache, key: Key, hash: nat, charge: nat): Cache {
    var e := c.nextId;
    var c2 := c.(nextId := e + 1, held := c.held + multiset{e});
    if c.capacity > 0 then WithEntry(c2, key, hash, charge, e)
    else c2.(heap := c.heap[e := Entry(key, hash, charge, false, 1)])
  }

  // -------------------------------------------------- every operation keeps them

  /** Moving an entry to the end of a list, or off it. */
  lemma AppendIs(ids: seq<nat>, e: nat, listed: bool)
    requires NoRepeats(ids)
    ensures var r := Append(Without(ids, e), e, listed);
      NoRepeats(r) && forall id: nat :: id in r <==> if id == e then listed else id in ids
  {
    WithoutIs(ids, e);
    SnocNoRepeats(Without(ids, e), e);
  }

  lemma SnocNoRepeats(ids: seq<nat>, e: nat)
    requires NoRepeats(ids) && e !in ids
    ensures NoRepeats(ids + [e]) && forall id: nat :: id in ids + [e] <==> id in ids || id == e
  {
  }

  lemma AppendCharges(heap: map<nat, Entry>, heap2: map<nat, Entry>, ids: seq<nat>, e: nat, listed: bool)
    requires NoRepeats(ids) && SameBut(heap, heap2, e)
    ensures Charges(heap2, Append(Without(ids, e), e, listed))
         == Charges(heap, ids) - (if e in ids then Charge(heap, e) else 0) + if listed then Charge(heap2, e) else 0
  {
    WithoutIs(ids, e);
    WithoutCharges(heap, ids, e);
    ChargesSame(heap, heap2, Without(ids, e));
    ChargesSnoc(heap2, Without(ids, e), e);
  }

  ghost predicate UsageOk(c: Cache) {
    c.usage == Charges(c.heap, c.lru) + Charges(c.heap, c.inUse)
  }

  /** Only entry `e` of the heap may differ. */
  ghost predicate SameBut(heap: map<nat, Entry>, heap2: map<nat, Entry>, e: nat) {
    forall id: nat :: id != e ==> (id in heap <==> id in heap2) && (id in heap ==> heap2[id] == heap[id])
  }

  lemma SameButLists(heap: map<nat, Entry>, heap2: map<nat, Entry>, e: nat)
    requires SameBut(heap, heap2, e)
    ensures forall id: nat :: id != e ==>
              (Used(heap2, id) <==> Used(heap, id))
              && (Unused(heap2, id) <==> Unused(heap, id))
  {
  }

  /** Taking `e` off both lists, then putting it where it now belongs. */
  lemma Relisted(c: Cache, e: nat, heap2: map<nat, Entry>, lru2: seq<nat>, inUse2: seq<nat>)
    requires ListsOk(c.heap, c.lru, c.inUse) && SameBut(c.heap, heap2, e)
    requires lru2 == Append(Without(c.lru, e), e, Unused(heap2, e))
    requires inUse2 == Append(Without(c.inUse, e), e, Used(heap2, e))
    ensures ListsOk(heap2, lru2, inUse2)
  {
    AppendIs(c.lru, e, Unused(heap2, e));
    AppendIs(c.inUse, e, Used(heap2, e));
    SameButLists(c.heap, heap2, e);
  }

  lemma RelistedUsage(c: Cache, e: nat, heap2: map<nat, Entry>, lru2: seq<nat>, inUse2: seq<nat>)
    requires ListsOk(c.heap, c.lru, c.inUse) && SameBut(c.heap, heap2, e) && UsageOk(c)
    requires lru2 == Append(Without(c.lru, e), e, Unused(heap2, e))
    requires inUse2 == Append(Without(c.inUse, e), e, Used(heap2, e))
    ensures Charges(heap2, lru2) + Charges(heap2, inUse2) == c.usage - CachedCharge(c.heap, e) + CachedCharge(heap2, e)
  {
    AppendCharges(c.heap, heap2, c.lru, e, Unused(heap2, e));
    AppendCharges(c.heap, heap2, c.inUse, e, Used(heap2, e));
    assert e in c.lru <==> Unused(c.heap, e);
    assert e in c.inUse <==> Used(c.heap, e);
  }

  /** What an entry counts for in the usage. */
  ghost function CachedCharge(heap: map<nat, Entry>, e: nat): nat {
    if Unused(heap, e) || Used(heap, e) then Charge(heap, e) else 0
  }

  ghost predicate Moved(c: Cache, e: nat, d: Cache) {
    && d.lru == Append(Without(c.lru, e), e, Unused(d.heap, e))
    && d.inUse == Append(Without(c.inUse, e), e, Used(d.heap, e))
  }

  ghost predicate Stayed(c: Cache, e: nat, d: Cache) {
    && d.lru == c.lru && d.inUse == c.inUse && CachedCharge(d.heap, e) == CachedCharge(c.heap, e)
    && (Unused(d.heap, e) <==> Unused(c.heap, e)) && (Used(d.heap, e) <==> Used(c.heap, e))
  }

  /**
   * A change of one entry keeps lists and usage right if it moves to where it belongs, or still
   * belongs where it is.
   */
  lemma OneChanges(c: Cache, e: nat, d: Cache)
    requires ListsOk(c.heap, c.lru, c.inUse) && UsageOk(c) && SameBut(c.heap, d.heap, e)
    requires Moved(c, e, d) || Stayed(c, e, d)
    requires d.usage == c.usage - CachedCharge(c.heap, e) + CachedCharge(d.heap, e)
    ensures ListsOk(d.heap, d.lru, d.inUse) && UsageOk(d)
  {
    if Moved(c, e, d) {
      Relisted(c, e, d.heap, d.lru, d.inUse);
      RelistedUsage(c, e, d.heap, d.lru, d.inUse);
    } else {
      SameButLists(c.heap, d.heap, e);
      ChargesSame(c.heap, d.heap, c.lru);
      ChargesSame(c.heap, d.heap, c.inUse);
    }
  }

  lemma NotListed(c: Cache, e: nat)
    requires ListsOk(c.heap, c.lru, c.inUse)
    ensures !Unused(c.heap, e) ==> Without(c.lru, e) == c.lru
    ensures !Used(c.heap, e) ==> Without(c.inUse, e) == c.inUse
  {
    WithoutIs(c.lru, e);
    WithoutIs(c.inUse, e);
  }

  lemma LookedUpLists(c: Cache, e: nat)
    requires ListsOk(c.heap, c.lru, c.inUse) && UsageOk(c) && e in c.heap && c.heap[e].refs >= 1
    ensures var d := LookedUp(c, e); ListsOk(d.heap, d.lru, d.inUse) && UsageOk(d)
  {
    var d := LookedUp(c, e);
    if c.heap[e].inCache && c.heap[e].refs == 1 {
      NotListed(c, e);
      assert Moved(c, e, d);
    } else {
      assert Stayed(c, e, d);
    }
    OneChanges(c, e, d);
  }

  lemma ReleasedLists(c: Cache, e: nat)
    requires ListsOk(c.heap, c.lru, c.inUse) && UsageOk(c) && e in c.heap
    requires c.heap[e].refs >= if c.heap[e].inCache then 2 else 1
    ensures var d := Released(c, e); ListsOk(d.heap, d.lru, d.inUse) && UsageOk(d)
  {
    var d := Released(c, e);
    if c.heap[e].inCache && c.heap[e].refs == 2 {
      NotListed(c, e);
      assert Moved(c, e, d);
    } else {
      assert Stayed(c, e, d);
    }
    OneChanges(c, e, d);
  }

  lemma FinishEraseLists(c: Cache, e: nat)
    requires ListsOk(c.heap, c.lru, c.inUse) && UsageOk(c) && e in c.heap && c.heap[e].inCache && c.heap[e].refs >= 1
    ensures var d := FinishErased(c, e); ListsOk(d.heap, d.lru, d.inUse) && UsageOk(d)
  {
    OneChanges(c, e, FinishErased(c, e));
  }

  lemma AddedLists(c: Cache, key: Key, hash: nat, charge: nat)
    requires ListsOk(c.heap, c.lru, c.inUse) && UsageOk(c) && c.nextId !in c.heap
    ensures var d := Added(c, key, hash, charge); ListsOk(d.heap, d.lru, d.inUse) && UsageOk(d)
  {
    NotListed(c, c.nextId);
    OneChanges(c, c.nextId, Added(c, key, hash, charge));
  }

  lemma LookedUpRefs(c: Cache, e: nat)
    requires RefsOk(c.heap, c.held, c.freed, c.nextId) && e in c.heap
    ensures var d := LookedUp(c, e); RefsOk(d.heap, d.held, d.freed, d.nextId)
  {
  }

  lemma ReleasedRefs(c: Cache, e: nat)
    requires RefsOk(c.heap, c.held, c.freed, c.nextId) && c.held[e] > 0
    ensures var d := Released(c, e); RefsOk(d.heap, d.held, d.freed, d.nextId)
  {
  }

  lemma FinishEraseRefs(c: Cache, e: nat)
    requires RefsOk(c.heap, c.held, c.freed, c.nextId) && e in c.heap && c.heap[e].inCache
    ensures var d := FinishErased(c, e); RefsOk(d.heap, d.held, d.freed, d.nextId)
  {
  }

  lemma AddedRefs(c: Cache, key: Key, hash: nat, charge: nat)
    requires RefsOk(c.heap, c.held, c.freed, c.nextId)
    ensures var d := Added(c, key, hash, charge); RefsOk(d.heap, d.held, d.freed, d.nextId)
  {
    hide RefsOk;
    EnteredRefs(c, if c.capacity > 0 then Entry(key, hash, charge, true, 2) else Entry(key, hash, charge, false, 1));
  }

  lemma EnteredRefs(c: Cache, h: Entry)
    requires RefsOk(c.heap, c.held, c.freed, c.nextId) && h.refs == if h.inCache then 2 else 1
    ensures RefsOk(c.heap[c.nextId := h], c.held + multiset{c.nextId}, c.freed, c.nextId + 1)
  {
  }

  ghost predicate CacheOk(c: Cache, out: set<nat>) {
    && ListsOk(c.heap, c.lru, c.inUse) && UsageOk(c) && RefsOk(c.heap, c.held, c.freed, c.nextId)
    && TableFits(c.heap, c.slots, out)
  }

  lemma LookedUpKeeps(c: Cache, e: nat, out: set<nat>)
    requires CacheOk(c, out) && e in c.heap
    ensures CacheOk(LookedUp(c, e), out)
  {
    LookedUpLists(c, e);
    LookedUpRefs(c, e);
    TableKept(c, e, LookedUp(c, e), out);
  }

  /** A handle its holder gives back; the entry goes when nobody else refers to it. */
  lemma ReleasedKeeps(c: Cache, e: nat, out: set<nat>)
    requires CacheOk(c, out) && c.held[e] > 0
    ensures e in c.heap && c.heap[e].refs > 0 && CacheOk(Released(c, e), out)
  {
    HeldIsLive(c.heap, c.held, c.freed, c.nextId, e);
    ReleasedLists(c, e);
    ReleasedRefs(c, e);
    TableKept(c, e, Released(c, e), out);
  }

  lemma HeldIsLive(heap: map<nat, Entry>, held: multiset<nat>, freed: multiset<nat>, nextId: nat, e: nat)
    requires RefsOk(heap, held, freed, nextId) && held[e] > 0
    ensures e in heap && heap[e].refs >= if heap[e].inCache then 2 else 1
  {
  }

  ghost predicate SameSlot(heap: map<nat, Entry>, heap2: map<nat, Entry>, e: nat) {
    && (e in heap && heap[e].inCache <==> e in heap2 && heap2[e].inCache)
    && (e in heap && e in heap2 ==> SlotOf(heap, e) == SlotOf(heap2, e))
  }

  lemma TableKept(c: Cache, e: nat, d: Cache, out: set<nat>)
    requires TableFits(c.heap, c.slots, out) && SameBut(c.heap, d.heap, e) && SameSlot(c.heap, d.heap, e)
             && d.slots == c.slots
    ensures TableFits(d.heap, d.slots, out)
  {
  }

  /** An entry already out of the table leaves the cache. */
  lemma FinishEraseKeeps(c: Cache, e: nat)
    requires CacheOk(c, {e}) && e in c.heap && c.heap[e].inCache
    ensures CacheOk(FinishErased(c, e), {})
  {
    FinishEraseLists(c, e);
    FinishEraseRefs(c, e);
  }

  /** A new cached entry is not in the table yet. */
  lemma AddedKeeps(c: Cache, key: Key, hash: nat, charge: nat)
    requires CacheOk(c, {})
    ensures CacheOk(Added(c, key, hash, charge), if c.capacity > 0 then {c.nextId} else {})
  {
    AddedLists(c, key, hash, charge);
    AddedRefs(c, key, hash, charge);
  }

  /** The new entry goes into the table, and out goes the one it takes the place of. */
  lemma PutKeeps(c: Cache, e: nat, r: Option<nat>)
    requires CacheOk(c, {e}) && e in c.heap && c.heap[e].inCache
    requires r.Some? ==> Slot(c.heap[e].hash, c.heap[e].key, r.value) in c.slots
    ensures CacheOk(c.(slots := After(c.slots, r, SlotOf(c.heap, e))), if r.Some? then {r.value} else {})
  {
  }

  /** The entry replaced is the other cached one of the key, if there is one. */
  lemma OthersCached(c: Cache, e: nat, r: Option<nat>)
    requires CacheOk(c, {e}) && e in c.heap && c.heap[e].inCache
    requires r.Some? ==> Slot(c.heap[e].hash, c.heap[e].key, r.value) in c.slots
    requires r.None? ==> Absent(c.slots, c.heap[e].key, c.heap[e].hash)
    ensures r.Some? ==> r.value != e && Cached(c.heap, c.heap[e].key, c.heap[e].hash, r.value)
    ensures r.None? ==> forall id: nat :: Cached(c.heap, c.heap[e].key, c.heap[e].hash, id) ==> id == e
  {
    forall id: nat | r.None? && Cached(c.heap, c.heap[e].key, c.heap[e].hash, id)
      ensures id == e
    {
      assert Slot(c.heap[e].hash, c.heap[e].key, id) in c.slots
             ==> Matches(SlotOf(c.heap, id), c.heap[e].key, c.heap[e].hash);
    }
  }

  lemma RemoveKeeps(c: Cache, e: nat)
    requires CacheOk(c, {}) && e in c.heap && c.heap[e].inCache
    ensures SlotOf(c.heap, e) in c.slots && CacheOk(c.(slots := c.slots - {SlotOf(c.heap, e)}), {e})
  {
  }

  // ------------------------------------------------------------------ eviction

  /** The entry is taken out of the table and of the cache. */
  function Erased(c: Cache, e: nat): Cache
    requires e in c.heap && c.heap[e].refs > 0
  {
    FinishErased(c.(slots := c.slots - {SlotOf(c.heap, e)}), e)
  }

  /** From `a` to `b` the oldest `k` unused entries, and nothing else, have left the cache and been freed. */
  ghost predicate Evicts(a: Cache, b: Cache, k: nat) {
    && k <= |a.lru| && b.lru == a.lru[k..] && b.inUse == a.inUse
    && (forall id: nat :: id in b.heap <==> id in a.heap && id !in a.lru[..k])
    && (forall id: nat :: id in b.heap ==> b.heap[id] == a.heap[id])
    && b.usage == a.usage - Charges(a.heap, a.lru[..k])
    && b.held == a.held && b.capacity == a.capacity && b.nextId == a.nextId
  }

  /** What dropping the oldest unused entry does. */
  lemma OldestDropped(b: Cache)
    requires CacheOk(b, {}) && b.lru != []
    ensures Unused(b.heap, b.lru[0])
    ensures var e := b.lru[0]; var d := Erased(b, e);
      && CacheOk(d, {}) && d.lru == b.lru[1..] && d.inUse == b.inUse && d.heap == b.heap - {e}
      && d.usage == b.usage - b.heap[e].charge && d.held == b.held && d.capacity == b.capacity && d.nextId == b.nextId
  {
    var e := b.lru[0];
    assert e in b.lru;
    RemoveKeeps(b, e);
    FinishEraseKeeps(b.(slots := b.slots - {SlotOf(b.heap, e)}), e);
    WithoutFirst(b.lru);
    NotListed(b, e);
  }

  lemma EvictsNext(a: Cache, b: Cache, k: nat)
    requires Evicts(a, b, k) && CacheOk(b, {}) && b.lru != []
    ensures b.lru[0] in b.heap && b.heap[b.lru[0]].refs > 0 && Evicts(a, Erased(b, b.lru[0]), k + 1)
  {
    OldestDropped(b);
    assert a.lru[..k + 1] == a.lru[..k] + [b.lru[0]];
    ChargesSnoc(a.heap, a.lru[..k], b.lru[0]);
  }

  lemma EvictsNone(a: Cache)
    ensures Evicts(a, a, 0)
  {
    assert a.lru[0..] == a.lru && a.lru[..0] == [];
  }

  /** No eviction was one too many: before the last of the `k`, the usage was over the capacity. */
  ghost predicate EvictsNoMore(a: Cache, k: nat) {
    k <= |a.lru| && (k > 0 ==> a.usage - Charges(a.heap, a.lru[..k - 1]) > a.capacity)
  }

  lemma EvictsNeeded(a: Cache, b: Cache, k: nat)
    requires Evicts(a, b, k) && b.lru != [] && b.usage > b.capacity
    ensures EvictsNoMore(a, k + 1)
  {
  }

  /** The entry a new one replaces: the cached one of the same key, if there is one and the cache is on. */
  ghost predicate ReplacedOk(c: Cache, key: Key, hash: nat, charge: nat, replaced: Option<nat>) {
    if replaced.Some? then
      && c.capacity > 0 && Cached(c.heap, key, hash, replaced.value) && c.heap[replaced.value].refs > 0
      && replaced.value != c.nextId
    else c.capacity > 0 ==> forall id: nat :: !Cached(c.heap, key, hash, id)
  }

  lemma AddedCached(c: Cache, key: Key, hash: nat, charge: nat)
    requires c.nextId !in c.heap
    ensures forall id: nat :: Cached(c.heap, key, hash, id) ==> id != c.nextId
    ensures forall id: nat :: id != c.nextId ==>
              (Cached(Added(c, key, hash, charge).heap, key, hash, id) <==> Cached(c.heap, key, hash, id))
  {
  }

  /** The cache with a new entry, before evictions. */
  ghost function Inserted(c: Cache, key: Key, hash: nat, charge: nat, replaced: Option<nat>): Cache
    requires ReplacedOk(c, key, hash, charge, replaced)
  {
    var d := Added(c, key, hash, charge);
    if c.capacity == 0 then d else Replacing(d, c.nextId, replaced)
  }

  /** The slot of a new entry goes into the table, and the entry it replaces leaves the cache. */
  ghost function Replacing(d: Cache, e: nat, r: Option<nat>): Cache
    requires e in d.heap && (r.Some? ==> r.value in d.heap && d.heap[r.value].refs > 0)
  {
    var d2 := d.(slots := After(d.slots, r, SlotOf(d.heap, e)));
    if r.Some? then FinishErased(d2, r.value) else d2
  }

  lemma EmptyOk(capacity: nat)
    ensures CacheOk(Cache(capacity, 0, map[], [], [], {}, 0, multiset{}, multiset{}), {})
  {
  }

  // ----------------------------------------------------------- calls of the cache

  datatype Op =
    | Lookup(key: Key, hash: nat) | Insert(key: Key, hash: nat, charge: nat) | Release(id: nat)
    | Erase(key: Key, hash: nat) | Prune

  ghost predicate InsertStep(c: Cache, key: Key, hash: nat, charge: nat, replaced: Option<nat>, k: nat, d: Cache) {
    && ReplacedOk(c, key, hash, charge, replaced)
    && Evicts(Inserted(c, key, hash, charge, replaced), d, k)
    && EvictsNoMore(Inserted(c, key, hash, charge, replaced), k)
    && (d.usage <= d.capacity || d.lru == [])
  }

  /** What one call does to the cache. */
  ghost predicate Step(c: Cache, op: Op, d: Cache) {
    && CacheOk(c, {}) && CacheOk(d, {})
    && match op
       case Lookup(key, hash) =>
         if exists id: nat :: Cached(c.heap, key, hash, id)
         then exists id: nat :: Cached(c.heap, key, hash, id) && d == LookedUp(c, id)
         else d == c
       case Insert(key, hash, charge) => exists replaced, k :: InsertStep(c, key, hash, charge, replaced, k, d)
       case Release(id) => c.held[id] > 0 && id in c.heap && c.heap[id].refs > 0 && d == Released(c, id)
       case Erase(key, hash) =>
         if exists id: nat :: Cached(c.heap, key, hash, id)
         then exists id: nat :: Cached(c.heap, key, hash, id) && c.heap[id].refs > 0 && d == Erased(c, id)
         else d == c
       case Prune => Evicts(c, d, |c.lru|)
  }

  // -------------------------------------------------------------------- the code

  /** One shard of the cache. Every method runs under its mutex. */
  class LRUCache {
    const table: HandleTable
    var capacity: nat
    var usage: int
    var heap: map<nat, Entry>
    var lru: seq<nat>
    var inUse: seq<nat>
    var nextId: nat
    ghost var held: multiset<nat>
    ghost var freed: multiset<nat>

    ghost function View(): Cache
      reads this, table
    {
      Cache(capacity, usage, heap, lru, inUse, table.contents, nextId, held, freed)
    }

    ghost predicate Valid()
      reads this, table
    {
      table.Valid() && CacheOk(View(), {})
    }

    constructor (capacity: nat)
      ensures Valid() && fresh(table) && View() == Cache(capacity, 0, map[], [], [], {}, 0, multiset{}, multiset{})
    {
      this.capacity := capacity;
      table := new HandleTable();
      usage, heap, lru, inUse, nextId, held, freed := 0, map[], [], [], 0, multiset{}, multiset{};
      new;
      EmptyOk(capacity);
    }

    method Ref(e: nat)
      requires e in heap
      modifies `heap, `lru, `inUse
      ensures View() == WithRef(old(View()), e)
    {
      if heap[e].refs == 1 && heap[e].inCache {
        lru := Without(lru, e);
        inUse := inUse + [e];
      }
      heap := heap[e := heap[e].(refs := heap[e].refs + 1)];
    }

    method Unref(e: nat)
      requires e in heap && heap[e].refs > 0
      modifies `heap, `lru, `inUse, `freed
      ensures View() == WithoutRef(old(View()), e)
    {
      heap := heap[e := heap[e].(refs := heap[e].refs - 1)];
      if heap[e].refs == 0 {
        heap := heap - {e};
        freed := freed + multiset{e};
        assert heap == old(heap) - {e};
      } else if heap[e].inCache && heap[e].refs == 1 {
        inUse := Without(inUse, e);
        lru := lru + [e];
      }
    }

    method FinishErase(e: nat)
      requires e in heap && heap[e].refs > 0
      modifies `heap, `lru, `inUse, `freed, `usage
      ensures View() == FinishErased(old(View()), e)
    {
      lru := Without(lru, e);
      inUse := Without(inUse, e);
      heap := heap[e := heap[e].(inCache := false)];
      usage := usage - heap[e].charge;
      assert View() == Unlisted(old(View()), e);
      Unref(e);
    }

    /** Hands out a cached entry. */
    method Take(e: nat)
      requires Valid() && e in heap
      modifies `heap, `lru, `inUse, `held
      ensures Valid() && View() == LookedUp(old(View()), e)
    {
      LookedUpKeeps(View(), e, {});
      Ref(e);
      held := held + multiset{e};
    }

    /** Drops a cached entry already taken out of the table. */
    method Drop(e: nat)
      requires table.Valid() && CacheOk(View(), {e}) && e in heap && heap[e].inCache
      modifies `heap, `lru, `inUse, `freed, `usage
      ensures old(heap[e].refs > 0) && Valid() && View() == FinishErased(old(View()), e)
    {
      FinishEraseKeeps(View(), e);
      FinishErase(e);
    }

    /** A handle for the cached entry of the key, if there is one. */
    method Lookup(key: Key, hash: nat) returns (r: Option<nat>)
      requires Valid()
      modifies this
      ensures Valid()
      ensures r.Some? ==> Cached(old(heap), key, hash, r.value) && View() == LookedUp(old(View()), r.value)
      ensures r.None? ==> View() == old(View()) && forall id: nat :: !Cached(old(heap), key, hash, id)
      ensures Step(old(View()), Op.Lookup(key, hash), View())
    {
      r := table.Lookup(key, hash);
      TableIsCached(View(), key, hash, r);
      if r.Some? {
        Take(r.value);
      }
    }

    /** The handle must be one that was returned and not yet released. */
    method Release(e: nat)
      requires Valid() && held[e] > 0
      modifies this
      ensures old(e in heap && heap[e].refs > 0) && Valid() && View() == Released(old(View()), e)
      ensures Step(old(View()), Op.Release(e), View())
    {
      ReleasedKeeps(View(), e, {});
      held := held - multiset{e};
      Unref(e);
    }

    /** Takes the entry of the key out of the cache; it lives on while clients hold it. */
    method Erase(key: Key, hash: nat) returns (r: Option<nat>)
      requires Valid()
      modifies this, table
      ensures Valid()
      ensures r.Some? ==>
                old(Cached(heap, key, hash, r.value) && heap[r.value].refs > 0)
                && View() == Erased(old(View()), r.value)
      ensures r.None? ==> View() == old(View()) && forall id: nat :: !Cached(old(heap), key, hash, id)
      ensures Step(old(View()), Op.Erase(key, hash), View())
    {
      r := TakeOut(key, hash);
      if r.Some? {
        Drop(r.value);
      }
    }

    /** Takes the entry of the key out of the table. */
    method TakeOut(key: Key, hash: nat) returns (r: Option<nat>)
      requires Valid()
      modifies table
      ensures table.Valid() && CacheOk(View(), if r.Some? then {r.value} else {})
      ensures r.Some? ==>
                Cached(heap, key, hash, r.value)
                && table.contents == old(table.contents) - {SlotOf(heap, r.value)}
      ensures r.Some? ==> heap[r.value].refs > 0
      ensures r.None? ==> table.contents == old(table.contents) && forall id: nat :: !Cached(heap, key, hash, id)
    {
      ghost var a := View();
      r := table.Remove(key, hash);
      TableIsCached(a, key, hash, r);
      if r.Some? {
        RemoveKeeps(a, r.value);
      }
    }

    /** Puts the slot of a new cached entry into the table. */
    method PutIn(e: nat) returns (r: Option<nat>)
      requires table.Valid() && CacheOk(View(), {e}) && e in heap && heap[e].inCache
      modifies table
      ensures table.Valid() && CacheOk(View(), if r.Some? then {r.value} else {})
      ensures r.Some? ==> r.value != e && Cached(heap, heap[e].key, heap[e].hash, r.value) && heap[r.value].refs > 0
      ensures r.None? ==> forall id: nat :: Cached(heap, heap[e].key, heap[e].hash, id) ==> id == e
      ensures table.contents == After(old(table.contents), r, SlotOf(heap, e))
    {
      ghost var a := View();
      r := table.Insert(Slot(heap[e].hash, heap[e].key, e));
      PutKeeps(a, e, r);
      OthersCached(a, e, r);
    }

    /** Drops the oldest unused entry. */
    method DropOldest()
      requires Valid() && lru != []
      modifies this, table
      ensures Valid() && old(lru[0] in heap && heap[lru[0]].refs > 0) && View() == Erased(old(View()), old(lru[0]))
    {
      var e := lru[0];
      OldestDropped(View());
      CachedOnce(table, View(), heap[e].key, heap[e].hash, e);
      assert Cached(heap, heap[e].key, heap[e].hash, e);
      var r := TakeOut(heap[e].key, heap[e].hash);
      assert r == Some(e);
      Drop(e);
    }

    /** Drops oldest entries until the rest fits or all that is left is in use. */
    method EvictToCapacity() returns (ghost k: nat)
      requires Valid()
      modifies this, table
      ensures Valid() && (usage <= capacity || lru == [])
      ensures Evicts(old(View()), View(), k) && EvictsNoMore(old(View()), k)
    {
      k := 0;
      ghost var a := View();
      EvictsNone(a);
      while usage > capacity && lru != []
        invariant Valid() && table.Valid() && Evicts(a, View(), k) && EvictsNoMore(a, k)
        decreases |lru|
      {
        EvictsNext(a, View(), k);
        OldestDropped(View());
        EvictsNeeded(a, View(), k);
        DropOldest();
        k := k + 1;
      }
    }

    method Prune() returns (ghost k: nat)
      requires Valid()
      modifies this, table
      ensures Valid() && lru == [] && Evicts(old(View()), View(), k) && k == |old(lru)|
      ensures Step(old(View()), Op.Prune, View())
    {
      k := 0;
      ghost var a := View();
      EvictsNone(a);
      while lru != []
        invariant Valid() && Evicts(a, View(), k)
        decreases |lru|
      {
        EvictsNext(a, View(), k);
        OldestDropped(View());
        DropOldest();
        k := k + 1;
      }
    }

    /**
     * Adds an entry, replacing the one of the same key, and returns a handle for it. `replaced` is
     * the entry replaced, and `k` how many were evicted.
     */
    method Insert(key: Key, hash: nat, charge: nat) returns (e: nat, ghost replaced: Option<nat>, ghost k: nat)
      requires Valid()
      modifies this, table
      ensures Valid() && (usage <= capacity || lru == [])
      ensures e == old(nextId)
      ensures ReplacedOk(old(View()), key, hash, charge, replaced)
      ensures Evicts(Inserted(old(View()), key, hash, charge, replaced), View(), k)
      ensures EvictsNoMore(Inserted(old(View()), key, hash, charge, replaced), k)
      ensures Step(old(View()), Op.Insert(key, hash, charge), View())
    {
      e, replaced := Add(key, hash, charge);
      k := EvictToCapacity();
      assert InsertStep(old(View()), key, hash, charge, replaced, k, View());
    }

    /** Allocates the entry, listed and counted if it is to be cached. */
    method Enter(key: Key, hash: nat, charge: nat) returns (e: nat)
      modifies `heap, `inUse, `usage, `nextId, `held
      ensures View() == Added(old(View()), key, hash, charge) && e == old(nextId)
    {
      e := nextId;
      nextId := nextId + 1;
      held := held + multiset{e};
      if capacity > 0 {
        heap := heap[e := Entry(key, hash, charge, true, 2)];
        inUse := inUse + [e];
        usage := usage + charge;
      } else {
        heap := heap[e := Entry(key, hash, charge, false, 1)];
      }
    }

    method Add(key: Key, hash: nat, charge: nat) returns (e: nat, ghost replaced: Option<nat>)
      requires Valid()
      modifies this, table
      ensures Valid() && e == old(nextId)
      ensures ReplacedOk(old(View()), key, hash, charge, replaced)
      ensures View() == Inserted(old(View()), key, hash, charge, replaced)
    {
      ghost var a := View();
      AddedKeeps(a, key, hash, charge);
      AddedCached(a, key, hash, charge);
      e := Enter(key, hash, charge);
      replaced := None;
      if capacity > 0 {
        var r := PutIn(e);
        replaced := r;
        if r.Some? {
          Drop(r.value);
        }
      }
    }
  }

  ghost predicate Cached(heap: map<nat, Entry>, key: Key, hash: nat, id: nat) {
    id in heap && heap[id].inCache && heap[id].key == key && heap[id].hash == hash
  }

  /** A key has one cached entry at most. */
  lemma CachedOnce(table: HandleTable, c: Cache, key: Key, hash: nat, e: nat)
    requires table.Valid() && c.slots == table.contents && CacheOk(c, {}) && Cached(c.heap, key, hash, e)
    ensures forall id: nat :: Cached(c.heap, key, hash, id) ==> id == e
  {
    forall id: nat | Cached(c.heap, key, hash, id)
      ensures id == e
    {
      assert SlotOf(c.heap, id) in c.slots && SlotOf(c.heap, e) in c.slots;
      OneMatch(table.list, Mask(|table.list|), c.slots, SlotOf(c.heap, id), SlotOf(c.heap, e));
    }
  }

  lemma TableIsCached(c: Cache, key: Key, hash: nat, r: Option<nat>)
    requires CacheOk(c, {})
    requires r.Some? ==> Slot(hash, key, r.value) in c.slots
    requires r.None? ==> Absent(c.slots, key, hash)
    ensures r.Some? ==> Cached(c.heap, key, hash, r.value)
    ensures r.None? ==> forall id: nat :: !Cached(c.heap, key, hash, id)
  {
    forall id: nat | r.None?
      ensures !Cached(c.heap, key, hash, id)
    {
      assert Slot(hash, key, id) in c.slots ==> Matches(Slot(hash, key, id), key, hash);
    }
  }
}
