/** Internal keys, entries and what a read at a snapshot means. */
module Keys {

  import opened Wrappers

  // Only the order of user keys matters to the engine, and every countable
  // total order embeds in the reals, so a user key is a real number.
  type UserKey = real

  const MAX_SEQUENCE: nat := 0xFF_FFFF_FFFF_FFFF

  datatype Kind = Deletion | Value

  /** `sn` is the sequence number. */
  datatype InternalKey = InternalKey(user: UserKey, sn: nat, kind: Kind)

  datatype Entry = Entry(key: InternalKey, value: string)

  /** The 64-bit trailer of an internal key. */
  function Pack(sn: nat, kind: Kind): nat {
    sn * 256 + if kind.Value? then 1 else 0
  }

  /** Increasing user key, then decreasing sequence number, then decreasing type. */
  function Compare(a: InternalKey, b: InternalKey): int {
    if a.user < b.user then -1
    else if a.user > b.user then 1
    else if Pack(a.sn, a.kind) > Pack(b.sn, b.kind) then -1
    else if Pack(a.sn, a.kind) < Pack(b.sn, b.kind) then 1
    else 0
  }

  predicate Less(a: InternalKey, b: InternalKey) {
    Compare(a, b) < 0
  }

  /** Strict order on (user key, sequence) alone: stored entries never tie on it. */
  predicate Before(a: InternalKey, b: InternalKey) {
    a.user < b.user || (a.user == b.user && a.sn > b.sn)
  }

  /** The key a reader at sequence `s` seeks to. */
  function SeekKey(user: UserKey, s: nat): InternalKey {
    InternalKey(user, s, Value)
  }

  /** Position of the first entry at or after `k`, as a table or memtable seek finds it. */
  function SeekPos(es: seq<Entry>, k: InternalKey): (i: nat)
    ensures i <= |es|
    ensures forall j :: 0 <= j < i ==> Less(es[j].key, k)
    ensures i < |es| ==> !Less(es[i].key, k)
  {
    if es == [] || !Less(es[0].key, k) then 0 else 1 + SeekPos(es[1..], k)
  }

  ghost predicate Sorted(es: seq<Entry>) {
    forall i, j :: 0 <= i < j < |es| ==> Before(es[i].key, es[j].key)
  }

  ghost function Elems<T>(es: seq<T>): set<T> {
    set e | e in es
  }

  // ---------------------------------------------------------------- reads

  datatype Lookup = Absent | Deleted | Found(value: string)

  /** `e` is the entry of `S` a reader of `user` at sequence `s` must see. */
  ghost predicate Newest(S: set<Entry>, user: UserKey, s: nat, e: Entry) {
    && e in S && e.key.user == user && e.key.sn <= s
    && forall x :: x in S && x.key.user == user && x.key.sn <= s ==> x.key.sn <= e.key.sn
  }

  function Outcome(e: Entry): Lookup {
    if e.key.kind.Deletion? then Deleted else Found(e.value)
  }

  /** The result of scanning every entry of `S`. */
  ghost function Look(S: set<Entry>, user: UserKey, s: nat): Lookup {
    if exists e :: Newest(S, user, s, e) then
      var e :| Newest(S, user, s, e);
      Outcome(e)
    else Absent
  }

  /** What the caller of Get observes: deleted and absent are both "not found". */
  function Visible(l: Lookup): Option<string> {
    if l.Found? then Some(l.value) else None
  }

  ghost function Read(S: set<Entry>, user: UserKey, s: nat): Option<string> {
    Visible(Look(S, user, s))
  }

  /** No two stored entries share a user key and a sequence number. */
  ghost predicate Distinct(S: set<Entry>) {
    forall a, b :: a in S && b in S && a.key.user == b.key.user && a.key.sn == b.key.sn ==> a == b
  }

  lemma LookIs(S: set<Entry>, user: UserKey, s: nat, e: Entry)
    requires Distinct(S) && Newest(S, user, s, e)
    ensures Look(S, user, s) == Outcome(e)
  {
  }

  lemma LookAbsent(S: set<Entry>, user: UserKey, s: nat)
    requires forall x :: x in S && x.key.user == user ==> x.key.sn > s
    ensures Look(S, user, s) == Absent
  {
  }

  /** Some entry is the newest visible one as soon as one is visible. */
  lemma NewestExists(S: set<Entry>, user: UserKey, s: nat, x: Entry) returns (e: Entry)
    requires x in S && x.key.user == user && x.key.sn <= s
    ensures Newest(S, user, s, e)
    decreases s - x.key.sn
  {
    if y :| y in S && y.key.user == user && x.key.sn < y.key.sn <= s {
      e := NewestExists(S, user, s, y);
    } else {
      e := x;
    }
  }

}
