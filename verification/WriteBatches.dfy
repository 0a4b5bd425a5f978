/** Write batches, the log records they become, and their insertion into a memtable. */
module WriteBatches {
  import opened Keys
  import opened Lsm
  import opened SortedRuns

  datatype Op = Put(user: UserKey, value: string) | Delete(user: UserKey)

  /** A log record: its first sequence number and its operations. */
  datatype Batch = Batch(sn: nat, ops: seq<Op>)

  function OpEntry(op: Op, sn: nat): Entry {
    match op
    case Put(user, value) => Entry(InternalKey(user, sn, Value), value)
    case Delete(user) => Entry(InternalKey(user, sn, Deletion), "")
  }

  /** Operation `i` of the batch gets sequence number `sn + i`. */
  function BatchEntries(b: Batch): (r: seq<Entry>)
    ensures |r| == |b.ops|
    ensures forall i :: 0 <= i < |r| ==> r[i] == OpEntry(b.ops[i], b.sn + i)
  {
    seq(|b.ops|, i requires 0 <= i < |b.ops| => OpEntry(b.ops[i], b.sn + i))
  }

  ghost function BatchSet(b: Batch): set<Entry> {
    Elems(BatchEntries(b))
  }

  ghost function BatchesSet(bs: seq<Batch>): set<Entry> {
    set b, e | b in bs && e in BatchEntries(b) :: e
  }

  /** Later records have later sequence numbers. */
  ghost predicate Ascending(bs: seq<Batch>) {
    forall i, j :: 0 <= i < j < |bs| ==> bs[i].sn + |bs[i].ops| <= bs[j].sn
  }

  lemma BatchRange(b: Batch)
    ensures forall e :: e in BatchSet(b) ==> b.sn <= e.key.sn < b.sn + |b.ops|
    ensures Distinct(BatchSet(b))
  {
  }

  lemma BatchesSnoc(bs: seq<Batch>, b: Batch)
    ensures BatchesSet(bs + [b]) == BatchesSet(bs) + BatchSet(b)
  {
  }

  lemma BatchesConcat(a: seq<Batch>, b: seq<Batch>)
    ensures BatchesSet(a + b) == BatchesSet(a) + BatchesSet(b)
  {
  }

  /** All sequence numbers of `A` are larger than all of `S`. */
  ghost predicate AllLater(A: set<Entry>, S: set<Entry>) {
    forall a, x :: a in A && x in S ==> a.key.sn > x.key.sn
  }

  lemma InsertLater(r: seq<Entry>, e: Entry)
    requires Sorted(r) && forall x :: x in r ==> x.key.sn < e.key.sn
    ensures Sorted(Insert(r, e))
  {
    SortedDistinct(r);
    assert Distinct(Elems(r) + {e});
    InsertSorted(r, e);
  }

  /** WriteBatch::Iterate with the memtable inserter: entries go in one at a time. */
  method InsertInto(b: Batch, mem: seq<Entry>) returns (r: seq<Entry>)
    requires Sorted(mem) && AllLater(BatchSet(b), Elems(mem))
    ensures Sorted(r) && Elems(r) == Elems(mem) + BatchSet(b)
  {
    r := mem;
    ghost var es := BatchEntries(b);
    var sequence := b.sn;
    for i := 0 to |b.ops|
      invariant sequence == b.sn + i && Sorted(r)
      invariant Elems(r) == Elems(mem) + Elems(es[..i])
      invariant forall x :: x in r ==> x in mem || x.key.sn < sequence
    {
      var e := OpEntry(b.ops[i], sequence);
      assert e == es[i] && e in BatchSet(b);
      assert Elems(es[..i + 1]) == Elems(es[..i]) + {e} by { assert es[..i + 1] == es[..i] + [es[i]]; }
      InsertLater(r, e);
      assert forall x :: x in Insert(r, e) <==> x in Elems(Insert(r, e));
      r := Insert(r, e);
      sequence := sequence + 1;
    }
    assert es[..|b.ops|] == es;
  }
}
