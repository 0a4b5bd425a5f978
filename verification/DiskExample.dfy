/** A store in use whose disk can be written, torn and read back: what the theorems on bytes ask for can be met. */
module DiskExample {
  import opened Keys
  import opened Lsm
  import opened PbVarints
  import opened Edits
  import opened WriteBatches
  import opened Db
  import opened Runs
  import opened RunReads
  import opened DiskBytes
  import opened TornLog
  import opened Codecs
  import opened CutRun
  import BatchCoding
  import E = EditCoding
  import M = Manifest

  lemma SmallOp(op: Op, k: int)
    requires op.user == k as real && -1000 <= k <= 1000 && (op.Put? ==> |op.value| <= 1000)
    ensures BatchCoding.RecordOk(RecordOf(IntegerCodec(), op)) && OpCoded(IntegerCodec(), op)
  {
    IntegerCoded(k);
    if op.Put? {
      TextCoded(op.value);
    }
  }

  lemma SmallBatch(i: nat, sn: nat)
    requires i <= 1 && sn <= 1000
    ensures BatchFits(IntegerCodec(), Batch(sn, Ops(i)))
  {
    hide OpCoded, BatchCoding.RecordOk, RecordOf, IntegerCodec;
    SmallOp(Put(5.0, "old"), 5);
    SmallOp(Put(1.0, "b"), 1);
    SmallOp(Delete(5.0), 5);
  }

  lemma LogsAre()
    ensures S3().logs == map[3 := [Batch(1, Ops(0)), Batch(2, Ops(1))]]
    ensures S3().manifest == Initial().manifest
  {
    hide Old, Other, Marker;
    var one, two := Batch(1, Ops(0)), Batch(2, Ops(1));
    assert Initial().logs == map[3 := []] && [] + [one] == [one] && [one] + [two] == [one, two];
    assert S2().logs == S1().logs == map[3 := [one]] && S2().lastSequence == 1;
  }

  lemma {:induction false} NothingListed(l: nat)
    requires l <= NUM_LEVELS
    ensures Edits.Listed(EmptyVersion(), l) == []
    decreases NUM_LEVELS - l
  {
    if l < NUM_LEVELS {
      NothingListed(l + 1);
      assert EmptyVersion().levels[l] == [];
    }
  }

  lemma SmallEdit(name: seq<byte>, tables: nat -> seq<Entry>, e: M.Edit)
    requires |name| < TWO_32 && e.deleted == {} && e.added == [] && e.pointers == []
    requires e.counters.Some? ==> var c := e.counters.value;
               c.logNumber < TWO_64 && c.prevLogNumber < TWO_64 && c.nextFile < TWO_64 && c.lastSequence < TWO_64
    ensures EditStored(IntegerCodec(), tables, e) && E.Encodable(Coded(IntegerCodec(), name, e))
  {
  }

  lemma ManifestFits(name: seq<byte>, tables: nat -> seq<Entry>, i: nat)
    requires |name| < TWO_32 && i < |Initial().manifest|
    ensures var e := Initial().manifest[i];
            EditStored(IntegerCodec(), tables, e)
            && E.Encodable(Coded(IntegerCodec(), name, e))
  {
    hide EditStored, E.Encodable, Coded, IntegerCodec;
    NothingListed(0);
    var ps := ListedPointers(map[], NUM_LEVELS);
    ListedPointersAre(map[], NUM_LEVELS);
    SmallEdit(name, tables, Initial().manifest[i]);
  }

  lemma LogsFit()
    ensures forall n, b :: n in S3().logs && b in S3().logs[n] ==> BatchFits(IntegerCodec(), b)
  {
    hide S3, Ops, BatchFits, IntegerCodec;
    LogsAre();
    SmallBatch(0, 1);
    SmallBatch(1, 2);
  }

  lemma ThirdState()
    ensures Inv(S3()) && S3().manifest == Initial().manifest
  {
    hide S1, S2, S3, S4, S5, S6, S7, S8, S9, S10, S11, S12, S13, S14, Ops, A, CutRun.B, C, Upto5, Rest, Last, Initial,
         Inv, IsRun;
    LogsAre();
    RunIsRun();
    RunKeepsInv(States(), Steps(), 3);
  }

  /** The disk of a store in use, in the coding of integers. */
  lemma ExampleFits(name: seq<byte>, tables: nat -> seq<Entry>)
    requires |name| < TWO_32
    ensures Inv(S3()) && DiskFits(IntegerCodec(), name, tables, S3())
  {
    hide S3, BatchFits, EditStored, E.Encodable, Coded, IntegerCodec, Initial, Inv;
    ThirdState();
    LogsFit();
    forall i | 0 <= i < |S3().manifest|
      ensures EditStored(IntegerCodec(), tables, S3().manifest[i])
              && E.Encodable(Coded(IntegerCodec(), name, S3().manifest[i]))
    {
      ManifestFits(name, tables, i);
    }
  }
}
