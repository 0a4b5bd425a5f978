/** The manifest and the logs as bytes on disk, and what reading them back gives. */
module DiskBytes {
  import opened Wrappers
  import opened Keys
  import opened Lsm
  import opened PbVarints
  import opened WriteBatches
  import B = BatchCoding
  import E = EditCoding
  import F = LogFormat
  import L = LogRoundTrip
  import LogReader
  import M = Manifest

  /** User keys and values as byte strings. */
  datatype Codec = Codec(keyBytes: UserKey -> seq<byte>, keyOf: seq<byte> -> UserKey, valueBytes: string -> seq<byte>,
                         valueOf: seq<byte> -> string)

  /** The key, or value, is what its bytes stand for. */
  predicate KeyCoded(c: Codec, k: UserKey) {
    c.keyOf(c.keyBytes(k)) == k
  }

  predicate ValueCoded(c: Codec, v: string) {
    c.valueOf(c.valueBytes(v)) == v
  }

  // -------------------------------------------------------------- log records

  function RecordOf(c: Codec, op: Op): B.Record {
    match op
    case Put(user, value) => B.PutRecord(c.keyBytes(user), c.valueBytes(value))
    case Delete(user) => B.DeleteRecord(c.keyBytes(user))
  }

  function OpOf(c: Codec, r: B.Record): Op {
    match r
    case PutRecord(key, value) => Put(c.keyOf(key), c.valueOf(value))
    case DeleteRecord(key) => Delete(c.keyOf(key))
  }

  function RecordsOf(c: Codec, ops: seq<Op>): (r: seq<B.Record>)
    ensures |r| == |ops|
  {
    seq(|ops|, i requires 0 <= i < |ops| => RecordOf(c, ops[i]))
  }

  function OpsOf(c: Codec, rs: seq<B.Record>): (r: seq<Op>)
    ensures |r| == |rs|
  {
    seq(|rs|, i requires 0 <= i < |rs| => OpOf(c, rs[i]))
  }

  /** The log record of a batch. */
  function BatchRep(c: Codec, b: Batch): seq<byte> {
    B.Rep(b.sn, RecordsOf(c, b.ops))
  }

  /** The batch in a log record; None if its bytes are corrupt. */
  function BatchIn(c: Codec, rep: seq<byte>): Option<Batch> {
    var it := B.IterateRep(rep);
    if it.ok then Some(Batch(B.SequenceIn(rep), OpsOf(c, it.handled))) else None
  }

  predicate OpCoded(c: Codec, op: Op) {
    KeyCoded(c, op.user) && (op.Put? ==> ValueCoded(c, op.value))
  }

  predicate BatchFits(c: Codec, b: Batch) {
    b.sn < TWO_64 && B.RecordsOk(RecordsOf(c, b.ops)) && forall i :: 0 <= i < |b.ops| ==> OpCoded(c, b.ops[i])
  }

  lemma BatchReads(c: Codec, b: Batch)
    requires BatchFits(c, b)
    ensures BatchIn(c, BatchRep(c, b)) == Some(b)
  {
    B.IterateUndoesRep(b.sn, RecordsOf(c, b.ops));
    forall i | 0 <= i < |b.ops|
      ensures OpsOf(c, RecordsOf(c, b.ops))[i] == b.ops[i]
    {
      assert OpCoded(c, b.ops[i]);
    }
    assert OpsOf(c, RecordsOf(c, b.ops)) == b.ops;
  }

  // --------------------------------------------------------- manifest records

  /** User key, then sequence number and kind in eight bytes. */
  function KeyRep(c: Codec, k: InternalKey): seq<byte> {
    c.keyBytes(k.user) + LittleEndian(Pack(k.sn, k.kind), 8)
  }

  function KeyIn(c: Codec, s: seq<byte>): InternalKey
    requires |s| >= 8
  {
    var n := FromLittleEndian(s[|s| - 8..]);
    InternalKey(c.keyOf(s[..|s| - 8]), n / 256, if n % 256 == 1 then Value else Deletion)
  }

  predicate KeyFits(c: Codec, k: InternalKey) {
    KeyCoded(c, k.user) && k.sn <= MAX_SEQUENCE
  }

  lemma KeyReads(c: Codec, k: InternalKey)
    requires KeyFits(c, k)
    ensures |KeyRep(c, k)| >= 8 && KeyIn(c, KeyRep(c, k)) == k
  {
    var s, tail := KeyRep(c, k), LittleEndian(Pack(k.sn, k.kind), 8);
    assert s[..|s| - 8] == c.keyBytes(k.user) && s[|s| - 8..] == tail;
    assert Pow256(8) == TWO_64;
    LittleEndianRoundTrip(Pack(k.sn, k.kind), 8);
  }

  function MetaOf(c: Codec, f: File): E.FileMeta {
    E.FileMeta(f.number, f.size, KeyRep(c, f.smallest), KeyRep(c, f.largest))
  }

  /** Keys shorter than their trailer come from corrupt records only. */
  function KeyOr(c: Codec, s: seq<byte>): InternalKey {
    if |s| >= 8 then KeyIn(c, s) else InternalKey(0.0, 0, Deletion)
  }

  /** A table file's metadata is in the manifest, its entries in the file of that number. */
  function FileIn(c: Codec, tables: nat -> seq<Entry>, m: E.FileMeta): File {
    File(m.number, m.size, KeyOr(c, m.smallest), KeyOr(c, m.largest), tables(m.number))
  }

  /** The edit as the coder sees it; the opening snapshot names the comparator, every other record has the counters. */
  function Coded(c: Codec, name: seq<byte>, e: M.Edit): E.VersionEdit {
    var n := e.counters;
    E.VersionEdit(
      if n.None? then Some(name) else None,
      if n.Some? then Some(n.value.logNumber) else None,
      if n.Some? then Some(n.value.prevLogNumber) else None,
      if n.Some? then Some(n.value.nextFile) else None,
      if n.Some? then Some(n.value.lastSequence) else None,
      seq(|e.pointers|, i requires 0 <= i < |e.pointers| => (e.pointers[i].0, KeyRep(c, e.pointers[i].1))),
      e.deleted,
      seq(|e.added|, i requires 0 <= i < |e.added| => (e.added[i].0, MetaOf(c, e.added[i].1))))
  }

  function Uncoded(c: Codec, tables: nat -> seq<Entry>, v: E.VersionEdit): M.Edit {
    M.Edit(v.deleted,
           seq(|v.newFiles|, i requires 0 <= i < |v.newFiles| => (v.newFiles[i].0, FileIn(c, tables, v.newFiles[i].1))),
           seq(|v.compactPointers|, i requires 0 <= i < |v.compactPointers| =>
               (v.compactPointers[i].0, KeyOr(c, v.compactPointers[i].1))),
           if v.logNumber.Some? && v.prevLogNumber.Some? && v.nextFileNumber.Some? && v.lastSequence.Some?
           then Some(M.Counters(v.logNumber.value, v.prevLogNumber.value, v.nextFileNumber.value, v.lastSequence.value))
           else None)
  }

  /** Keys that can be coded, and table files holding the entries of the files added. */
  ghost predicate EditStored(c: Codec, tables: nat -> seq<Entry>, e: M.Edit) {
    && (forall u :: u in e.pointers ==> KeyFits(c, u.1))
    && forall p :: p in e.added ==>
          KeyFits(c, p.1.smallest) && KeyFits(c, p.1.largest)
          && tables(p.1.number) == p.1.entries
  }

  lemma UncodedIs(c: Codec, name: seq<byte>, tables: nat -> seq<Entry>, e: M.Edit)
    requires EditStored(c, tables, e)
    ensures Uncoded(c, tables, Coded(c, name, e)) == e
  {
    var v := Coded(c, name, e);
    var r := Uncoded(c, tables, v);
    hide KeyIn, KeyRep;
    forall i | 0 <= i < |e.added|
      ensures r.added[i] == e.added[i]
    {
      assert e.added[i] in e.added;
      KeyReads(c, e.added[i].1.smallest);
      KeyReads(c, e.added[i].1.largest);
    }
    forall i | 0 <= i < |e.pointers|
      ensures r.pointers[i] == e.pointers[i]
    {
      assert e.pointers[i] in e.pointers;
      KeyReads(c, e.pointers[i].1);
    }
    assert r.added == e.added && r.pointers == e.pointers;
  }

  /** A manifest record of the edit, with its removals in any order. */
  ghost predicate IsEditRep(c: Codec, name: seq<byte>, e: M.Edit, rep: seq<byte>) {
    exists ds :: E.EditOk(Coded(c, name, e), ds) && rep == E.PutAll(E.FieldsOf(Coded(c, name, e), ds))
  }

  /** The edit in a manifest record; None if the record is corrupt or names another comparator. */
  function EditIn(c: Codec, name: seq<byte>, tables: nat -> seq<Entry>, rep: seq<byte>): Option<M.Edit> {
    var v := E.Decode(rep, E.FRESH);
    if v.None? || (v.value.comparator.Some? && v.value.comparator.value != name) then None
    else Some(Uncoded(c, tables, v.value))
  }

  lemma EditReads(c: Codec, name: seq<byte>, tables: nat -> seq<Entry>, e: M.Edit, rep: seq<byte>)
    requires EditStored(c, tables, e) && IsEditRep(c, name, e, rep)
    ensures EditIn(c, name, tables, rep) == Some(e)
  {
    var v := Coded(c, name, e);
    assert v.comparator.Some? ==> v.comparator.value == name;
    hide Coded, Uncoded;
    var ds :| E.EditOk(v, ds) && rep == E.PutAll(E.FieldsOf(v, ds));
    E.DecodeUndoesEncode(v, ds);
    UncodedIs(c, name, tables, e);
  }

  // ---------------------------------------------------------------- the files

  /** Every record decoded, or None if one cannot be. */
  function DecodeAll<T>(reps: seq<seq<byte>>, decode: seq<byte> -> Option<T>): Option<seq<T>> {
    if reps == [] then Some([])
    else
      var init, last := DecodeAll(reps[..|reps| - 1], decode), decode(reps[|reps| - 1]);
      if init.Some? && last.Some? then Some(init.value + [last.value]) else None
  }

  lemma {:induction false} AllDecode<T>(reps: seq<seq<byte>>, decode: seq<byte> -> Option<T>, xs: seq<T>)
    requires |reps| == |xs| && forall i :: 0 <= i < |xs| ==> decode(reps[i]) == Some(xs[i])
    ensures DecodeAll(reps, decode) == Some(xs)
  {
    if reps != [] {
      AllDecode(reps[..|reps| - 1], decode, xs[..|xs| - 1]);
      assert xs == xs[..|xs| - 1] + [xs[|xs| - 1]];
    }
  }

  /** The records a reader finds in a file. */
  function RecordsIn(file: seq<byte>): seq<seq<byte>> {
    L.ReadAll(F.CrcSums(), file, LogReader.Input(0, [], false, 0)).0
  }

  /** A file the log writer made of these records. */
  ghost predicate FileOf(records: seq<seq<byte>>, file: seq<byte>) {
    exists groups :: L.WrittenLog(F.CrcSums(), groups, records, file)
  }

  /** Reading what is left of a written file gives the records that are all there, and nothing is reported. */
  lemma CutReads(records: seq<seq<byte>>, file: seq<byte>, kept: seq<byte>) returns (m: nat)
    requires FileOf(records, file) && kept <= file
    ensures m <= |records| && RecordsIn(kept) == records[..m]
    ensures kept == file ==> m == |records|
  {
    var groups :| L.WrittenLog(F.CrcSums(), groups, records, file);
    F.CrcSumsOk();
    L.CrashPrefix(F.CrcSums(), groups, records, kept);
    L.UncutIsComplete(F.CrcSums(), groups, records);
    m := L.CompleteRecords(F.CrcSums(), groups, |kept|);
  }

  function LogIn(c: Codec, file: seq<byte>): Option<seq<Batch>> {
    DecodeAll(RecordsIn(file), (rep: seq<byte>) => BatchIn(c, rep))
  }

  function ManifestIn(c: Codec, name: seq<byte>, tables: nat -> seq<Entry>, file: seq<byte>): Option<seq<M.Edit>> {
    DecodeAll(RecordsIn(file), (rep: seq<byte>) => EditIn(c, name, tables, rep))
  }

  function BatchReps(c: Codec, bs: seq<Batch>): (r: seq<seq<byte>>)
    ensures |r| == |bs|
  {
    seq(|bs|, i requires 0 <= i < |bs| => BatchRep(c, bs[i]))
  }

  lemma RepsBefore(c: Codec, bs: seq<Batch>, m: nat)
    requires m <= |bs|
    ensures BatchReps(c, bs)[..m] == BatchReps(c, bs[..m])
  {
    hide BatchRep;
  }

  /** Whatever is left of a log gives the batches up to the first that is not all there. */
  lemma LogReads(c: Codec, bs: seq<Batch>, file: seq<byte>, kept: seq<byte>) returns (m: nat)
    requires (forall b :: b in bs ==> BatchFits(c, b)) && FileOf(BatchReps(c, bs), file) && kept <= file
    ensures m <= |bs| && LogIn(c, kept) == Some(bs[..m])
    ensures kept == file ==> m == |bs|
  {
    hide BatchIn, BatchRep, RecordsIn, FileOf, BatchFits;
    m := CutReads(BatchReps(c, bs), file, kept);
    RepsBefore(c, bs, m);
    BatchesDecode(c, bs[..m]);
  }

  lemma BatchesDecode(c: Codec, bs: seq<Batch>)
    requires forall b :: b in bs ==> BatchFits(c, b)
    ensures DecodeAll(BatchReps(c, bs), (rep: seq<byte>) => BatchIn(c, rep)) == Some(bs)
  {
    hide BatchIn, BatchRep, BatchFits;
    var decode := (rep: seq<byte>) => BatchIn(c, rep);
    forall i | 0 <= i < |bs|
      ensures decode(BatchReps(c, bs)[i]) == Some(bs[i])
    {
      BatchReads(c, bs[i]);
    }
    AllDecode(BatchReps(c, bs), decode, bs);
  }

  /** An undamaged manifest gives every edit back. */
  lemma ManifestReads(c: Codec, name: seq<byte>, tables: nat -> seq<Entry>, edits: seq<M.Edit>, reps: seq<seq<byte>>,
                      file: seq<byte>)
    requires |reps| == |edits| && FileOf(reps, file)
    requires forall i :: 0 <= i < |edits| ==> EditStored(c, tables, edits[i]) && IsEditRep(c, name, edits[i], reps[i])
    ensures ManifestIn(c, name, tables, file) == Some(edits)
  {
    hide EditIn, IsEditRep, EditStored, RecordsIn, FileOf;
    var m := CutReads(reps, file, file);
    assert reps[..m] == reps;
    var decode := (rep: seq<byte>) => EditIn(c, name, tables, rep);
    forall i | 0 <= i < |edits|
      ensures decode(reps[i]) == Some(edits[i])
    {
      EditReads(c, name, tables, edits[i], reps[i]);
    }
    AllDecode(reps, decode, edits);
  }
}
