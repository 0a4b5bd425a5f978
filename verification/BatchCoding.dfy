/** The bytes of a write batch: building them up, and reading them back operation by operation. */
module BatchCoding {
  import opened PbVarints
  import opened Coding

  const HEADER: nat := 12
  const TYPE_DELETION: byte := 0
  const TYPE_VALUE: byte := 1

  datatype Record = PutRecord(key: seq<byte>, value: seq<byte>) | DeleteRecord(key: seq<byte>)

  predicate RecordOk(r: Record) {
    |r.key| < TWO_32 && (r.PutRecord? ==> |r.value| < TWO_32)
  }

  predicate RecordsOk(rs: seq<Record>) {
    |rs| < TWO_31 && forall i :: 0 <= i < |rs| ==> RecordOk(rs[i])
  }

  function PutOne(r: Record): (s: seq<byte>)
    ensures |s| > 0
  {
    match r
    case PutRecord(key, value) => [TYPE_VALUE] + (PutSlice(key) + PutSlice(value))
    case DeleteRecord(key) => [TYPE_DELETION] + PutSlice(key)
  }

  function PutRecords(rs: seq<Record>): seq<byte> {
    if rs == [] then [] else PutRecords(rs[..|rs| - 1]) + PutOne(rs[|rs| - 1])
  }

  /** Sequence number, count, records. */
  function Rep(sn: nat, rs: seq<Record>): seq<byte> {
    LittleEndian(sn, 8) + LittleEndian(|rs|, 4) + PutRecords(rs)
  }

  // ------------------------------------------------------------ reading back

  /** How an iteration ends, and the operations handled by then. */
  datatype Iterated = Iterated(ok: bool, handled: seq<Record>)

  /** One record: a value has a key and a value, a deletion only a key, anything else is corrupt. */
  function GetRecord(s: seq<byte>): (r: Read<Record>)
    ensures r.Got? ==> |r.rest| < |s|
  {
    if s == [] then Bad
    else
      var key := GetSlice(s[1..]);
      if s[0] == TYPE_VALUE then
        if key.Bad? then Bad
        else
          var value := GetSlice(key.rest);
          if value.Bad? then Bad else Got(PutRecord(key.value, value.value), value.rest)
      else if s[0] == TYPE_DELETION then
        if key.Bad? then Bad else Got(DeleteRecord(key.value), key.rest)
      else Bad
  }

  /** The loop: everything up to the first corrupt record is handled. */
  function GetRecords(s: seq<byte>, handled: seq<Record>): Iterated
    decreases |s|
  {
    if s == [] then Iterated(true, handled)
    else
      var r := GetRecord(s);
      if r.Bad? then Iterated(false, handled) else GetRecords(r.rest, handled + [r.value])
  }

  function CountIn(rep: seq<byte>): nat
    requires |rep| >= HEADER
  {
    DecodeFixed32(rep, 8)
  }

  function SequenceIn(rep: seq<byte>): nat
    requires |rep| >= HEADER
  {
    FromLittleEndian(rep[..8])
  }

  function IterateRep(rep: seq<byte>): Iterated {
    if |rep| < HEADER then Iterated(false, [])
    else
      var r := GetRecords(rep[HEADER..], []);
      Iterated(r.ok && |r.handled| == CountIn(rep), r.handled)
  }

  /** Walks the bytes of a batch, handing each operation on. */
  method Iterate(rep: seq<byte>) returns (ok: bool, handled: seq<Record>)
    ensures Iterated(ok, handled) == IterateRep(rep)
  {
    handled := [];
    if |rep| < HEADER {
      return false, [];
    }
    var input := rep[HEADER..];
    while input != []
      invariant GetRecords(rep[HEADER..], []) == GetRecords(input, handled)
      decreases |input|
    {
      var tag := input[0];
      var key := GetSlice(input[1..]);
      if tag == TYPE_VALUE {
        if key.Bad? {
          return false, handled;
        }
        var value := GetSlice(key.rest);
        if value.Bad? {
          return false, handled;
        }
        input, handled := value.rest, handled + [PutRecord(key.value, value.value)];
      } else if tag == TYPE_DELETION {
        if key.Bad? {
          return false, handled;
        }
        input, handled := key.rest, handled + [DeleteRecord(key.value)];
      } else {
        return false, handled;
      }
    }
    ok := |handled| == CountIn(rep);
  }

  // -------------------------------------------------------------- round trip

  lemma FirstByte(b: byte, s: seq<byte>, rest: seq<byte>)
    ensures ([b] + s + rest)[0] == b && ([b] + s + rest)[1..] == s + rest
  {
  }

  lemma TwoSlices(a: seq<byte>, b: seq<byte>, rest: seq<byte>)
    ensures a + b + rest == a + (b + rest)
  {
  }

  lemma WholeRecord(r: Record, rest: seq<byte>)
    requires RecordOk(r)
    ensures GetRecord(PutOne(r) + rest) == Got(r, rest)
  {
    match r
    case PutRecord(key, value) =>
      FirstByte(TYPE_VALUE, PutSlice(key) + PutSlice(value), rest);
      TwoSlices(PutSlice(key), PutSlice(value), rest);
      WholeSlice(key, PutSlice(value) + rest);
      WholeSlice(value, rest);
    case DeleteRecord(key) =>
      FirstByte(TYPE_DELETION, PutSlice(key), rest);
      WholeSlice(key, rest);
  }

  /** The records from the first on, as the loop meets them. */
  function PutFrom(rs: seq<Record>): seq<byte> {
    if rs == [] then [] else PutOne(rs[0]) + PutFrom(rs[1..])
  }

  lemma {:induction false} PutFromSnoc(rs: seq<Record>, r: Record)
    ensures PutFrom(rs + [r]) == PutFrom(rs) + PutOne(r)
  {
    if rs == [] {
      assert rs + [r] == [r] && PutFrom([r]) == PutOne(r) + PutFrom([]);
    } else {
      assert (rs + [r])[1..] == rs[1..] + [r];
      PutFromSnoc(rs[1..], r);
    }
  }

  lemma {:induction false} PutEitherWay(rs: seq<Record>)
    ensures PutRecords(rs) == PutFrom(rs)
  {
    hide PutOne;
    if rs != [] {
      PutEitherWay(rs[..|rs| - 1]);
      PutFromSnoc(rs[..|rs| - 1], rs[|rs| - 1]);
      assert rs == rs[..|rs| - 1] + [rs[|rs| - 1]];
    }
  }

  lemma {:induction false} WholeRecords(rs: seq<Record>, handled: seq<Record>)
    requires forall i :: 0 <= i < |rs| ==> RecordOk(rs[i])
    ensures GetRecords(PutFrom(rs), handled) == Iterated(true, handled + rs)
  {
    hide PutOne, GetRecord, RecordOk;
    if rs == [] {
      assert handled + rs == handled;
    } else {
      WholeRecord(rs[0], PutFrom(rs[1..]));
      WholeRecords(rs[1..], handled + [rs[0]]);
      assert handled + [rs[0]] + rs[1..] == handled + rs;
    }
  }

  lemma HeaderReads(sn: nat, n: nat, body: seq<byte>)
    requires sn < TWO_64 && n < TWO_31
    ensures var rep := LittleEndian(sn, 8) + LittleEndian(n, 4) + body;
            |rep| >= HEADER && SequenceIn(rep) == sn && CountIn(rep) == n && rep[HEADER..] == body
  {
    var rep := LittleEndian(sn, 8) + LittleEndian(n, 4) + body;
    assert rep[..8] == LittleEndian(sn, 8) && rep[8..12] == LittleEndian(n, 4);
    assert Pow256(4) == TWO_32;
    assert Pow256(8) == TWO_64;
    LittleEndianRoundTrip(sn, 8);
    LittleEndianRoundTrip(n, 4);
  }

  /** Iterating over a batch's bytes hands on exactly its operations, in order, with its sequence number. */
  lemma IterateUndoesRep(sn: nat, rs: seq<Record>)
    requires sn < TWO_64 && RecordsOk(rs)
    ensures IterateRep(Rep(sn, rs)) == Iterated(true, rs)
    ensures |Rep(sn, rs)| >= HEADER && SequenceIn(Rep(sn, rs)) == sn
  {
    HeaderReads(sn, |rs|, PutRecords(rs));
    PutEitherWay(rs);
    WholeRecords(rs, []);
    assert [] + rs == rs;
  }

  // ---------------------------------------------------------------- building

  lemma HeaderChanges(sn: nat, n: nat, body: seq<byte>, word: seq<byte>)
    requires |word| == 4
    ensures var rep := LittleEndian(sn, 8) + LittleEndian(n, 4) + body;
            rep[..8] + word + rep[12..] == LittleEndian(sn, 8) + word + body
  {
    var rep := LittleEndian(sn, 8) + LittleEndian(n, 4) + body;
    assert rep[..8] == LittleEndian(sn, 8) && rep[12..] == body;
  }

  lemma {:induction false} PutRecordsConcat(a: seq<Record>, b: seq<Record>)
    ensures PutRecords(a + b) == PutRecords(a) + PutRecords(b)
  {
    hide PutOne;
    if b == [] {
      assert a + b == a;
    } else {
      assert (a + b)[..|a + b| - 1] == a + b[..|b| - 1];
      PutRecordsConcat(a, b[..|b| - 1]);
    }
  }

  class WriteBatch {
    var rep: seq<byte>
    ghost var sn: nat
    ghost var records: seq<Record>

    ghost predicate Valid()
      reads this
    {
      sn < TWO_64 && RecordsOk(records) && rep == Rep(sn, records)
    }

    constructor ()
      ensures Valid() && records == [] && sn == 0
    {
      rep, sn, records := LittleEndian(0, 8) + LittleEndian(0, 4), 0, [];
      new;
      assert LittleEndian(0, 8) + LittleEndian(0, 4) + [] == LittleEndian(0, 8) + LittleEndian(0, 4);
    }

    method Clear()
      modifies this
      ensures Valid() && records == [] && sn == 0
    {
      rep, sn, records := LittleEndian(0, 8) + LittleEndian(0, 4), 0, [];
      assert LittleEndian(0, 8) + LittleEndian(0, 4) + [] == LittleEndian(0, 8) + LittleEndian(0, 4);
    }

    method Count() returns (n: nat)
      requires Valid()
      ensures n == |records|
    {
      HeaderReads(sn, |records|, PutRecords(records));
      n := DecodeFixed32(rep, 8);
    }

    method Sequence() returns (n: nat)
      requires Valid()
      ensures n == sn
    {
      HeaderReads(sn, |records|, PutRecords(records));
      n := FromLittleEndian(rep[..8]);
    }

    method SetSequence(n: nat)
      requires Valid() && n < TWO_64
      modifies this`rep, this`sn
      ensures Valid() && sn == n
    {
      hide LittleEndian, PutRecords;
      assert rep[8..] == LittleEndian(|records|, 4) + PutRecords(records);
      rep, sn := LittleEndian(n, 8) + rep[8..], n;
      assert rep == Rep(n, records);
    }

    /** The count alone is changed; the records follow. */
    method SetCount(n: nat)
      requires Valid()
      modifies this`rep
      ensures rep == LittleEndian(sn, 8) + LittleEndian(n, 4) + PutRecords(records)
    {
      HeaderChanges(sn, |records|, PutRecords(records), LittleEndian(n, 4));
      rep := rep[..8] + LittleEndian(n, 4) + rep[12..];
    }

    method Put(key: seq<byte>, value: seq<byte>)
      requires Valid() && RecordsOk(records + [PutRecord(key, value)])
      modifies this
      ensures Valid() && records == old(records) + [PutRecord(key, value)] && sn == old(sn)
    {
      hide PutSlice, PutRecords, LittleEndian, Rep;
      var count := Count();
      SetCount(count + 1);
      ghost var before := rep;
      rep := rep + [TYPE_VALUE];
      rep := rep + PutSlice(key);
      rep := rep + PutSlice(value);
      Joins(sn, records, PutRecord(key, value));
      assert rep == before + ([TYPE_VALUE] + (PutSlice(key) + PutSlice(value)));
      records := records + [PutRecord(key, value)];
    }

    method Delete(key: seq<byte>)
      requires Valid() && RecordsOk(records + [DeleteRecord(key)])
      modifies this
      ensures Valid() && records == old(records) + [DeleteRecord(key)] && sn == old(sn)
    {
      hide PutSlice, PutRecords, LittleEndian, Rep;
      var count := Count();
      SetCount(count + 1);
      ghost var before := rep;
      rep := rep + [TYPE_DELETION];
      rep := rep + PutSlice(key);
      assert rep == before + ([TYPE_DELETION] + PutSlice(key));
      Joins(sn, records, DeleteRecord(key));
      records := records + [DeleteRecord(key)];
    }

    /** All of `src`'s operations after this batch's own. */
    method Append(src: WriteBatch)
      requires Valid() && src.Valid() && RecordsOk(records + src.records)
      modifies this
      ensures Valid() && records == old(records) + old(src.records) && sn == old(sn)
    {
      hide PutRecords, LittleEndian;
      var more := src.rep;
      var count := Count();
      var others := src.Count();
      ghost var theirs := src.records;
      HeaderReads(src.sn, |theirs|, PutRecords(theirs));
      SetCount(count + others);
      rep := rep + more[HEADER..];
      PutRecordsConcat(records, theirs);
      TwoSlices(LittleEndian(sn, 8) + LittleEndian(count + others, 4), PutRecords(records), PutRecords(theirs));
      records := records + theirs;
    }
  }

  /** One more record behind the others, with the count already raised. */
  lemma Joins(sn: nat, rs: seq<Record>, r: Record)
    ensures Rep(sn, rs + [r]) == LittleEndian(sn, 8) + LittleEndian(|rs| + 1, 4) + PutRecords(rs) + PutOne(r)
  {
    assert (rs + [r])[..|rs|] == rs;
  }
}
