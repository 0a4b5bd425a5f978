/** A write batch whose bytes are cut short, or whose count is wrong, is not accepted. */
module CutBatches {
  import opened PbVarints
  import opened PbMalformed
  import opened Coding
  import opened BatchCoding

  lemma {:induction false} UnendingGet(s: seq<byte>, k: nat, acc: nat)
    requires Unending(s)
    ensures GetVarint32From(s, k, acc).Bad?
    decreases |s|
  {
    if 7 * k <= 28 && s != [] {
      UnendingGet(s[1..], k + 1, acc + (s[0] % 128) * Pow128(k) % TWO_32);
    }
  }

  /** Part of a length-prefixed slice is not a slice. */
  lemma CutSlice(s: seq<byte>, p: nat)
    requires |s| < TWO_32 && p < |PutSlice(s)|
    ensures GetSlice(PutSlice(s)[..p]).Bad?
  {
    var len := VarintBytes(|s|);
    if p < |len| {
      CutIsUnending(|s|, p);
      assert PutSlice(s)[..p] == len[..p];
      UnendingGet(len[..p], 0, 0);
    } else {
      assert PutSlice(s)[..p] == len + s[..p - |len|];
      GetPutVarint32(|s|, s[..p - |len|]);
    }
  }

  lemma CutPair(a: seq<byte>, b: seq<byte>, p: nat)
    requires p <= |a| + |b|
    ensures (a + b)[..p] == if p <= |a| then a[..p] else a + b[..p - |a|]
  {
  }

  /** Part of an operation is not an operation. */
  lemma CutRecord(r: Record, p: nat)
    requires RecordOk(r) && 0 < p < |PutOne(r)|
    ensures GetRecord(PutOne(r)[..p]).Bad?
  {
    hide PutSlice, GetSlice;
    var s := PutOne(r)[..p];
    match r
    case DeleteRecord(key) =>
      assert s[1..] == PutSlice(key)[..p - 1];
      CutSlice(key, p - 1);
    case PutRecord(key, value) =>
      assert s[1..] == (PutSlice(key) + PutSlice(value))[..p - 1];
      CutPair(PutSlice(key), PutSlice(value), p - 1);
      if p - 1 < |PutSlice(key)| {
        CutSlice(key, p - 1);
      } else {
        var q := p - 1 - |PutSlice(key)|;
        assert s[1..] == PutSlice(key) + PutSlice(value)[..q];
        WholeSlice(key, PutSlice(value)[..q]);
        CutSlice(value, q);
      }
  }

  /** Of cut-off operations some first ones are handled, but not all. */
  lemma {:induction false} CutRecords(rs: seq<Record>, handled: seq<Record>, m: nat) returns (j: nat)
    requires (forall i :: 0 <= i < |rs| ==> RecordOk(rs[i])) && m < |PutFrom(rs)|
    ensures j < |rs| && GetRecords(PutFrom(rs)[..m], handled).handled == handled + rs[..j]
    decreases |rs|
  {
    hide PutOne, GetRecord, RecordOk;
    var one, more := PutOne(rs[0]), PutFrom(rs[1..]);
    CutPair(one, more, m);
    if m < |one| {
      j := 0;
      assert handled + rs[..0] == handled;
      if m > 0 {
        CutRecord(rs[0], m);
      }
    } else {
      assert PutFrom(rs)[..m] == one + more[..m - |one|];
      WholeRecord(rs[0], more[..m - |one|]);
      var j2 := CutRecords(rs[1..], handled + [rs[0]], m - |one|);
      j := j2 + 1;
      assert handled + [rs[0]] + rs[1..][..j2] == handled + rs[..j];
    }
  }

  /** No proper beginning of a batch is accepted; what is handed on by then is a beginning of its operations. */
  lemma CutBatchFails(sn: nat, rs: seq<Record>, k: nat)
    requires sn < TWO_64 && RecordsOk(rs) && k < |Rep(sn, rs)|
    ensures !IterateRep(Rep(sn, rs)[..k]).ok && IterateRep(Rep(sn, rs)[..k]).handled <= rs
  {
    hide LittleEndian, FromLittleEndian, GetRecords, PutRecords, PutFrom, RecordOk;
    var rep := Rep(sn, rs);
    if k >= HEADER {
      PutEitherWay(rs);
      var body := PutFrom(rs)[..k - HEADER];
      assert rep[..k] == LittleEndian(sn, 8) + LittleEndian(|rs|, 4) + body;
      HeaderReads(sn, |rs|, body);
      var j := CutRecords(rs, [], k - HEADER);
    }
  }

  /** With another count in the header the same operations are handed on, but the batch is refused. */
  lemma WrongCountFails(sn: nat, rs: seq<Record>, n: nat)
    requires sn < TWO_64 && RecordsOk(rs) && n < TWO_31
    ensures var r := IterateRep(LittleEndian(sn, 8) + LittleEndian(n, 4) + PutRecords(rs));
            r.handled == rs && (r.ok <==> n == |rs|)
  {
    HeaderReads(sn, n, PutRecords(rs));
    PutEitherWay(rs);
    WholeRecords(rs, []);
    assert [] + rs == rs;
  }
}
