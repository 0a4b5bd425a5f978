/** Varints and fixed words inside the engine's own files. */
module Coding {
  import opened PbVarints

  /** The reader after `k` bytes: at most five, and only the low 32 bits of what they hold. */
  function GetVarint32From(s: seq<byte>, k: nat, acc: nat): (r: Read<nat>)
    ensures r.Got? ==> |r.rest| < |s|
    decreases |s|
  {
    if 7 * k > 28 || s == [] then Bad
    else
      var acc2 := acc + (s[0] % 128) * Pow128(k) % TWO_32;
      if s[0] >= 128 then GetVarint32From(s[1..], k + 1, acc2) else Got(acc2, s[1..])
  }

  function GetVarint32(s: seq<byte>): (r: Read<nat>)
    ensures r.Got? ==> |r.rest| < |s|
  {
    GetVarint32From(s, 0, 0)
  }

  lemma Pow128Five()
    ensures Pow128(0) == 1 && Pow128(4) == 0x1000_0000
  {
    Pow128Values();
  }

  lemma NotPastFive(n: nat, k: nat)
    requires n >= 128 && n * Pow128(k) < TWO_32
    ensures k != 4
  {
    Pow128Five();
  }

  lemma {:induction false} GetVarintAt(n: nat, rest: seq<byte>, k: nat, acc: nat)
    requires k <= 4 && acc + n * Pow128(k) < TWO_32
    ensures GetVarint32From(VarintBytes(n) + rest, k, acc) == Got(acc + n * Pow128(k), rest)
    decreases n
  {
    VarintStep(n, rest);
    ShiftSplit(n, k);
    var low := (n % 128) * Pow128(k);
    assert low % TWO_32 == low;
    if n >= 128 {
      assert k < 4 by { NotPastFive(n, k); }
      GetVarintAt(n / 128, rest, k + 1, acc + low);
    }
  }

  /** Any 32-bit value reads back as written. */
  lemma GetPutVarint32(n: nat, rest: seq<byte>)
    requires n < TWO_32
    ensures GetVarint32(VarintBytes(n) + rest) == Got(n, rest)
  {
    assert n * Pow128(0) == n;
    GetVarintAt(n, rest, 0, 0);
  }

  /** The word at an offset. */
  function DecodeFixed32(s: seq<byte>, at: nat): nat
    requires at + 4 <= |s|
  {
    FromLittleEndian(s[at..at + 4])
  }

  lemma FixedRoundTrip(s: seq<byte>, at: nat, n: nat)
    requires at + 4 <= |s| && n < TWO_32 && s[at..at + 4] == LittleEndian(n, 4)
    ensures DecodeFixed32(s, at) == n
  {
    assert Pow256(4) == TWO_32;
    LittleEndianRoundTrip(n, 4);
  }

  // ------------------------------------------------- length-prefixed slices

  function PutSlice(s: seq<byte>): seq<byte> {
    VarintBytes(|s|) + s
  }

  function GetSlice(s: seq<byte>): (r: Read<seq<byte>>)
    ensures r.Got? ==> |r.rest| <= |s|
  {
    var len := GetVarint32(s);
    if len.Bad? || |len.rest| < len.value then Bad else Got(len.rest[..len.value], len.rest[len.value..])
  }

  lemma WholeSlice(s: seq<byte>, rest: seq<byte>)
    requires |s| < TWO_32
    ensures GetSlice(PutSlice(s) + rest) == Got(s, rest)
  {
    assert PutSlice(s) + rest == VarintBytes(|s|) + (s + rest);
    GetPutVarint32(|s|, s + rest);
    assert (s + rest)[..|s|] == s && (s + rest)[|s|..] == rest;
  }
}
