/** Bloom filters: a key that was added always matches, whatever the hash. */
module BloomFilters {
  import opened PbVarints

  type Key = seq<byte>

  // -------------------------------------------------------------------- bits

  /** A filter's bit array. Bit `p` is bit `p % 8` of byte `p / 8`. */
  type Bits = seq<bv8>

  function One(i: nat): bv8
    requires i < 8
  {
    1 << i
  }

  predicate Bit(b: bv8, i: nat)
    requires i < 8
  {
    b & One(i) != 0
  }

  predicate IsSet(a: Bits, p: nat)
    requires p < 8 * |a|
  {
    Bit(a[p / 8], p % 8)
  }

  function SetBit(a: Bits, p: nat): (r: Bits)
    requires p < 8 * |a|
    ensures |r| == |a|
  {
    a[p / 8 := a[p / 8] | One(p % 8)]
  }

  lemma BitsOfByte(b: bv8, i: nat, j: nat)
    requires i < 8 && j < 8
    ensures Bit(b | One(i), j) <==> Bit(b, j) || i == j
  {
    assert One(0) == 1 && One(1) == 2 && One(2) == 4 && One(3) == 8 && One(4) == 16 && One(5) == 32 && One(6) == 64
           && One(7) == 128;
  }

  lemma SetBitIs(a: Bits, p: nat, q: nat)
    requires p < 8 * |a| && q < 8 * |a|
    ensures IsSet(SetBit(a, p), q) <==> IsSet(a, q) || p == q
  {
    if p / 8 == q / 8 {
      BitsOfByte(a[p / 8], p % 8, q % 8);
    }
  }

  lemma Clear(n: nat, p: nat)
    requires p < 8 * n
    ensures !IsSet(seq(n, i => 0), p)
  {
  }

  // ------------------------------------------------------------------- probes

  /** Rotates a 32-bit hash right by 17 bits. */
  function Delta(h: nat): nat {
    h / 0x2_0000 + h % 0x2_0000 * 0x8000
  }

  /** The hash of the `j`-th probe. */
  function ProbeHash(h: nat, j: nat): nat {
    if j == 0 then h else (ProbeHash(h, j - 1) + Delta(h)) % TWO_32
  }

  /** The increment is the hash with its halves of 17 and 15 bits exchanged. */
  lemma DeltaRotates(h: nat, high: nat, low: nat)
    requires high < 0x8000 && low < 0x2_0000 && h == high * 0x2_0000 + low
    ensures h < TWO_32 && Delta(h) == low * 0x8000 + high
  {
  }

  /** The probes are an arithmetic progression modulo 2^32. */
  lemma {:induction false} ProbesStepEvenly(h: nat, j: nat)
    requires h < TWO_32
    ensures ProbeHash(h, j) == (h + j * Delta(h)) % TWO_32
  {
    hide Delta;
    if j > 0 {
      ProbesStepEvenly(h, j - 1);
      var d := Delta(h);
      StepModulo(h + (j - 1) * d, d);
      OneMore(j, d);
    }
  }

  lemma OneMore(j: nat, d: nat)
    requires j > 0
    ensures (j - 1) * d + d == j * d
  {
  }

  lemma StepModulo(a: nat, d: nat)
    ensures (a % TWO_32 + d) % TWO_32 == (a + d) % TWO_32
  {
    assert a == a / TWO_32 * TWO_32 + a % TWO_32;
  }

  function Probe(h: nat, j: nat, bits: nat): nat
    requires bits > 0
  {
    ProbeHash(h, j) % bits
  }

  /** A policy: any hash function, and the numbers of bits for a key and of probes. */
  datatype Policy = Policy(hash: Key -> nat, bitsPerKey: nat, k: nat)

  ghost predicate PolicyOk(b: Policy) {
    1 <= b.k <= 30
  }

  /** One of the first `k` probes of one of the first `n` keys. */
  ghost predicate Probed(b: Policy, keys: seq<Key>, n: nat, bits: nat, p: nat)
    requires n <= |keys| && bits > 0
  {
    exists i: nat, j: nat :: i < n && j < b.k && Probe(b.hash(keys[i]), j, bits) == p
  }

  /** The filter of some keys: exactly their probes are set; the last byte is the number of probes. */
  ghost predicate IsFilter(b: Policy, keys: seq<Key>, filter: seq<bv8>) {
    && |filter| >= 9 && filter[|filter| - 1] as nat == b.k
    && var a := filter[..|filter| - 1];
       forall p :: 0 <= p < 8 * |a| ==> (IsSet(a, p) <==> Probed(b, keys, |keys|, 8 * |a|, p))
  }

  function Max(a: nat, b: nat): nat {
    if a < b then b else a
  }

  /** The fewest whole bytes with room for the bits of all keys, but no less than eight, and the number of probes. */
  method CreateFilter(b: Policy, keys: seq<Key>) returns (filter: seq<bv8>)
    requires PolicyOk(b)
    ensures IsFilter(b, keys, filter)
    ensures var bits := 8 * (|filter| - 1);
            64 <= bits && |keys| * b.bitsPerKey <= bits && bits - 8 < Max(|keys| * b.bitsPerKey, 64)
  {
    var bytes := (Max(|keys| * b.bitsPerKey, 64) + 7) / 8;
    var a := Fill(b, keys, bytes);
    filter := a + [b.k as bv8];
    assert filter[..|filter| - 1] == a;
  }

  /** The bit array with the probes of all keys set. */
  method Fill(b: Policy, keys: seq<Key>, bytes: nat) returns (a: Bits)
    requires bytes > 0
    ensures |a| == bytes && forall p :: 0 <= p < 8 * bytes ==> (IsSet(a, p) <==> Probed(b, keys, |keys|, 8 * bytes, p))
  {
    var bits := 8 * bytes;
    a := seq(bytes, i => 0);
    forall p | 0 <= p < bits
      ensures IsSet(a, p) <==> Probed(b, keys, 0, bits, p)
    {
      Clear(bytes, p);
    }
    for i := 0 to |keys|
      invariant |a| == bytes && forall p :: 0 <= p < bits ==> (IsSet(a, p) <==> Probed(b, keys, i, bits, p))
    {
      a := AddKey(b, keys[i], a);
      forall p | 0 <= p < bits
        ensures IsSet(a, p) <==> Probed(b, keys, i + 1, bits, p)
      {
        ProbedSnoc(b, keys, i, bits, p);
      }
    }
  }

  ghost predicate ProbedBy(b: Policy, key: Key, k: nat, bits: nat, p: nat)
    requires bits > 0
  {
    exists j: nat :: j < k && Probe(b.hash(key), j, bits) == p
  }

  lemma ProbedSnoc(b: Policy, keys: seq<Key>, i: nat, bits: nat, p: nat)
    requires i < |keys| && bits > 0
    ensures Probed(b, keys, i + 1, bits, p) <==> Probed(b, keys, i, bits, p) || ProbedBy(b, keys[i], b.k, bits, p)
  {
    if ProbedBy(b, keys[i], b.k, bits, p) {
      var j: nat :| j < b.k && Probe(b.hash(keys[i]), j, bits) == p;
      assert i < i + 1 && j < b.k && Probe(b.hash(keys[i]), j, bits) == p;
    }
  }

  /** Sets the bits of a key's probes. */
  method AddKey(b: Policy, key: Key, before: Bits) returns (a: Bits)
    requires before != []
    ensures |a| == |before|
    ensures forall p :: 0 <= p < 8 * |a| ==> (IsSet(a, p) <==> IsSet(before, p) || ProbedBy(b, key, b.k, 8 * |a|, p))
  {
    a := before;
    var bits := 8 * |a|;
    var h := b.hash(key);
    var delta := Delta(h);
    for j := 0 to b.k
      invariant |a| == |before| && h == ProbeHash(b.hash(key), j)
      invariant forall p :: 0 <= p < bits ==> (IsSet(a, p) <==> IsSet(before, p) || ProbedBy(b, key, j, bits, p))
    {
      var bitpos := h % bits;
      forall p | 0 <= p < bits
        ensures IsSet(SetBit(a, bitpos), p) <==> IsSet(before, p) || ProbedBy(b, key, j + 1, bits, p)
      {
        SetBitIs(a, bitpos, p);
        ProbedBySnoc(b, key, j, bits, p);
      }
      a := SetBit(a, bitpos);
      h := (h + delta) % TWO_32;
    }
  }

  lemma ProbedBySnoc(b: Policy, key: Key, j: nat, bits: nat, p: nat)
    requires bits > 0
    ensures ProbedBy(b, key, j + 1, bits, p) <==> ProbedBy(b, key, j, bits, p) || Probe(b.hash(key), j, bits) == p
  {
    if Probe(b.hash(key), j, bits) == p {
      assert j < j + 1 && Probe(b.hash(key), j, bits) == p;
    }
  }

  /** The answer for any bytes as a filter. */
  method KeyMayMatch(b: Policy, key: Key, filter: seq<bv8>) returns (r: bool)
    ensures r == MayMatch(b, key, filter)
  {
    hide Delta, IsSet;
    if |filter| < 2 {
      return false;
    }
    var a := filter[..|filter| - 1];
    var bits := 8 * |a|;
    var k := filter[|filter| - 1] as nat;
    if k > 30 {
      return true;
    }
    var h := b.hash(key);
    var delta := Delta(h);
    for j := 0 to k
      invariant h == ProbeHash(b.hash(key), j)
      invariant forall i: nat :: i < j ==> IsSet(a, Probe(b.hash(key), i, bits))
    {
      if !IsSet(a, h % bits) {
        assert !IsSet(a, Probe(b.hash(key), j, bits));
        return false;
      }
      h := (h + delta) % TWO_32;
    }
    return true;
  }

  /** All probes of the key are set; unknown encodings match everything, an empty filter nothing. */
  ghost predicate MayMatch(b: Policy, key: Key, filter: seq<bv8>) {
    |filter| >= 2 && (filter[|filter| - 1] as nat > 30 ||
      var a := filter[..|filter| - 1];
      forall i: nat :: i < filter[|filter| - 1] as nat ==> IsSet(a, Probe(b.hash(key), i, 8 * |a|)))
  }

  /** No false negatives. */
  lemma AddedKeyMatches(b: Policy, keys: seq<Key>, filter: seq<bv8>, key: Key)
    requires IsFilter(b, keys, filter) && key in keys
    ensures MayMatch(b, key, filter)
  {
    var a := filter[..|filter| - 1];
    var n: nat :| n < |keys| && keys[n] == key;
    forall i: nat | i < b.k
      ensures IsSet(a, Probe(b.hash(key), i, 8 * |a|))
    {
      assert n < |keys| && i < b.k && Probe(b.hash(keys[n]), i, 8 * |a|) == Probe(b.hash(key), i, 8 * |a|);
    }
  }
}
