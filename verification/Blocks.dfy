/** Table blocks: prefix-compressed entries, restart points, and what a decoder finds at each offset. */
module Blocks {
  import opened PbVarints
  import opened Coding

  /** An entry of a block and how much of the key before it it shares. */
  datatype RawItem = RawItem(shared: nat, key: seq<byte>, value: seq<byte>)

  type Item = it: RawItem | it.shared <= |it.key| < TWO_31 && |it.value| < TWO_31 witness RawItem(0, [], [])

  function Delta(it: Item): seq<byte> {
    it.key[it.shared..]
  }

  function Lengths(it: Item): seq<byte> {
    VarintBytes(it.shared) + VarintBytes(|Delta(it)|) + VarintBytes(|it.value|)
  }

  function Encode(it: Item): (r: seq<byte>)
    ensures |r| >= 3
  {
    Lengths(it) + Delta(it) + it.value
  }

  // -------------------------------------------------------------- one entry

  datatype Entry = Entry(shared: nat, nonShared: nat, valueLength: nat)

  function DecodeLengths(s: seq<byte>): (r: Read<Entry>)
    ensures r.Got? ==> |r.rest| <= |s|
  {
    if |s| < 3 then Bad
    else if s[0] < 128 && s[1] < 128 && s[2] < 128 then Got(Entry(s[0], s[1], s[2]), s[3..])
    else
      var a := GetVarint32(s);
      if a.Bad? then Bad
      else
        var b := GetVarint32(a.rest);
        if b.Bad? then Bad
        else
          var c := GetVarint32(b.rest);
          if c.Bad? then Bad else Got(Entry(a.value, b.value, c.value), c.rest)
  }

  /** The lengths of the entry at the start of `s`, and what follows them: the key's own part first. */
  function DecodeEntry(s: seq<byte>): (r: Read<Entry>)
    ensures r.Got? ==> |r.rest| <= |s|
  {
    var r := DecodeLengths(s);
    if r.Got? && |r.rest| % TWO_32 < (r.value.nonShared + r.value.valueLength) % TWO_32 then Bad else r
  }

  lemma VarintHead(n: nat, rest: seq<byte>)
    ensures |VarintBytes(n) + rest| >= 1
    ensures (VarintBytes(n) + rest)[0] < 128 <==> n < 128
    ensures n < 128 ==> VarintBytes(n) == [n]
  {
    VarintStep(n, rest);
  }

  lemma ShortLengths(x: nat, y: nat, z: nat, rest: seq<byte>)
    requires x < 128 && y < 128 && z < 128
    ensures DecodeLengths([x] + [y] + [z] + rest) == Got(Entry(x, y, z), rest)
  {
    assert ([x] + [y] + [z] + rest)[3..] == rest;
  }

  lemma SecondByte(a: byte, s: seq<byte>)
    requires s != []
    ensures ([a] + s)[0] == a && ([a] + s)[1] == s[0]
  {
  }

  lemma ThirdByte(a: byte, b: byte, s: seq<byte>)
    requires s != []
    ensures ([a] + ([b] + s))[1] == b && ([a] + ([b] + s))[2] == s[0]
  {
  }

  /** One of the first three bytes shows a length of more than one byte. */
  lemma LongLengths(x: nat, y: nat, z: nat, s2: seq<byte>, s3: seq<byte>, rest: seq<byte>)
    requires !(x < 128 && y < 128 && z < 128) && s3 == VarintBytes(z) + rest && s2 == VarintBytes(y) + s3
    ensures var s := VarintBytes(x) + s2; |s| >= 3 && !(s[0] < 128 && s[1] < 128 && s[2] < 128)
  {
    VarintHead(x, s2);
    VarintHead(y, s3);
    VarintHead(z, rest);
    if x < 128 {
      SecondByte(x, s2);
      if y < 128 {
        ThirdByte(x, y, s3);
      }
    }
  }

  /** The long way reads three lengths one after the other. */
  lemma LongWay(x: nat, y: nat, z: nat, s: seq<byte>, s2: seq<byte>, s3: seq<byte>, rest: seq<byte>)
    requires |s| >= 3 && !(s[0] < 128 && s[1] < 128 && s[2] < 128)
    requires GetVarint32(s) == Got(x, s2) && GetVarint32(s2) == Got(y, s3) && GetVarint32(s3) == Got(z, rest)
    ensures DecodeLengths(s) == Got(Entry(x, y, z), rest)
  {
  }

  lemma DecodeShort(x: nat, y: nat, z: nat, rest: seq<byte>)
    requires x < 128 && y < 128 && z < 128
    ensures DecodeLengths(VarintBytes(x) + VarintBytes(y) + VarintBytes(z) + rest) == Got(Entry(x, y, z), rest)
  {
    VarintHead(x, []);
    VarintHead(y, []);
    VarintHead(z, []);
    ShortLengths(x, y, z, rest);
  }

  lemma DecodeLong(x: nat, y: nat, z: nat, s: seq<byte>, s2: seq<byte>, s3: seq<byte>, rest: seq<byte>)
    requires x < TWO_32 && y < TWO_32 && z < TWO_32 && !(x < 128 && y < 128 && z < 128)
    requires s == VarintBytes(x) + s2 && s2 == VarintBytes(y) + s3 && s3 == VarintBytes(z) + rest
    ensures DecodeLengths(s) == Got(Entry(x, y, z), rest)
  {
    LongLengths(x, y, z, s2, s3, rest);
    GetPutVarint32(x, s2);
    GetPutVarint32(y, s3);
    GetPutVarint32(z, rest);
    LongWay(x, y, z, s, s2, s3, rest);
  }

  lemma Nested(a: seq<byte>, b: seq<byte>, c: seq<byte>, d: seq<byte>)
    ensures a + b + c + d == a + (b + (c + d))
  {
  }

  /** The short way and the long way read the same lengths. */
  lemma DecodeLengthsIs(x: nat, y: nat, z: nat, rest: seq<byte>)
    requires x < TWO_32 && y < TWO_32 && z < TWO_32
    ensures DecodeLengths(VarintBytes(x) + VarintBytes(y) + VarintBytes(z) + rest) == Got(Entry(x, y, z), rest)
  {
    if x < 128 && y < 128 && z < 128 {
      DecodeShort(x, y, z, rest);
    } else {
      var s3 := VarintBytes(z) + rest;
      var s2 := VarintBytes(y) + s3;
      Nested(VarintBytes(x), VarintBytes(y), VarintBytes(z), rest);
      DecodeLong(x, y, z, VarintBytes(x) + s2, s2, s3, rest);
    }
  }

  /** The lengths are accepted when the bytes they announce are there. */
  lemma Announced(s: seq<byte>, shared: nat, nonShared: nat, valueLength: nat, tail: seq<byte>)
    requires DecodeLengths(s) == Got(Entry(shared, nonShared, valueLength), tail)
    requires nonShared + valueLength <= |tail| < TWO_32
    ensures DecodeEntry(s) == Got(Entry(shared, nonShared, valueLength), tail)
  {
  }

  lemma DecodeEntryIs(it: Item, rest: seq<byte>)
    requires |Encode(it) + rest| < TWO_32
    ensures DecodeEntry(Encode(it) + rest) == Got(Entry(it.shared, |Delta(it)|, |it.value|),
                                                  Delta(it) + it.value + rest)
  {
    var tail := Delta(it) + it.value + rest;
    assert Encode(it) + rest == Lengths(it) + tail;
    DecodeLengthsIs(it.shared, |Delta(it)|, |it.value|, tail);
    Announced(Encode(it) + rest, it.shared, |Delta(it)|, |it.value|, tail);
  }

  // ------------------------------------------------------------- all entries

  function KeyBefore(items: seq<Item>, i: nat): seq<byte>
    requires i <= |items|
  {
    if i == 0 then [] else items[i - 1].key
  }

  /** `key` has the part of item `i`'s key that the item leaves out. */
  predicate Supplies(key: seq<byte>, it: Item) {
    it.shared <= |key| && key[..it.shared] == it.key[..it.shared]
  }

  predicate Follows(items: seq<Item>, i: nat) {
    i < |items| && Supplies(KeyBefore(items, i), items[i])
  }

  ghost predicate ItemsOk(items: seq<Item>) {
    forall i: nat :: i < |items| ==> Follows(items, i)
  }

  /** The bytes of the first `n` items. */
  function Bytes(items: seq<Item>, n: nat): seq<byte>
    requires n <= |items|
  {
    if n == 0 then [] else Bytes(items, n - 1) + Encode(items[n - 1])
  }

  /** Where item `n` begins. */
  function Off(items: seq<Item>, n: nat): nat
    requires n <= |items|
  {
    |Bytes(items, n)|
  }

  lemma {:induction false} BytesPrefix(items: seq<Item>, i: nat, n: nat)
    requires i <= n <= |items|
    ensures Bytes(items, i) <= Bytes(items, n) && Off(items, i) + 3 * (n - i) <= Off(items, n)
    decreases n
  {
    if i < n {
      BytesPrefix(items, i, n - 1);
    }
  }

  lemma {:induction false} BytesSame(a: seq<Item>, b: seq<Item>, n: nat)
    requires n <= |a| && n <= |b| && forall i :: 0 <= i < n ==> a[i] == b[i]
    ensures Bytes(a, n) == Bytes(b, n)
  {
    if n > 0 {
      BytesSame(a, b, n - 1);
    }
  }

  /** What lies at item `i`'s offset. */
  lemma ItemAt(items: seq<Item>, i: nat) returns (rest: seq<byte>)
    requires i < |items|
    ensures Off(items, i) <= Off(items, |items|)
    ensures Bytes(items, |items|)[Off(items, i)..] == Encode(items[i]) + rest
    ensures Off(items, i + 1) == Off(items, i) + |Encode(items[i])| <= Off(items, |items|)
  {
    var all := Bytes(items, |items|);
    BytesPrefix(items, i + 1, |items|);
    rest := all[Off(items, i + 1)..];
    assert all == Bytes(items, i) + Encode(items[i]) + rest;
    DropFirst(Bytes(items, i), Encode(items[i]), rest);
  }

  lemma DropFirst(a: seq<byte>, b: seq<byte>, c: seq<byte>)
    ensures (a + b + c)[|a|..] == b + c && |a| + |b| <= |a + b + c|
  {
  }

  // ---------------------------------------------------------- the whole block

  /** Restart points are items that share nothing; the first is the first item. */
  ghost predicate StartsOk(items: seq<Item>, starts: seq<nat>) {
    && starts != [] && starts[0] == 0
    && (forall r :: 0 < r < |starts| ==> starts[r] < |items|)
    && (forall r, q :: 0 <= r < q < |starts| ==> starts[r] < starts[q])
    && forall r :: 0 <= r < |starts| && starts[r] < |items| ==> items[starts[r]].shared == 0
  }

  predicate Words(data: seq<byte>, at: nat, words: seq<nat>) {
    at + 4 * |words| <= |data| && forall r :: 0 <= r < |words| ==> Word(data, at + 4 * r) == words[r]
  }

  function Word(data: seq<byte>, at: nat): nat {
    if at + 4 <= |data| then DecodeFixed32(data, at) else 0
  }

  ghost function Points(items: seq<Item>, starts: seq<nat>): (r: seq<nat>)
    requires StartsOk(items, starts)
    ensures |r| == |starts|
  {
    seq(|starts|, r requires 0 <= r < |starts| => Off(items, starts[r]))
  }

  /** The block of these items and restart points: the items, the points' offsets, their number. */
  ghost predicate IsBlock(data: seq<byte>, items: seq<Item>, starts: seq<nat>) {
    && ItemsOk(items) && StartsOk(items, starts) && |data| < TWO_32
    && |data| == Off(items, |items|) + 4 * |starts| + 4
    && Bytes(items, |items|) <= data
    && Words(data, Off(items, |items|), Points(items, starts))
    && Word(data, |data| - 4) == |starts|
  }
}
