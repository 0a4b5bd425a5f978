/** The block builder: a finished block holds exactly the entries added, in order. */
module BlockBuilders {
  import opened PbVarints
  import opened Coding
  import opened Blocks

  /** Fixed 32-bit words one after the other. */
  function Fixed(words: seq<nat>, n: nat): (r: seq<byte>)
    requires n <= |words|
    ensures |r| == 4 * n
  {
    if n == 0 then [] else Fixed(words, n - 1) + LittleEndian(words[n - 1], 4)
  }

  lemma {:induction false} FixedAt(words: seq<nat>, n: nat, r: nat)
    requires r < n <= |words|
    ensures Fixed(words, n)[4 * r..4 * r + 4] == LittleEndian(words[r], 4)
  {
    if r < n - 1 {
      FixedAt(words, n - 1, r);
      assert Fixed(words, n)[..4 * (n - 1)] == Fixed(words, n - 1);
      assert Fixed(words, n)[4 * r..4 * r + 4] == Fixed(words, n - 1)[4 * r..4 * r + 4];
    }
  }

  lemma SliceInside(a: seq<byte>, b: seq<byte>, c: seq<byte>, i: nat, j: nat)
    requires i <= j <= |b|
    ensures (a + b + c)[|a| + i..|a| + j] == b[i..j]
  {
  }

  lemma FixedReadsAt(before: seq<byte>, words: seq<nat>, rest: seq<byte>, r: nat, at: nat)
    requires r < |words| && words[r] < TWO_32 && at == |before| + 4 * r
    ensures at + 4 <= |before + Fixed(words, |words|) + rest|
    ensures Word(before + Fixed(words, |words|) + rest, at) == words[r]
  {
    FixedAt(words, |words|, r);
    SliceInside(before, Fixed(words, |words|), rest, 4 * r, 4 * r + 4);
    FixedRoundTrip(before + Fixed(words, |words|) + rest, at, words[r]);
  }

  lemma FixedReads(before: seq<byte>, words: seq<nat>, rest: seq<byte>)
    requires forall r :: 0 <= r < |words| ==> words[r] < TWO_32
    ensures Words(before + Fixed(words, |words|) + rest, |before|, words)
  {
    forall r | 0 <= r < |words|
      ensures Word(before + Fixed(words, |words|) + rest, |before| + 4 * r) == words[r]
    {
      FixedReadsAt(before, words, rest, r, |before| + 4 * r);
    }
  }

  /** The entries a client sees. */
  function Pairs(items: seq<Item>): (r: seq<(seq<byte>, seq<byte>)>)
    ensures |r| == |items|
  {
    seq(|items|, i requires 0 <= i < |items| => (items[i].key, items[i].value))
  }

  lemma PointsSnoc(items: seq<Item>, starts: seq<nat>, it: Item, restart: bool)
    requires StartsOk(items, starts) && StartsOk(items + [it], if restart then starts + [|items|] else starts)
    requires forall r :: 0 <= r < |starts| ==> starts[r] <= |items|
    ensures Points(items + [it], if restart then starts + [|items|] else starts)
         == Points(items, starts) + if restart then [Off(items, |items|)] else []
  {
    hide Off, StartsOk;
    OffsetsSame(items, it);
  }

  lemma OffsetsSame(items: seq<Item>, it: Item)
    ensures forall n :: 0 <= n <= |items| ==> Off(items + [it], n) == Off(items, n)
  {
    forall n | 0 <= n <= |items|
      ensures Off(items + [it], n) == Off(items, n)
    {
      BytesSame(items, items + [it], n);
    }
  }

  lemma BytesSnoc(items: seq<Item>, it: Item)
    ensures Bytes(items + [it], |items| + 1) == Bytes(items, |items|) + Encode(it)
  {
    BytesSame(items, items + [it], |items|);
  }

  lemma ItemsSnoc(items: seq<Item>, it: Item)
    requires ItemsOk(items) && Supplies(KeyBefore(items, |items|), it)
    ensures ItemsOk(items + [it])
  {
    var all := items + [it];
    forall i: nat | i < |all|
      ensures Follows(all, i)
    {
      assert i < |items| ==> all[i] == items[i] && Follows(items, i);
      assert KeyBefore(all, i) == KeyBefore(items, i);
    }
  }

  /** What is in the buffer and the restart list after some entries. */
  ghost predicate Holds(buffer: seq<byte>, restarts: seq<nat>, lastKey: seq<byte>, items: seq<Item>, starts: seq<nat>) {
    && ItemsOk(items) && StartsOk(items, starts) && (items == [] ==> starts == [0])
    && buffer == Bytes(items, |items|) && restarts == Points(items, starts) && lastKey == KeyBefore(items, |items|)
  }

  lemma StartsSnoc(items: seq<Item>, starts: seq<nat>, it: Item, restart: bool)
    requires StartsOk(items, starts) && (items == [] ==> starts == [0])
    requires restart || items == [] ==> it.shared == 0
    requires restart ==> items != []
    ensures StartsOk(items + [it], if restart then starts + [|items|] else starts)
  {
    var all := items + [it];
    var starts2 := if restart then starts + [|items|] else starts;
    forall r | 0 <= r < |starts2| && starts2[r] < |all|
      ensures all[starts2[r]].shared == 0
    {
      if r < |starts| && starts[r] < |items| {
        assert all[starts2[r]] == items[starts[r]];
      } else {
        assert all[starts2[r]] == it;
      }
    }
  }

  lemma LastKeyHeld(buffer: seq<byte>, restarts: seq<nat>, lastKey: seq<byte>, items: seq<Item>, starts: seq<nat>)
    requires Holds(buffer, restarts, lastKey, items, starts)
    ensures lastKey == KeyBefore(items, |items|)
  {
  }

  lemma AddHolds(buffer: seq<byte>, restarts: seq<nat>, lastKey: seq<byte>, items: seq<Item>, starts: seq<nat>,
                 it: Item, restart: bool)
    requires Holds(buffer, restarts, lastKey, items, starts) && Supplies(lastKey, it)
    requires restart || items == [] ==> it.shared == 0
    requires restart ==> items != []
    ensures Holds(buffer + Encode(it), if restart then restarts + [|buffer|] else restarts, it.key,
                  items + [it], if restart then starts + [|items|] else starts)
  {
    ItemsSnoc(items, it);
    BytesSnoc(items, it);
    StartsSnoc(items, starts, it, restart);
    PointsSnoc(items, starts, it, restart);
  }

  lemma FinishIs(data: seq<byte>, buffer: seq<byte>, restarts: seq<nat>, lastKey: seq<byte>, items: seq<Item>,
                 starts: seq<nat>)
    requires Holds(buffer, restarts, lastKey, items, starts)
    requires data == buffer + Fixed(restarts, |restarts|) + LittleEndian(|restarts|, 4) && |data| < TWO_32
    ensures IsBlock(data, items, starts)
  {
    assert Words(data, |buffer|, restarts) by {
      PointsSmall(items, starts);
      FixedReads(buffer, restarts, LittleEndian(|restarts|, 4));
    }
    assert Word(data, |data| - 4) == |starts| by {
      LastWord(buffer + Fixed(restarts, |restarts|), |restarts|);
    }
    assert buffer <= data by {
      StartsWith(buffer, Fixed(restarts, |restarts|), LittleEndian(|restarts|, 4));
    }
  }

  lemma StartsWith(a: seq<byte>, b: seq<byte>, c: seq<byte>)
    ensures a <= a + b + c
  {
  }

  lemma PointsSmall(items: seq<Item>, starts: seq<nat>)
    requires StartsOk(items, starts) && Off(items, |items|) < TWO_32 && (items == [] ==> starts == [0])
    ensures forall r :: 0 <= r < |starts| ==> Points(items, starts)[r] < TWO_32
  {
    forall r | 0 <= r < |starts|
      ensures Points(items, starts)[r] < TWO_32
    {
      BytesPrefix(items, starts[r], |items|);
    }
  }

  lemma LastWord(a: seq<byte>, n: nat)
    requires n < TWO_32
    ensures Word(a + LittleEndian(n, 4), |a|) == n
  {
    SliceInside(a, LittleEndian(n, 4), [], 0, 4);
    assert a + LittleEndian(n, 4) + [] == a + LittleEndian(n, 4);
    FixedRoundTrip(a + LittleEndian(n, 4), |a|, n);
  }

  // ----------------------------------------------------------- compression

  /** The length of the longest common start. */
  function Common(a: seq<byte>, b: seq<byte>): (n: nat)
    ensures n <= |a| && n <= |b|
  {
    if a == [] || b == [] || a[0] != b[0] then 0 else 1 + Common(a[1..], b[1..])
  }

  lemma {:induction false} CommonIs(a: seq<byte>, b: seq<byte>, n: nat)
    requires n <= |a| && n <= |b| && a[..n] == b[..n] && (n < |a| && n < |b| ==> a[n] != b[n])
    ensures n == Common(a, b)
  {
    if n > 0 {
      assert a[0] == a[..n][0] && b[0] == b[..n][0];
      assert a[1..][..n - 1] == a[..n][1..] && b[1..][..n - 1] == b[..n][1..];
      CommonIs(a[1..], b[1..], n - 1);
    }
  }

  /** The counter after `n` entries. */
  function CounterFor(n: nat, interval: nat): (c: nat) {
    if n == 0 then 0
    else
      var c := CounterFor(n - 1, interval);
      (if c >= interval then 0 else c) + 1
  }

  /** Entry `n` begins a restart group of its own. */
  predicate Restarts(n: nat, interval: nat) {
    CounterFor(n, interval) >= interval
  }

  /** Of the entries after the first, exactly those at multiples of the interval do. */
  lemma {:induction false} EveryInterval(q: nat, j: nat, interval: nat)
    requires 1 <= j <= interval
    ensures CounterFor(q * interval + j, interval) == j
    ensures Restarts(q * interval + j, interval) <==> j == interval
    decreases q, j
  {
    var n := q * interval + j;
    if j > 1 {
      EveryInterval(q, j - 1, interval);
      assert n - 1 == q * interval + (j - 1);
    } else if q > 0 {
      EveryInterval(q - 1, interval, interval);
      assert n - 1 == (q - 1) * interval + interval;
    } else {
      assert n == 1;
    }
  }

  /** The restart points of `n` entries. */
  function StartsFor(n: nat, interval: nat): seq<nat> {
    if n == 0 then [0] else StartsFor(n - 1, interval) + if Restarts(n - 1, interval) then [n - 1] else []
  }

  /** Every key shares with the key before it all it can, except at restarts. */
  predicate Compressed(items: seq<Item>, interval: nat) {
    forall k: nat :: k < |items| ==> items[k].shared == SharedAt(items, k, interval)
  }

  function SharedAt(items: seq<Item>, k: nat, interval: nat): nat
    requires k < |items|
  {
    if Restarts(k, interval) then 0 else Common(KeyBefore(items, k), items[k].key)
  }

  lemma CompressedSnoc(items: seq<Item>, interval: nat, it: Item)
    requires Compressed(items, interval)
    requires it.shared == if Restarts(|items|, interval) then 0 else Common(KeyBefore(items, |items|), it.key)
    ensures Compressed(items + [it], interval)
  {
    forall k: nat | k < |items + [it]|
      ensures (items + [it])[k].shared == SharedAt(items + [it], k, interval)
    {
      assert KeyBefore(items + [it], k) == KeyBefore(items, k);
    }
  }

  /** How much of `key` the last key already has. */
  method SharedLength(lastKey: seq<byte>, key: seq<byte>) returns (shared: nat)
    ensures shared == Common(lastKey, key) && lastKey[..shared] == key[..shared]
  {
    shared := 0;
    var minLength := if |lastKey| < |key| then |lastKey| else |key|;
    while shared < minLength && lastKey[shared] == key[shared]
      invariant shared <= minLength && lastKey[..shared] == key[..shared]
    {
      shared := shared + 1;
    }
    CommonIs(lastKey, key, shared);
  }

  method Append(buffer: seq<byte>, shared: nat, key: seq<byte>, value: seq<byte>) returns (r: seq<byte>)
    requires shared <= |key| < TWO_31 && |value| < TWO_31
    ensures r == buffer + Encode(RawItem(shared, key, value))
  {
    r := buffer + VarintBytes(shared) + VarintBytes(|key| - shared) + VarintBytes(|value|);
    assert r == buffer + Lengths(RawItem(shared, key, value));
    r := r + key[shared..] + value;
  }

  lemma PairsSnoc(items: seq<Item>, it: Item)
    ensures Pairs(items + [it]) == Pairs(items) + [(it.key, it.value)]
  {
  }

  /** Appends an entry, sharing nothing when it starts a new restart group. */
  method Added(buffer: seq<byte>, restarts: seq<nat>, lastKey: seq<byte>, ghost items: seq<Item>,
               ghost starts: seq<nat>,
               restart: bool, key: seq<byte>, value: seq<byte>)
      returns (buffer2: seq<byte>, restarts2: seq<nat>, ghost it: Item, ghost starts2: seq<nat>)
    requires Holds(buffer, restarts, lastKey, items, starts) && (restart ==> items != [])
    requires |key| < TWO_31 && |value| < TWO_31
    ensures it == RawItem(if restart then 0 else Common(lastKey, key), key, value)
    ensures starts2 == (if restart then starts + [|items|] else starts)
            && Holds(buffer2, restarts2, key, items + [it], starts2)
  {
    var shared := 0;
    restarts2, starts2 := restarts, starts;
    if restart {
      restarts2, starts2 := restarts + [|buffer|], starts + [|items|];
    } else {
      shared := SharedLength(lastKey, key);
    }
    it := RawItem(shared, key, value);
    AddHolds(buffer, restarts, lastKey, items, starts, it, restart);
    buffer2 := Append(buffer, shared, key, value);
  }

  method WithRestarts(buffer: seq<byte>, restarts: seq<nat>) returns (data: seq<byte>)
    ensures data == buffer + Fixed(restarts, |restarts|) + LittleEndian(|restarts|, 4)
  {
    data := buffer;
    for i := 0 to |restarts|
      invariant data == buffer + Fixed(restarts, i)
    {
      data := data + LittleEndian(restarts[i], 4);
    }
    data := data + LittleEndian(|restarts|, 4);
  }

  class BlockBuilder {
    const interval: nat
    var buffer: seq<byte>
    var restarts: seq<nat>
    var counter: nat
    var lastKey: seq<byte>
    ghost var items: seq<Item>
    ghost var starts: seq<nat>

    ghost predicate Valid()
      reads this
    {
      && interval >= 1 && counter == CounterFor(|items|, interval)
      && starts == StartsFor(|items|, interval) && Compressed(items, interval)
      && Holds(buffer, restarts, lastKey, items, starts)
    }

    constructor (interval: nat)
      requires interval >= 1
      ensures Valid() && this.interval == interval && items == []
    {
      this.interval := interval;
      buffer, restarts, counter, lastKey, items, starts := [], [0], 0, [], [], [0];
    }

    method Reset()
      requires Valid()
      modifies this
      ensures Valid() && items == []
    {
      buffer, restarts, counter, lastKey := [], [0], 0, [];
      items, starts := [], [0];
    }

    function CurrentSizeEstimate(): nat
      reads this
    {
      |buffer| + 4 * |restarts| + 4
    }

    method Add(key: seq<byte>, value: seq<byte>)
      requires Valid() && |key| < TWO_31 && |value| < TWO_31
      modifies this
      ensures Valid() && Pairs(items) == old(Pairs(items)) + [(key, value)]
    {
      hide Holds, Compressed, Common, KeyBefore;
      LastKeyHeld(buffer, restarts, lastKey, items, starts);
      ghost var it, starts2;
      buffer, restarts, it, starts2 := Added(buffer, restarts, lastKey, items, starts, counter >= interval, key, value);
      CompressedSnoc(items, interval, it);
      PairsSnoc(items, it);
      lastKey := key;
      counter := (if counter >= interval then 0 else counter) + 1;
      items, starts := items + [it], starts2;
    }

    /** The block; nothing may be added after it. */
    method Finish() returns (data: seq<byte>)
      requires Valid() && CurrentSizeEstimate() < TWO_32
      ensures IsBlock(data, items, starts) && |data| == CurrentSizeEstimate()
    {
      data := WithRestarts(buffer, restarts);
      FinishIs(data, buffer, restarts, lastKey, items, starts);
    }
  }
}
