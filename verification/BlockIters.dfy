/** The block iterator: binary search over restart points, then decoding entry after entry. */
module BlockIters {
  import opened PbVarints
  import opened Blocks
  import opened BlockBuilders

  /**
   * What the decoder reads of an item that ends at `end`: its lengths, and at `p` its part of the
   * key and then its value.
   */
  ghost predicate Reads(data: seq<byte>, it: Item, end: nat, e: Entry, p: nat) {
    && e == Entry(it.shared, |Delta(it)|, |it.value|)
    && p + e.nonShared + e.valueLength == end <= |data|
    && data[p..p + e.nonShared] == Delta(it) && data[p + e.nonShared..p + e.nonShared + e.valueLength] == it.value
  }

  lemma Within(data: seq<byte>, o: nat, end: nat, s: seq<byte>, i: nat, j: nat)
    requires o <= end <= |data| && data[o..end] == s && i <= j <= |s|
    ensures data[o + i..o + j] == s[i..j]
  {
    var a := data[o + i..o + j];
    forall k | 0 <= k < |a|
      ensures a[k] == s[i..j][k]
    {
      assert a[k] == data[(o + i) + k];
      assert s[i..j][k] == data[o..end][i + k] == data[o + (i + k)];
    }
  }

  /** Decoding an encoded entry: its lengths are read, then its part of the key and its value follow. */
  lemma DecodesOne(it: Item, rest: seq<byte>)
    requires |Encode(it) + rest| < TWO_32
    ensures var s, q := Encode(it) + rest, |Lengths(it)|; var r := DecodeEntry(s);
      && r.Got? && r.value == Entry(it.shared, |Delta(it)|, |it.value|) && |r.rest| == |s| - q
      && |Encode(it)| == q + |Delta(it)| + |it.value|
      && s[q..q + |Delta(it)|] == Delta(it) && s[q + |Delta(it)|..|Encode(it)|] == it.value
  {
    DecodeEntryIs(it, rest);
    FourParts(Lengths(it), Delta(it), it.value, rest);
  }

  lemma FourParts(a: seq<byte>, b: seq<byte>, c: seq<byte>, d: seq<byte>)
    ensures var s := a + b + c + d;
      && s[|a|..|a| + |b|] == b && s[|a| + |b|..|a + b + c|] == c && |s| == |a| + |b + c + d|
  {
    assert (a + b + c)[..|a + b|] == a + b;
  }

  /** The data from an item's offset to the restart array. */
  lemma DataAt(data: seq<byte>, items: seq<Item>, i: nat) returns (rest: seq<byte>)
    requires Bytes(items, |items|) <= data && i < |items|
    ensures Off(items, i) <= Off(items, |items|) <= |data|
    ensures data[Off(items, i)..Off(items, |items|)] == Encode(items[i]) + rest
    ensures Off(items, i + 1) == Off(items, i) + |Encode(items[i])| <= Off(items, |items|)
  {
    rest := ItemAt(items, i);
    var all := Bytes(items, |items|);
    assert data[..|all|] == all;
    assert data[Off(items, i)..|all|] == all[Off(items, i)..];
  }

  /** Decoding at an item's offset succeeds and reads the item. */
  lemma DecodesAt(data: seq<byte>, items: seq<Item>, i: nat)
    requires Bytes(items, |items|) <= data && |data| < TWO_32 && i < |items|
    ensures DecodesTo(data, Off(items, |items|), items[i], Off(items, i), Off(items, i + 1))
  {
    hide Encode, DecodesTo, Bytes, Off;
    var rest := DataAt(data, items, i);
    DecodesSlice(data, Off(items, i), Off(items, |items|), items[i], rest);
  }

  /** Decoding at `at` reads the item, which ends at `end`. */
  ghost predicate DecodesTo(data: seq<byte>, restarts: nat, it: Item, at: nat, end: nat) {
    && at < end <= restarts <= |data| && DecodeEntry(data[at..restarts]).Got?
    && var r := DecodeEntry(data[at..restarts]);
       |r.rest| <= restarts && Reads(data, it, end, r.value, restarts - |r.rest|)
  }

  lemma DecodesSlice(data: seq<byte>, o: nat, end: nat, it: Item, rest: seq<byte>)
    requires o <= end <= |data| < TWO_32 && data[o..end] == Encode(it) + rest
    ensures DecodesTo(data, end, it, o, o + |Encode(it)|)
  {
    hide Encode, Lengths, DecodeEntry, Reads;
    var s, q := data[o..end], |Lengths(it)|;
    DecodesOne(it, rest);
    var r := DecodeEntry(s);
    Within(data, o, end, s, q, q + |Delta(it)|);
    Within(data, o, end, s, q + |Delta(it)|, |Encode(it)|);
    SlicesRead(data, it, o + |Encode(it)|, o + q);
    assert end - |r.rest| == o + q;
  }

  lemma SlicesRead(data: seq<byte>, it: Item, end: nat, p: nat)
    requires p + |Delta(it)| + |it.value| == end <= |data|
    requires data[p..p + |Delta(it)|] == Delta(it) && data[p + |Delta(it)|..end] == it.value
    ensures Reads(data, it, end, Entry(it.shared, |Delta(it)|, |it.value|), p)
  {
  }

  // ------------------------------------------------- what the iterator relies on

  /** Where the items begin, and where the last one ends. */
  ghost function Offsets(items: seq<Item>): (r: seq<nat>)
    ensures |r| == |items| + 1
  {
    seq(|items| + 1, i requires 0 <= i <= |items| => Off(items, i))
  }

  predicate Rises(s: seq<nat>, i: nat, j: nat) {
    i < |s| && j < |s| && s[i] < s[j]
  }

  ghost predicate Increasing(s: seq<nat>) {
    forall i: nat, j: nat :: i < j < |s| ==> Rises(s, i, j)
  }

  lemma Ordered(s: seq<nat>, i: nat, j: nat)
    requires Increasing(s) && i < |s| && j < |s|
    ensures s[i] < s[j] <==> i < j
  {
    assert i < j ==> Rises(s, i, j);
    assert j < i ==> Rises(s, j, i);
  }

  lemma OffsetsIncrease(items: seq<Item>)
    ensures Increasing(Offsets(items))
  {
    forall i: nat, j: nat | i < j <= |items|
      ensures Rises(Offsets(items), i, j)
    {
      BytesPrefix(items, i, j);
    }
  }

  /** A block and its items, with their offsets. */
  datatype Layout = Layout(data: seq<byte>, items: seq<Item>, starts: seq<nat>, offs: seq<nat>)

  ghost predicate Decodes(l: Layout, restarts: nat, i: nat) {
    i < |l.items| && i + 1 < |l.offs| && DecodesTo(l.data, restarts, l.items[i], l.offs[i], l.offs[i + 1])
  }

  ghost predicate LayoutOk(l: Layout, restarts: nat, numRestarts: nat) {
    && ItemsOk(l.items) && |l.offs| == |l.items| + 1 && restarts == l.offs[|l.items|] <= |l.data|
    && (forall i :: 0 <= i < |l.items| ==> Decodes(l, restarts, i))
    && PointsOk(l, restarts, numRestarts)
  }

  /** Restart points lead to items that share nothing, in order. */
  ghost predicate PointsOk(l: Layout, restarts: nat, numRestarts: nat) {
    && |l.offs| == |l.items| + 1 && Increasing(l.offs)
    && numRestarts == |l.starts| > 0 && l.starts[0] == 0
    && (forall r :: 0 < r < numRestarts ==> l.starts[r] < |l.items|)
    && Increasing(l.starts)
    && (forall r :: 0 <= r < numRestarts && l.starts[r] < |l.items| ==> l.items[l.starts[r]].shared == 0)
    && forall r :: 0 <= r < numRestarts ==> Word(l.data, restarts + 4 * r) == l.offs[l.starts[r]]
  }

  lemma BlockLayout(data: seq<byte>, items: seq<Item>, starts: seq<nat>)
    requires IsBlock(data, items, starts)
    ensures LayoutOk(Layout(data, items, starts, Offsets(items)), Off(items, |items|), |starts|)
  {
    var l := Layout(data, items, starts, Offsets(items));
    PointsAre(data, items, starts);
    EachDecodes(data, items, starts);
    assert Off(items, |items|) <= |data|;
    hide Decodes, PointsOk, StartsOk, ItemsOk, Words, Off;
  }

  lemma EachDecodes(data: seq<byte>, items: seq<Item>, starts: seq<nat>)
    requires Bytes(items, |items|) <= data && |data| < TWO_32
    ensures forall i :: 0 <= i < |items| ==>
              Decodes(Layout(data, items, starts, Offsets(items)), Off(items, |items|), i)
  {
    hide Decodes, DecodesTo, Bytes, Off, Offsets;
    forall i: nat | i < |items|
      ensures Decodes(Layout(data, items, starts, Offsets(items)), Off(items, |items|), i)
    {
      DecodesInLayout(data, items, starts, i);
    }
  }

  lemma DecodesInLayout(data: seq<byte>, items: seq<Item>, starts: seq<nat>, i: nat)
    requires Bytes(items, |items|) <= data && |data| < TWO_32 && i < |items|
    ensures Decodes(Layout(data, items, starts, Offsets(items)), Off(items, |items|), i)
  {
    hide DecodesTo, Bytes, Off, Offsets, Encode;
    OffsetAt(items, i);
    OffsetAt(items, i + 1);
    DecodesAt(data, items, i);
  }

  lemma OffsetAt(items: seq<Item>, i: nat)
    requires i <= |items|
    ensures Offsets(items)[i] == Off(items, i)
  {
  }

  lemma PointsAre(data: seq<byte>, items: seq<Item>, starts: seq<nat>)
    requires IsBlock(data, items, starts)
    ensures PointsOk(Layout(data, items, starts, Offsets(items)), Off(items, |items|), |starts|)
  {
    OffsetsIncrease(items);
    PointsRead(data, items, starts);
    hide ItemsOk, Words, Off, Word;
    assert forall r: nat, q: nat :: r < q < |starts| ==> Rises(starts, r, q);
  }

  lemma PointsRead(data: seq<byte>, items: seq<Item>, starts: seq<nat>)
    requires StartsOk(items, starts) && Words(data, Off(items, |items|), Points(items, starts))
    ensures forall r :: 0 <= r < |starts| ==> Word(data, Off(items, |items|) + 4 * r) == Offsets(items)[starts[r]]
  {
    forall r | 0 <= r < |starts|
      ensures Word(data, Off(items, |items|) + 4 * r) == Offsets(items)[starts[r]]
    {
      assert Points(items, starts)[r] == Off(items, starts[r]);
    }
  }

  // --------------------------------------------------------- one step of the loop

  /** Decodes item `i` over the key before it. */
  method Parse(data: seq<byte>, restarts: nat, current: nat, key: seq<byte>, ghost it: Item, ghost end: nat)
      returns (key2: seq<byte>, valueStart: nat, valueLength: nat)
    requires DecodesTo(data, restarts, it, current, end) && Supplies(key, it)
    ensures key2 == it.key && valueStart + valueLength == end && data[valueStart..end] == it.value
  {
    var r := DecodeEntry(data[current..restarts]);
    var p := restarts - |r.rest|;
    key2 := key[..r.value.shared] + data[p..p + r.value.nonShared];
    KeyJoined(it, key);
    valueStart, valueLength := p + r.value.nonShared, r.value.valueLength;
  }

  lemma KeyJoined(it: Item, key: seq<byte>)
    requires Supplies(key, it)
    ensures key[..it.shared] + Delta(it) == it.key
  {
    assert it.key == it.key[..it.shared] + it.key[it.shared..];
  }

  /** The restart point's offset. */
  method GetRestartPoint(data: seq<byte>, restarts: nat, numRestarts: nat, index: nat, ghost l: Layout)
      returns (offset: nat)
    requires data == l.data && PointsOk(l, restarts, numRestarts) && index < numRestarts
    ensures l.starts[index] <= |l.items| && offset == l.offs[l.starts[index]]
    ensures l.starts[index] < |l.items| ==> l.items[l.starts[index]].shared == 0
  {
    offset := Word(data, restarts + 4 * index);
  }

  /** Moves on to the last restart point before item `i`. */
  method NextRestart(data: seq<byte>, restarts: nat, numRestarts: nat, index: nat, current: nat, ghost l: Layout,
                     ghost i: nat) returns (r: nat)
    requires data == l.data && PointsOk(l, restarts, numRestarts) && index < numRestarts
    requires i <= |l.items| && current == l.offs[i] && l.starts[index] <= i
    ensures r < numRestarts && l.starts[r] <= i && (r + 1 < numRestarts ==> i <= l.starts[r + 1])
  {
    r := index;
    while r + 1 < numRestarts
      invariant r < numRestarts && l.starts[r] <= i
    {
      var offset := GetRestartPoint(data, restarts, numRestarts, r + 1, l);
      Ordered(l.offs, l.starts[r + 1], i);
      if offset >= current {
        break;
      }
      r := r + 1;
    }
  }

  /** The last restart point strictly before item `pos`, looking down from one at or before it. */
  method RestartBefore(data: seq<byte>, restarts: nat, numRestarts: nat, from: nat, original: nat, ghost l: Layout,
                       ghost pos: nat)
      returns (found: bool, index: nat)
    requires data == l.data && PointsOk(l, restarts, numRestarts) && from < numRestarts
    requires pos <= |l.items| && original == l.offs[pos] && l.starts[from] <= pos
    ensures found == (pos > 0) && (found ==> index < numRestarts && l.starts[index] < pos)
  {
    index := from;
    var offset := GetRestartPoint(data, restarts, numRestarts, index, l);
    Ordered(l.offs, l.starts[index], pos);
    while offset >= original
      invariant index < numRestarts && l.starts[index] <= pos
      invariant offset >= original <==> l.starts[index] >= pos
      decreases index
    {
      if index == 0 {
        return false, index;
      }
      Ordered(l.starts, index - 1, index);
      index := index - 1;
      offset := GetRestartPoint(data, restarts, numRestarts, index, l);
      Ordered(l.offs, l.starts[index], pos);
    }
    found := true;
  }

  /** An order of keys. */
  ghost predicate Transitive(lt: (seq<byte>, seq<byte>) -> bool) {
    forall a, b, c :: lt(a, b) && lt(b, c) ==> lt(a, c)
  }

  ghost predicate SortedBy(items: seq<Item>, lt: (seq<byte>, seq<byte>) -> bool) {
    forall i, j :: 0 <= i < j < |items| ==> lt(items[i].key, items[j].key)
  }

  /** Transitivity carries a key before the target to all keys before it. */
  lemma AllBefore(items: seq<Item>, lt: (seq<byte>, seq<byte>) -> bool, target: seq<byte>, i: nat)
    requires Transitive(lt) && SortedBy(items, lt) && i < |items| && lt(items[i].key, target)
    ensures forall j :: 0 <= j <= i ==> lt(items[j].key, target)
  {
  }

  /** The whole key at a restart point: it shares nothing. */
  method KeyAt(data: seq<byte>, restarts: nat, at: nat, ghost it: Item, ghost end: nat) returns (key: seq<byte>)
    requires DecodesTo(data, restarts, it, at, end) && it.shared == 0
    ensures key == it.key
  {
    var r := DecodeEntry(data[at..restarts]);
    var p := restarts - |r.rest|;
    key := data[p..p + r.value.nonShared];
  }

  /** Binary search for a restart point with a key before the target; the first will do if there is none. */
  method SearchRestarts(data: seq<byte>, restarts: nat, numRestarts: nat, lt: (seq<byte>, seq<byte>) -> bool,
                        target: seq<byte>, ghost l: Layout) returns (left: nat)
    requires data == l.data && LayoutOk(l, restarts, numRestarts)
    ensures left < numRestarts
    ensures left > 0 ==> l.starts[left] < |l.items| && lt(l.items[l.starts[left]].key, target)
  {
    left := 0;
    var right := numRestarts - 1;
    while left < right
      invariant left <= right < numRestarts
      invariant left > 0 ==> l.starts[left] < |l.items| && lt(l.items[l.starts[left]].key, target)
    {
      var mid := (left + right + 1) / 2;
      var offset := GetRestartPoint(data, restarts, numRestarts, mid, l);
      assert Decodes(l, restarts, l.starts[mid]);
      var midKey := KeyAt(data, restarts, offset, l.items[l.starts[mid]], l.offs[l.starts[mid] + 1]);
      if lt(midKey, target) {
        left := mid;
      } else {
        right := mid - 1;
      }
    }
  }

  /** `pos` is the first item whose key is not before the target. */
  ghost predicate IsSeek(items: seq<Item>, lt: (seq<byte>, seq<byte>) -> bool, target: seq<byte>, pos: nat) {
    && pos <= |items| && (forall j :: 0 <= j < pos ==> lt(items[j].key, target))
    && (pos < |items| ==> !lt(items[pos].key, target))
  }

  class BlockIter {
    const data: seq<byte>
    const restarts: nat
    const numRestarts: nat
    const lt: (seq<byte>, seq<byte>) -> bool
    ghost const l: Layout
    var current: nat
    var restartIndex: nat
    var key: seq<byte>
    var valueStart: nat
    var valueLength: nat

    ghost predicate Ok() {
      data == l.data && LayoutOk(l, restarts, numRestarts)
    }

    /** The iterator is at item `i`, or not valid if `i` is the number of items. */
    ghost predicate At(i: nat)
      requires Ok()
      reads this
    {
      if i < |l.items| then
        && current == l.offs[i] && key == l.items[i].key
        && valueStart + valueLength == l.offs[i + 1] && valueStart + valueLength <= |data|
        && data[valueStart..valueStart + valueLength] == l.items[i].value
        && restartIndex < numRestarts && l.starts[restartIndex] <= i
        && (restartIndex + 1 < numRestarts ==> i <= l.starts[restartIndex + 1])
      else i == |l.items| && current == restarts && restartIndex == numRestarts
    }

    /** The next entry to decode is item `i`. */
    ghost predicate Ready(i: nat)
      requires Ok()
      reads this
    {
      && i <= |l.items| && valueStart + valueLength == l.offs[i]
      && restartIndex < numRestarts && l.starts[restartIndex] <= i
      && (i < |l.items| ==> Supplies(key, l.items[i]))
    }

    predicate Valid()
      reads this
    {
      current < restarts
    }

    constructor (data: seq<byte>, lt: (seq<byte>, seq<byte>) -> bool, ghost items: seq<Item>, ghost starts: seq<nat>)
      requires IsBlock(data, items, starts)
      ensures Ok() && this.lt == lt && l.items == items && At(|items|)
    {
      BlockLayout(data, items, starts);
      this.data, this.lt := data, lt;
      this.l := Layout(data, items, starts, Offsets(items));
      numRestarts := Word(data, |data| - 4);
      restarts := |data| - (1 + Word(data, |data| - 4)) * 4;
      current := |data| - (1 + Word(data, |data| - 4)) * 4;
      restartIndex := Word(data, |data| - 4);
      key, valueStart, valueLength := [], 0, 0;
    }

    method SeekToRestartPoint(index: nat)
      requires Ok() && index < numRestarts
      modifies this
      ensures Ready(l.starts[index]) && restartIndex == index
    {
      key := [];
      restartIndex := index;
      valueStart := GetRestartPoint(data, restarts, numRestarts, index, l);
      valueLength := 0;
    }

    method ParseNextKey(ghost i: nat) returns (more: bool)
      requires Ok() && Ready(i)
      modifies this
      ensures At(i) && more == (i < |l.items|)
    {
      current := valueStart + valueLength;
      Ordered(l.offs, i, |l.items|);
      if current >= restarts {
        current := restarts;
        restartIndex := numRestarts;
        return false;
      }
      assert Decodes(l, restarts, i);
      key, valueStart, valueLength := Parse(data, restarts, current, key, l.items[i], l.offs[i + 1]);
      restartIndex := NextRestart(data, restarts, numRestarts, restartIndex, current, l, i);
      return true;
    }

    method Next(ghost pos: nat)
      requires Ok() && At(pos) && pos < |l.items|
      modifies this
      ensures At(pos + 1)
    {
      assert pos + 1 < |l.items| ==> Follows(l.items, pos + 1);
      var more := ParseNextKey(pos + 1);
    }

    /** Back to the item before: from the last restart point before the current entry, decode up to it. */
    method Prev(ghost pos: nat)
      requires Ok() && At(pos) && pos < |l.items|
      modifies this
      ensures At(if pos == 0 then |l.items| else pos - 1)
    {
      var original := current;
      var found, index := RestartBefore(data, restarts, numRestarts, restartIndex, original, l, pos);
      if !found {
        current := restarts;
        restartIndex := numRestarts;
        return;
      }
      SeekToRestartPoint(index);
      ScanTo(original, l.starts[index], pos);
    }

    /** Decodes from item `i` on until an entry ends at the offset `limit`, which is where item `pos` begins. */
    method ScanTo(limit: nat, ghost i: nat, ghost pos: nat)
      requires Ok() && Ready(i) && i <= pos <= |l.items| && limit == l.offs[pos] && (i == pos ==> pos == |l.items|)
      modifies this
      ensures At(if i == pos then pos else pos - 1)
    {
      ghost var k := i;
      var more := ParseNextKey(k);
      assert more ==> (valueStart + valueLength < limit <==> k + 1 < pos) by {
        if more {
          Ordered(l.offs, k + 1, pos);
        }
      }
      while more && valueStart + valueLength < limit
        invariant more ==> (valueStart + valueLength < limit <==> k + 1 < pos)
        invariant i <= k <= pos && At(k) && more == (k < |l.items|) && (k == pos ==> i == pos)
        decreases pos - k
      {
        k := k + 1;
        more := ParseAfter(k - 1);
        if more {
          Ordered(l.offs, k + 1, pos);
        }
      }
    }

    /** Decodes the entry after item `pos`. */
    method ParseAfter(ghost pos: nat) returns (more: bool)
      requires Ok() && At(pos) && pos < |l.items|
      modifies this
      ensures At(pos + 1) && more == (pos + 1 < |l.items|)
    {
      assert pos + 1 < |l.items| ==> Follows(l.items, pos + 1);
      more := ParseNextKey(pos + 1);
    }

    /** To the first entry at or after the target. */
    method Seek(target: seq<byte>) returns (ghost pos: nat)
      requires Ok() && Transitive(lt) && SortedBy(l.items, lt)
      modifies this
      ensures At(pos) && IsSeek(l.items, lt, target, pos)
    {
      var left := SearchRestarts(data, restarts, numRestarts, lt, target, l);
      pos := l.starts[left];
      if left > 0 {
        AllBefore(l.items, lt, target, pos);
      }
      SeekToRestartPoint(left);
      pos := SeekFrom(target, pos);
    }

    /** Decodes entries until one is not before the target. */
    method SeekFrom(target: seq<byte>, ghost i: nat) returns (ghost pos: nat)
      requires Ok() && Ready(i) && forall j :: 0 <= j < i ==> lt(l.items[j].key, target)
      modifies this
      ensures At(pos) && IsSeek(l.items, lt, target, pos)
    {
      pos := i;
      var more := ParseNextKey(pos);
      while more && lt(key, target)
        invariant At(pos) && more == (pos < |l.items|) && forall j :: 0 <= j < pos ==> lt(l.items[j].key, target)
        decreases |l.items| - pos
      {
        more := ParseAfter(pos);
        pos := pos + 1;
      }
    }

    method SeekToFirst()
      requires Ok()
      modifies this
      ensures At(0)
    {
      SeekToRestartPoint(0);
      var more := ParseNextKey(0);
    }

    method SeekToLast()
      requires Ok()
      modifies this
      ensures At(if |l.items| == 0 then 0 else |l.items| - 1)
    {
      SeekToRestartPoint(numRestarts - 1);
      ScanTo(restarts, l.starts[numRestarts - 1], |l.items|);
    }
  }

  /** Reading a block from its first entry to its last. */
  method ReadAll(data: seq<byte>, lt: (seq<byte>, seq<byte>) -> bool, ghost items: seq<Item>, ghost starts: seq<nat>)
      returns (read: seq<(seq<byte>, seq<byte>)>)
    requires IsBlock(data, items, starts)
    ensures read == Pairs(items)
  {
    var it := new BlockIter(data, lt, items, starts);
    read := [];
    it.SeekToFirst();
    ghost var pos := 0;
    AtValid(it, pos);
    while it.Valid()
      invariant it.Ok() && it.l.items == items && it.At(pos) && pos <= |items|
      invariant it.Valid() <==> pos < |items|
      invariant read == Pairs(items)[..pos]
      decreases |items| - pos
    {
      read := read + [(it.key, it.data[it.valueStart..it.valueStart + it.valueLength])];
      it.Next(pos);
      pos := pos + 1;
      AtValid(it, pos);
    }
  }

  lemma AtValid(it: BlockIter, pos: nat)
    requires it.Ok() && it.At(pos)
    ensures it.Valid() <==> pos < |it.l.items|
  {
    if pos < |it.l.items| {
      Ordered(it.l.offs, pos, |it.l.items|);
    }
  }

  /** The items of a block with these entries. */
  function CompressedItems(entries: seq<(seq<byte>, seq<byte>)>, interval: nat, n: nat): (r: seq<Item>)
    requires n <= |entries| && forall i :: 0 <= i < n ==> |entries[i].0| < TWO_31 && |entries[i].1| < TWO_31
    ensures |r| == n
  {
    if n == 0 then []
    else
      var before, e := CompressedItems(entries, interval, n - 1), entries[n - 1];
      before + [RawItem(if Restarts(n - 1, interval) then 0 else Common(KeyBefore(before, n - 1), e.0), e.0, e.1)]
  }

  /** The size of a block with these entries: the items, a word for every restart point, and their number. */
  function BlockSize(entries: seq<(seq<byte>, seq<byte>)>, interval: nat): nat
    requires forall i :: 0 <= i < |entries| ==> |entries[i].0| < TWO_31 && |entries[i].1| < TWO_31
  {
    Off(CompressedItems(entries, interval, |entries|), |entries|) + 4 * |StartsFor(|entries|, interval)| + 4
  }

  lemma CompressedBefore(items: seq<Item>, interval: nat, n: nat)
    requires Compressed(items, interval) && n < |items|
    ensures Compressed(items[..n], interval)
    ensures items[n].shared == if Restarts(n, interval) then 0 else Common(KeyBefore(items[..n], n), items[n].key)
  {
    forall k: nat | k <= n
      ensures KeyBefore(items[..n], k) == KeyBefore(items, k)
      ensures items[k].shared == SharedAt(items, k, interval)
    {
    }
  }

  lemma PairsBefore(entries: seq<(seq<byte>, seq<byte>)>, items: seq<Item>, n: nat)
    requires n < |entries| && Pairs(items) == entries[..n + 1]
    ensures |items| == n + 1 && Pairs(items[..n]) == entries[..n] && entries[n] == (items[n].key, items[n].value)
  {
    assert Pairs(items[..n]) == Pairs(items)[..n] == entries[..n];
    assert Pairs(items)[n] == entries[..n + 1][n];
  }

  lemma LastItem(entries: seq<(seq<byte>, seq<byte>)>, interval: nat, items: seq<Item>, n: nat)
    requires n < |entries| && forall i :: 0 <= i <= n ==> |entries[i].0| < TWO_31 && |entries[i].1| < TWO_31
    requires |items| == n + 1 && items[..n] == CompressedItems(entries, interval, n)
    requires entries[n] == (items[n].key, items[n].value)
    requires items[n].shared == if Restarts(n, interval) then 0 else Common(KeyBefore(items[..n], n), items[n].key)
    ensures items == CompressedItems(entries, interval, n + 1)
  {
    hide Restarts, Common, KeyBefore;
    assert items == items[..n] + [items[n]];
  }

  lemma {:induction false} ItemsAre(entries: seq<(seq<byte>, seq<byte>)>, interval: nat, items: seq<Item>, n: nat)
    requires n <= |entries| && forall i :: 0 <= i < n ==> |entries[i].0| < TWO_31 && |entries[i].1| < TWO_31
    requires Compressed(items, interval) && Pairs(items) == entries[..n]
    ensures items == CompressedItems(entries, interval, n)
  {
    if n > 0 {
      hide Compressed, Restarts, Common, Pairs, CompressedItems;
      CompressedBefore(items, interval, n - 1);
      PairsBefore(entries, items, n - 1);
      ItemsAre(entries, interval, items[..n - 1], n - 1);
      LastItem(entries, interval, items, n - 1);
    }
  }

  lemma NoPairs()
    ensures Pairs([]) == []
  {
  }

  lemma BuiltSize(entries: seq<(seq<byte>, seq<byte>)>, interval: nat, items: seq<Item>, starts: seq<nat>)
    requires forall i :: 0 <= i < |entries| ==> |entries[i].0| < TWO_31 && |entries[i].1| < TWO_31
    requires Compressed(items, interval) && Pairs(items) == entries && starts == StartsFor(|items|, interval)
    ensures BlockSize(entries, interval) == Off(items, |items|) + 4 * |starts| + 4
  {
    ItemsAre(entries, interval, items, |entries|);
  }

  /** A block built from the entries reads back as the entries, for any restart interval. */
  method BuildAndRead(entries: seq<(seq<byte>, seq<byte>)>, interval: nat, lt: (seq<byte>, seq<byte>) -> bool)
      returns (fits: bool, read: seq<(seq<byte>, seq<byte>)>)
    requires interval >= 1 && forall i :: 0 <= i < |entries| ==> |entries[i].0| < TWO_31 && |entries[i].1| < TWO_31
    ensures fits <==> BlockSize(entries, interval) < TWO_32
    ensures fits ==> read == entries
  {
    hide Compressed, CompressedItems, StartsFor, IsBlock, Pairs;
    var b := new BlockBuilder(interval);
    NoPairs();
    for i := 0 to |entries|
      invariant b.Valid() && b.interval == interval && Pairs(b.items) == entries[..i]
    {
      b.Add(entries[i].0, entries[i].1);
    }
    BuiltSize(entries, interval, b.items, b.starts);
    fits, read := b.CurrentSizeEstimate() < TWO_32, [];
    if fits {
      var data := b.Finish();
      read := ReadAll(data, lt, b.items, b.starts);
    }
  }
}
