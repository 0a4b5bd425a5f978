/** Tables: blocks of sorted entries, an index of separators, a filter, and point lookup through them. */
module Tables {
  import opened Wrappers
  import opened BloomFilters
  import opened FilterBlocks
  import opened Separators

  datatype Entry = Entry(key: IKey, value: string)

  datatype Table = Table(blocks: seq<seq<Entry>>, index: seq<IKey>, offsets: seq<nat>, filter: Option<FilterBlock>)

  ghost predicate Ascending(es: seq<Entry>) {
    forall a, b :: 0 <= a < b < |es| ==> ILess(es[a].key, es[b].key)
  }

  function First(b: seq<Entry>): IKey
    requires b != []
  {
    b[0].key
  }

  function Last(b: seq<Entry>): IKey
    requires b != []
  {
    b[|b| - 1].key
  }

  /** Block `i` is sorted, and the index key for it separates it from the next block. */
  ghost predicate BlockOk(blocks: seq<seq<Entry>>, index: seq<IKey>, i: nat)
    requires i < |blocks| && i < |index|
  {
    && blocks[i] != [] && Ascending(blocks[i])
    && if i + 1 < |blocks| then
         blocks[i + 1] != [] && ILess(Last(blocks[i]), First(blocks[i + 1]))
             && Separates(Last(blocks[i]), index[i], First(blocks[i + 1]))
       else Succeeds(Last(blocks[i]), index[i])
  }

  /** No filter denies a user key that its block holds. */
  ghost predicate FilterOk(policy: Policy, t: Table) {
    t.filter.Some? ==>
      forall i, j :: 0 <= i < |t.blocks| && 0 <= j < |t.blocks[i]| && i < |t.offsets| ==>
        MayMatchAt(policy, t.filter.value, t.offsets[i], t.blocks[i][j].key.user)
  }

  ghost predicate TableOk(policy: Policy, t: Table) {
    && |t.index| == |t.offsets| == |t.blocks|
    && (forall i :: 0 <= i < |t.blocks| ==> BlockOk(t.blocks, t.index, i))
    && FilterOk(policy, t)
  }

  predicate Earlier(i: nat, j: nat, m: nat, n: nat) {
    i < m || (i == m && j < n)
  }

  /** The first entry of the whole table at or after `k` is entry `j` of block `i`. */
  ghost predicate IsFirst(t: Table, k: IKey, i: nat, j: nat) {
    && i < |t.blocks| && j < |t.blocks[i]| && AtLeast(t.blocks[i][j].key, k)
    && forall m: nat, n: nat :: m < |t.blocks| && n < |t.blocks[m]| && Earlier(m, n, i, j) ==>
          ILess(t.blocks[m][n].key, k)
  }

  /** The first of the keys at or after `k`, as a block's iterator finds it. */
  function SeekPos(keys: seq<IKey>, k: IKey): (pos: nat)
    ensures pos <= |keys| && (forall i :: 0 <= i < pos ==> ILess(keys[i], k))
            && (pos < |keys| ==> AtLeast(keys[pos], k))
  {
    if keys == [] || AtLeast(keys[0], k) then 0 else SeekPos(keys[1..], k) + 1
  }

  function Keys(b: seq<Entry>): (r: seq<IKey>)
    ensures |r| == |b| && forall i :: 0 <= i < |b| ==> r[i] == b[i].key
  {
    seq(|b|, i requires 0 <= i < |b| => b[i].key)
  }

  lemma LastIsLargest(b: seq<Entry>, j: nat)
    requires Ascending(b) && j < |b|
    ensures AtLeast(Last(b), b[j].key)
  {
    ILessTotal(Last(b), b[j].key);
    if j < |b| - 1 {
      assert ILess(b[j].key, b[|b| - 1].key);
    }
  }

  /** An index key is at or after every key of its block. */
  lemma IndexCovers(policy: Policy, t: Table, i: nat, j: nat)
    requires TableOk(policy, t) && i < |t.blocks| && j < |t.blocks[i]|
    ensures AtLeast(t.index[i], t.blocks[i][j].key)
  {
    assert BlockOk(t.blocks, t.index, i);
    var last := Last(t.blocks[i]);
    LastIsLargest(t.blocks[i], j);
    ILessTotal(last, t.index[i]);
    ILessTotal(t.index[i], t.blocks[i][j].key);
    if ILess(t.index[i], t.blocks[i][j].key) && t.index[i] != last {
      ILessTransitive(last, t.index[i], t.blocks[i][j].key);
    }
  }

  /** Entries of blocks before the one the index leads to are before the key. */
  lemma SkippedBlocks(policy: Policy, t: Table, k: IKey, i: nat, j: nat)
    requires TableOk(policy, t) && i < SeekPos(t.index, k) && i < |t.blocks| && j < |t.blocks[i]|
    ensures ILess(t.blocks[i][j].key, k)
  {
    IndexCovers(policy, t, i, j);
    AtLeastThen(t.blocks[i][j].key, t.index[i], k);
  }

  /** If the first entry at or after `k` has its user key, the index leads to its block. */
  lemma IndexLeadsThere(policy: Policy, t: Table, k: IKey, m: nat, n: nat)
    requires TableOk(policy, t) && IsFirst(t, k, m, n) && t.blocks[m][n].key.user == k.user
    ensures SeekPos(t.index, k) == m
  {
    var i := SeekPos(t.index, k);
    IndexCovers(policy, t, m, n);
    if i > m {
      AtLeastThen(t.blocks[m][n].key, t.index[m], k);
    }
    if i < m {
      NotBefore(policy, t, k, i, m, n);
    }
  }

  /**
   * An index key of an earlier block at or after `k` would lie below the next block, whose first
   * user key is above it.
   */
  lemma NotBefore(policy: Policy, t: Table, k: IKey, i: nat, m: nat, n: nat)
    requires TableOk(policy, t) && IsFirst(t, k, m, n) && t.blocks[m][n].key.user == k.user && i < m
    ensures ILess(t.index[i], k)
  {
    assert BlockOk(t.blocks, t.index, i) && BlockOk(t.blocks, t.index, m);
    var b, c := t.blocks[i], t.blocks[i + 1];
    assert Earlier(i, |b| - 1, m, n);
    if t.index[i] != Last(b) {
      if i + 1 == m && n == 0 {
        assert Less(t.index[i].user, k.user);
      } else {
        assert Earlier(i + 1, 0, m, n);
        ILessTransitive(t.index[i], First(c), k);
      }
    }
  }

  /**
   * InternalGet: at most one block is read. What it reports is the first entry of the whole table at
   * or after `k`; and it does report that entry whenever it is an entry of the key looked for.
   */
  method InternalGet(policy: Policy, t: Table, k: IKey) returns (r: Option<Entry>)
    requires TableOk(policy, t)
    ensures r.Some? ==> exists i: nat, j: nat :: IsFirst(t, k, i, j) && r.value == t.blocks[i][j]
    ensures forall i: nat, j: nat :: IsFirst(t, k, i, j) && t.blocks[i][j].key.user == k.user ==>
              r == Some(t.blocks[i][j])
  {
    var i := SeekPos(t.index, k);
    r := None;
    if i < |t.index| {
      var may := true;
      if t.filter.Some? {
        may := KeyMayMatchAt(policy, t.filter.value, t.offsets[i], k.user);
      }
      if may {
        r := SeekInBlock(policy, t, k, i);
      }
    }
    forall m: nat, n: nat | IsFirst(t, k, m, n) && t.blocks[m][n].key.user == k.user
      ensures r == Some(t.blocks[m][n])
    {
      IndexLeadsThere(policy, t, k, m, n);
      IsFirstInBlock(t, k, m, n);
    }
  }

  lemma IsFirstInBlock(t: Table, k: IKey, m: nat, n: nat)
    requires IsFirst(t, k, m, n)
    ensures SeekPos(Keys(t.blocks[m]), k) == n
  {
    var j := SeekPos(Keys(t.blocks[m]), k);
    assert j < n ==> Earlier(m, j, m, n);
  }

  method SeekInBlock(policy: Policy, t: Table, k: IKey, i: nat) returns (r: Option<Entry>)
    requires TableOk(policy, t) && i == SeekPos(t.index, k) && i < |t.index|
    ensures var j := SeekPos(Keys(t.blocks[i]), k);
      if j < |t.blocks[i]| then IsFirst(t, k, i, j) && r == Some(t.blocks[i][j]) else r == None
  {
    var j := SeekPos(Keys(t.blocks[i]), k);
    forall m: nat, n: nat | m < |t.blocks| && n < |t.blocks[m]| && Earlier(m, n, i, j)
      ensures ILess(t.blocks[m][n].key, k)
    {
      if m < i {
        SkippedBlocks(policy, t, k, m, n);
      } else {
        assert ILess(Keys(t.blocks[i])[n], k);
      }
    }
    r := if j < |t.blocks[i]| then Some(t.blocks[i][j]) else None;
  }
}
