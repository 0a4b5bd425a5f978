/** The filter block: one filter for every 2 KB of file offset, found again from a block's offset. */
module FilterBlocks {
  import opened BloomFilters

  const BASE_LG: nat := 11
  const BASE: nat := 2048

  /** The finished block: the filters' bytes, where each begins, and then where the bytes end; all words are 32 bits. */
  datatype FilterBlock = FilterBlock(data: seq<bv8>, words: seq<nat>, baseLg: nat)

  function ShiftRight(n: nat, k: nat): nat {
    if k == 0 then n else ShiftRight(n / 2, k - 1)
  }

  lemma ShiftFive(n: nat)
    ensures n / 2 / 2 / 2 / 2 / 2 == n / 32
    ensures forall k: nat :: ShiftRight(n, k + 5) == ShiftRight(n / 32, k)
  {
    assert n / 2 / 2 == n / 4 && n / 4 / 2 == n / 8 && n / 8 / 2 == n / 16 && n / 16 / 2 == n / 32;
    forall k: nat
      ensures ShiftRight(n, k + 5) == ShiftRight(n / 32, k)
    {
      assert ShiftRight(n, k + 5) == ShiftRight(n / 2, k + 4) == ShiftRight(n / 2 / 2, k + 3);
      assert ShiftRight(n / 4, k + 3) == ShiftRight(n / 8, k + 2) == ShiftRight(n / 16, k + 1) == ShiftRight(n / 32, k);
    }
  }

  lemma ShiftByBase(n: nat)
    ensures ShiftRight(n, BASE_LG) == n / BASE
  {
    ShiftFive(n);
    ShiftFive(n / 32);
    assert ShiftRight(n, 11) == ShiftRight(n / 32, 6) == ShiftRight(n / 32 / 32, 1) == n / 2048;
  }

  /** Where filter `i` of the groups begins, and its bytes, given the filter made for each group. */
  ghost predicate Holds(b: Policy, result: seq<bv8>, offsets: seq<nat>, groups: seq<seq<Key>>) {
    && |offsets| == |groups|
    && (forall i :: 0 <= i < |groups| ==> FilterAt(b, result, offsets + [|result|], groups[i], i))
  }

  /** Filter `i` lies between two offsets: empty for no keys, else a filter of the group's keys. */
  ghost predicate FilterAt(b: Policy, result: seq<bv8>, words: seq<nat>, group: seq<Key>, i: nat) {
    && i + 1 < |words| && words[i] <= words[i + 1] <= |result|
    && (group != [] ==> IsFilter(b, group, result[words[i]..words[i + 1]]))
  }

  /** Bytes and offsets added at the end leave earlier filters where they are. */
  lemma FilterStays(b: Policy, result: seq<bv8>, words: seq<nat>, group: seq<Key>, i: nat, more: seq<bv8>,
                    words2: seq<nat>)
    requires FilterAt(b, result, words, group, i) && |words| <= |words2| && words2[..|words|] == words
    ensures FilterAt(b, result + more, words2, group, i)
  {
    assert words2[i] == words2[..|words|][i] && words2[i + 1] == words2[..|words|][i + 1];
    assert (result + more)[words[i]..words[i + 1]] == result[words[i]..words[i + 1]];
  }

  lemma GroupAdded(b: Policy, result: seq<bv8>, offsets: seq<nat>, groups: seq<seq<Key>>, keys: seq<Key>,
                   filter: seq<bv8>)
    requires Holds(b, result, offsets, groups)
    requires if keys == [] then filter == [] else IsFilter(b, keys, filter)
    ensures Holds(b, result + filter, offsets + [|result|], groups + [keys])
  {
    var all, n := groups + [keys], |groups|;
    var words2 := offsets + [|result|] + [|result + filter|];
    forall i | 0 <= i < |all|
      ensures FilterAt(b, result + filter, words2, all[i], i)
    {
      if i < n {
        assert words2[..|offsets| + 1] == offsets + [|result|];
        FilterStays(b, result, offsets + [|result|], groups[i], i, filter, words2);
      } else {
        assert (result + filter)[|result|..|result + filter|] == filter;
        assert words2[n] == |result| && words2[n + 1] == |result + filter|;
      }
    }
  }

  /** A key of a block: the block's file offset and the key. */
  type Added = (nat, Key)

  /** Every key added so far is in the group of its block's offset, the last group still being collected. */
  ghost predicate Grouped(added: set<Added>, groups: seq<seq<Key>>, keys: seq<Key>) {
    forall a :: a in added ==>
      (a.0 / BASE < |groups| && a.1 in groups[a.0 / BASE]) || (a.0 / BASE == |groups| && a.1 in keys)
  }

  class FilterBlockBuilder {
    const policy: Policy
    var keys: seq<Key>
    var result: seq<bv8>
    var filterOffsets: seq<nat>
    ghost var groups: seq<seq<Key>>
    ghost var block: nat
    ghost var added: set<Added>

    ghost predicate Valid()
      reads this
    {
      && PolicyOk(policy) && Holds(policy, result, filterOffsets, groups)
      && Grouped(added, groups, keys) && block / BASE == |groups|
    }

    constructor (policy: Policy)
      requires PolicyOk(policy)
      ensures Valid() && this.policy == policy && added == {} && block == 0
    {
      this.policy := policy;
      keys, result, filterOffsets, groups, block, added := [], [], [], [], 0, {};
    }

    method GenerateFilter()
      requires PolicyOk(policy) && Holds(policy, result, filterOffsets, groups) && Grouped(added, groups, keys)
      modifies `keys, `result, `filterOffsets, `groups
      ensures Holds(policy, result, filterOffsets, groups) && Grouped(added, groups, keys)
      ensures groups == old(groups) + [old(keys)] && keys == []
    {
      var filter := [];
      if keys != [] {
        filter := CreateFilter(policy, keys);
      }
      GroupAdded(policy, result, filterOffsets, groups, keys, filter);
      filterOffsets := filterOffsets + [|result|];
      result := result + filter;
      groups := groups + [keys];
      keys := [];
    }

    /** The block at this offset begins; the blocks come in the order of their offsets. */
    method StartBlock(blockOffset: nat)
      requires Valid() && block <= blockOffset
      modifies this
      ensures Valid() && added == old(added) && block == blockOffset
    {
      var filterIndex := blockOffset / BASE;
      assert filterIndex >= |filterOffsets|;
      while filterIndex > |filterOffsets|
        invariant |filterOffsets| <= filterIndex && added == old(added) && PolicyOk(policy)
        invariant Holds(policy, result, filterOffsets, groups) && Grouped(added, groups, keys)
        decreases filterIndex - |filterOffsets|
      {
        GenerateFilter();
      }
      block := blockOffset;
    }

    method AddKey(key: Key)
      requires Valid()
      modifies this
      ensures Valid() && added == old(added) + {(block, key)} && block == old(block)
    {
      keys := keys + [key];
      added := added + {(block, key)};
    }

    method Finish() returns (f: FilterBlock)
      requires Valid()
      modifies this
      ensures Answers(policy, f, old(added))
    {
      if keys != [] {
        GenerateFilter();
      }
      f := FilterBlock(result, filterOffsets + [|result|], BASE_LG);
      FinishedAnswers(policy, f, groups, added);
    }
  }

  /** The reader's answer; no filter for an offset means maybe. */
  method KeyMayMatchAt(policy: Policy, f: FilterBlock, blockOffset: nat, key: Key) returns (r: bool)
    ensures r == MayMatchAt(policy, f, blockOffset, key)
  {
    var index := ShiftRight(blockOffset, f.baseLg);
    if index + 1 < |f.words| {
      var start, limit := f.words[index], f.words[index + 1];
      if start <= limit && limit <= |f.data| {
        r := KeyMayMatch(policy, key, f.data[start..limit]);
        return;
      } else if start == limit {
        return false;
      }
    }
    return true;
  }

  ghost predicate MayMatchAt(policy: Policy, f: FilterBlock, blockOffset: nat, key: Key) {
    var index := ShiftRight(blockOffset, f.baseLg);
    index + 1 < |f.words| ==>
      var start, limit := f.words[index], f.words[index + 1];
      if start <= limit <= |f.data| then MayMatch(policy, key, f.data[start..limit]) else start != limit
  }

  /** No key added under a block's offset is denied at that offset. */
  ghost predicate Answers(policy: Policy, f: FilterBlock, added: set<Added>) {
    forall a :: a in added ==> MayMatchAt(policy, f, a.0, a.1)
  }

  lemma FinishedAnswers(policy: Policy, f: FilterBlock, groups: seq<seq<Key>>, added: set<Added>)
    requires f.baseLg == BASE_LG && |f.words| == |groups| + 1 && f.words[|groups|] == |f.data|
    requires Holds(policy, f.data, f.words[..|groups|], groups) && Grouped(added, groups, [])
    ensures Answers(policy, f, added)
  {
    forall a | a in added
      ensures MayMatchAt(policy, f, a.0, a.1)
    {
      var i := a.0 / BASE;
      ShiftByBase(a.0);
      assert f.words[..|groups|] + [|f.data|] == f.words;
      assert FilterAt(policy, f.data, f.words, groups[i], i);
      AddedKeyMatches(policy, groups[i], f.data[f.words[i]..f.words[i + 1]], a.1);
    }
  }
}
