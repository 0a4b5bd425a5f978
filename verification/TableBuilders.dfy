/** The table builder: index entries are put off until the next block's first key is known. */
module TableBuilders {
  import opened Wrappers
  import opened BloomFilters
  import opened FilterBlocks
  import opened Sequences
  import opened Separators
  import opened Tables

  const TRAILER: nat := 5

  /** What has been written and the block under construction. */
  datatype Built = Built(blocks: seq<seq<Entry>>, open: seq<Entry>, index: seq<IKey>, pending: bool)

  ghost predicate Link(a: seq<Entry>, sep: IKey, b: seq<Entry>) {
    a != [] && b != [] && ILess(Last(a), First(b)) && Separates(Last(a), sep, First(b))
  }

  /** Blocks are sorted; each index entry made so far separates its block from what follows it. */
  ghost predicate BuiltOk(s: Built) {
    && (forall i :: 0 <= i < |s.blocks| ==> s.blocks[i] != [] && Ascending(s.blocks[i])) && Ascending(s.open)
    && |s.index| == |s.blocks| - (if s.pending then 1 else 0)
    && (s.pending ==> s.open == [] && s.blocks != [])
    && (!s.pending && s.blocks != [] ==> s.open != [])
    && forall i :: 0 <= i < |s.index| ==> LinkAt(s, i)
  }

  /** Index entry `i` separates block `i` from the block after it. */
  ghost predicate LinkAt(s: Built, i: nat)
    requires i < |s.blocks| && i < |s.index|
  {
    Link(s.blocks[i], s.index[i], if i + 1 < |s.blocks| then s.blocks[i + 1] else s.open)
  }

  /** The last key added, if any. */
  ghost predicate IsLast(s: Built, lastKey: IKey) {
    if s.open != [] then lastKey == Last(s.open)
    else s.blocks != [] ==> s.blocks[|s.blocks| - 1] != [] && lastKey == Last(s.blocks[|s.blocks| - 1])
  }

  /** The separator is entered once the next key is there. */
  lemma EntryAdded(s: Built, sep: IKey, e: Entry, lastKey: IKey)
    requires BuiltOk(s) && s.pending && IsLast(s, lastKey) && ILess(lastKey, e.key) && Separates(lastKey, sep, e.key)
    ensures BuiltOk(Built(s.blocks, [e], s.index + [sep], false))
  {
    var s2 := Built(s.blocks, [e], s.index + [sep], false);
    forall i | 0 <= i < |s2.index|
      ensures LinkAt(s2, i)
    {
      assert i < |s.index| ==> LinkAt(s, i);
    }
  }

  lemma KeyAdded(s: Built, e: Entry, lastKey: IKey)
    requires BuiltOk(s) && !s.pending && IsLast(s, lastKey) && (s.open != [] ==> ILess(lastKey, e.key))
             && (s.open == [] ==> s.blocks == [])
    ensures BuiltOk(s.(open := s.open + [e]))
  {
    AscendingSnoc(s.open, e);
    var s2 := s.(open := s.open + [e]);
    forall i | 0 <= i < |s2.index|
      ensures LinkAt(s2, i)
    {
      assert LinkAt(s, i);
    }
  }

  lemma AscendingSnoc(b: seq<Entry>, e: Entry)
    requires Ascending(b) && (b != [] ==> ILess(Last(b), e.key))
    ensures Ascending(b + [e])
  {
    var c := b + [e];
    forall i, j | 0 <= i < j < |c|
      ensures ILess(c[i].key, c[j].key)
    {
      if j == |b| {
        LastIsLargest(b, i);
        AtLeastThen(b[i].key, Last(b), e.key);
      }
    }
  }

  lemma Flushed(s: Built)
    requires BuiltOk(s) && s.open != []
    ensures !s.pending && BuiltOk(Built(s.blocks + [s.open], [], s.index, true))
  {
    var s2 := Built(s.blocks + [s.open], [], s.index, true);
    forall i | 0 <= i < |s2.index|
      ensures LinkAt(s2, i)
    {
      assert LinkAt(s, i);
    }
  }

  lemma FinishedOk(policy: Policy, s: Built, sep: IKey, lastKey: IKey, t: Table)
    requires BuiltOk(s) && s.open == [] && (s.pending ==> IsLast(s, lastKey) && Succeeds(lastKey, sep))
    requires t.blocks == s.blocks && t.index == s.index + (if s.pending then [sep] else [])
    requires |t.offsets| == |t.blocks| && FilterOk(policy, t)
    ensures TableOk(policy, t)
  {
    forall i | 0 <= i < |t.blocks|
      ensures BlockOk(t.blocks, t.index, i)
    {
      assert i < |s.index| ==> LinkAt(s, i);
    }
  }

  /** The user keys of blocks written, and of the block under construction, are in the filter under their offsets. */
  ghost predicate FilterHas(added: set<Added>, blocks: seq<seq<Entry>>, offsets: seq<nat>, open: seq<Entry>,
                            offset: nat)
  {
    && |offsets| == |blocks|
    && (forall i, j :: 0 <= i < |blocks| && 0 <= j < |blocks[i]| ==> (offsets[i], blocks[i][j].key.user) in added)
    && forall j :: 0 <= j < |open| ==> (offset, open[j].key.user) in added
  }

  /** The index before key `e` is added: the pending entry, if any, is made now. */
  method IndexFor(blocks: seq<seq<Entry>>, open: seq<Entry>, index: seq<IKey>, pending: bool, lastKey: IKey, e: Entry)
      returns (r: seq<IKey>)
    requires BuiltOk(Built(blocks, open, index, pending)) && IsLast(Built(blocks, open, index, pending), lastKey)
    requires All(blocks) + open != [] ==> ILess(lastKey, e.key)
    ensures BuiltOk(Built(blocks, open + [e], r, false))
  {
    r := index;
    if pending {
      FlatNonEmpty(blocks);
      var sep := ShortestSeparator(lastKey, e.key);
      EntryAdded(Built(blocks, open, index, pending), sep, e, lastKey);
      r := index + [sep];
      assert open + [e] == [e];
    } else {
      KeyAdded(Built(blocks, open, index, pending), e, lastKey);
    }
  }

  lemma FilterHasMore(added: set<Added>, added2: set<Added>, blocks: seq<seq<Entry>>, offsets: seq<nat>,
                      open: seq<Entry>, offset: nat, e: Entry)
    requires FilterHas(added, blocks, offsets, open, offset) && added2 == added + {(offset, e.key.user)}
    ensures FilterHas(added2, blocks, offsets, open + [e], offset)
  {
  }

  lemma FilterHasBlock(added: set<Added>, blocks: seq<seq<Entry>>, offsets: seq<nat>, open: seq<Entry>, offset: nat,
                       offset2: nat)
    requires FilterHas(added, blocks, offsets, open, offset)
    ensures FilterHas(added, blocks + [open], offsets + [offset], [], offset2)
  {
  }

  lemma LastAdded(blocks: seq<seq<Entry>>, open: seq<Entry>, index: seq<IKey>, e: Entry)
    ensures IsLast(Built(blocks, open + [e], index, false), e.key)
  {
  }

  class TableBuilder {
    const policy: Policy
    const filterBlock: FilterBlockBuilder
    var offset: nat
    var dataBlock: seq<Entry>
    var blocks: seq<seq<Entry>>
    var offsets: seq<nat>
    var index: seq<IKey>
    var lastKey: IKey
    var pending: bool
    var pendingHandle: nat
    ghost var entries: seq<Entry>

    ghost function View(): Built
      reads this
    {
      Built(blocks, dataBlock, index, pending)
    }

    ghost predicate Valid()
      reads this, filterBlock
    {
      && filterBlock.Valid() && filterBlock.policy == policy && filterBlock.block == offset
      && BuiltOk(View()) && IsLast(View(), lastKey) && FilterHas(filterBlock.added, blocks, offsets, dataBlock, offset)
      && entries == All(blocks) + dataBlock
    }

    constructor (policy: Policy)
      requires PolicyOk(policy)
      ensures Valid() && fresh(filterBlock) && entries == [] && this.policy == policy
    {
      this.policy := policy;
      filterBlock := new FilterBlockBuilder(policy);
      offset, dataBlock, blocks, offsets, index := 0, [], [], [], [];
      lastKey, pending, pendingHandle, entries := IKey([], 0), false, 0, [];
      new;
      filterBlock.StartBlock(0);
    }

    /** `size` is the block's size if it is now full, so that it is written. */
    method Add(key: IKey, value: string, full: Option<nat>)
      requires Valid() && (entries != [] ==> ILess(lastKey, key))
      modifies this, filterBlock
      ensures Valid() && entries == old(entries) + [Entry(key, value)]
    {
      Append(Entry(key, value));
      if full.Some? {
        Flush(full.value);
      }
    }

    method Append(e: Entry)
      requires Valid() && (entries != [] ==> ILess(lastKey, e.key))
      modifies `index, `pending, `lastKey, `dataBlock, `entries, filterBlock
      ensures Valid() && entries == old(entries) + [e] && dataBlock != []
    {
      hide BuiltOk, FilterHas, All;
      index := IndexFor(blocks, dataBlock, index, pending, lastKey, e);
      pending := false;
      ghost var added := filterBlock.added;
      filterBlock.AddKey(e.key.user);
      FilterHasMore(added, filterBlock.added, blocks, offsets, dataBlock, offset, e);
      LastAdded(blocks, dataBlock, index, e);
      lastKey := e.key;
      dataBlock := dataBlock + [e];
      entries := entries + [e];
    }

    method Flush(size: nat)
      requires Valid()
      modifies this, filterBlock
      ensures Valid() && entries == old(entries) && dataBlock == []
    {
      if dataBlock == [] {
        return;
      }
      Flushed(View());
      AllSnoc(blocks, dataBlock);
      FilterHasBlock(filterBlock.added, blocks, offsets, dataBlock, offset, offset + size + TRAILER);
      pendingHandle := offset;
      WriteBlock(size);
      filterBlock.StartBlock(offset);
    }

    /** The data block goes to the file, and the next one begins behind its trailer. */
    method WriteBlock(size: nat)
      modifies `blocks, `offsets, `offset, `dataBlock, `pending
      ensures blocks == old(blocks + [dataBlock]) && offsets == old(offsets + [offset])
      ensures offset == old(offset) + size + TRAILER && dataBlock == [] && pending
    {
      blocks := blocks + [dataBlock];
      offsets := offsets + [offset];
      offset := offset + size + TRAILER;
      dataBlock := [];
      pending := true;
    }

    method Finish(size: nat) returns (t: Table)
      requires Valid()
      modifies this, filterBlock
      ensures TableOk(policy, t) && All(t.blocks) == old(entries)
    {
      Flush(size);
      var sep := lastKey;
      var keys := index;
      if pending {
        sep := ShortSuccessor(lastKey);
        keys := keys + [sep];
      }
      ghost var s, added := View(), filterBlock.added;
      var f := filterBlock.Finish();
      t := Table(blocks, keys, offsets, Some(f));
      FinishedOk(policy, s, sep, lastKey, t);
    }
  }

  lemma FlatNonEmpty(blocks: seq<seq<Entry>>)
    requires blocks != [] && blocks[|blocks| - 1] != []
    ensures All(blocks) != []
  {
  }
}
