/** The two-level iterator: an index cursor over blocks that behaves as one cursor over their concatenation. */
module TwoLevelIter {
  import opened Keys
  import opened Cursors
  import opened Sequences

  /** Index key `i` is at or after every entry of block `i` and before every entry of later blocks. */
  ghost predicate Separates(index: seq<Entry>, blocks: seq<seq<Entry>>) {
    && |index| == |blocks| && (forall i :: 0 <= i < |blocks| ==> Sorted(blocks[i]))
    && (forall i, j :: 0 <= i < |blocks| && 0 <= j < |blocks[i]| ==> !Less(index[i].key, blocks[i][j].key))
    && forall i, k, j :: 0 <= i < k < |blocks| && 0 <= j < |blocks[k]| ==> Less(index[i].key, blocks[k][j].key)
  }

  /** Seeking the index, then the block it names, finds where the target belongs in the concatenation. */
  lemma SeekBoth(index: seq<Entry>, blocks: seq<seq<Entry>>, k: InternalKey)
    requires Separates(index, blocks)
    ensures var i := SeekPos(index, k);
            SeekPos(All(blocks), k) == if i < |index| then |Joined(blocks, i)| + SeekPos(blocks[i], k)
                else |All(blocks)|
  {
    var all, i := All(blocks), SeekPos(index, k);
    var p := if i < |index| then |Joined(blocks, i)| + SeekPos(blocks[i], k) else |all|;
    if i < |index| {
      JoinedAt(blocks, i);
    }
    var r := SeekPos(all, k);
    if r < |all| {
      SeekOne(index, blocks, k, r);
    }
    if p < |all| {
      SeekOne(index, blocks, k, p);
    }
  }

  /** Whether place `q` lies before the target, by its block. */
  lemma SeekOne(index: seq<Entry>, blocks: seq<seq<Entry>>, k: InternalKey, q: nat)
    requires Separates(index, blocks) && q < |All(blocks)|
    ensures var i := SeekPos(index, k);
            var p := if i < |index| then |Joined(blocks, i)| + SeekPos(blocks[i], k) else |All(blocks)|;
            Less(All(blocks)[q].key, k) <==> q < p
  {
    var i := SeekPos(index, k);
    var b, j := BlockOf(blocks, |blocks|, q);
    JoinedAt(blocks, b);
    var e := blocks[b][j];
    if b < i {
      NotAfterLess(index[b].key, e.key, k);
      JoinedMonotone(blocks, b + 1, i);
    } else if b > i {
      LessNotAfter(index[i].key, e.key, k);
      JoinedAt(blocks, i);
      JoinedMonotone(blocks, i + 1, b);
    } else {
      BlockCut(blocks[b], k, j);
    }
  }

  lemma NotAfterLess(sep: InternalKey, e: InternalKey, k: InternalKey)
    requires !Less(sep, e) && Less(sep, k)
    ensures Less(e, k)
  {
  }

  lemma LessNotAfter(sep: InternalKey, e: InternalKey, k: InternalKey)
    requires Less(sep, e) && !Less(sep, k)
    ensures !Less(e, k)
  {
  }

  lemma BlockCut(block: seq<Entry>, k: InternalKey, j: nat)
    requires Sorted(block) && j < |block|
    ensures Less(block[j].key, k) <==> j < SeekPos(block, k)
  {
    var p := SeekPos(block, k);
    if p < j {
      assert Before(block[p].key, block[j].key);
    }
  }

  // -------------------------------------------------------------- the iterator

  class TwoLevelIterator {
    const index: Cursor
    // The block function: from the handle in an index entry to the block.
    const read: string -> seq<Entry>
    var data: Cursor?
    var handle: string
    ghost const blocks: seq<seq<Entry>>
    // The place in the concatenation, or its length when not valid.
    ghost var pos: nat

    ghost predicate Laid() {
      && Separates(index.es, blocks)
      && forall i :: 0 <= i < |blocks| ==> blocks[i] == read(index.es[i].value)
    }

    /** The data cursor, if any, is over the block its handle names. */
    ghost predicate DataOk()
      reads this, index, data
    {
      && data != index && index.pos <= |index.es|
      && (data != null ==> data.es == read(handle) && data.pos <= |data.es|)
    }

    /** The data cursor is over the block the index cursor stands on. */
    ghost predicate InBlock()
      reads this, index, data
    {
      DataOk() && (data == null <==> !index.Valid()) && (data != null ==> handle == index.Entry().value)
    }

    ghost predicate Ok()
      reads this, index, data
    {
      && Laid() && DataOk()
      && (data == null ==> pos == |All(blocks)|)
      && (data != null ==> InBlock() && data.Valid() && pos == |Joined(blocks, index.pos)| + data.pos)
    }

    constructor (index: Cursor, read: string -> seq<Entry>, ghost blocks: seq<seq<Entry>>)
      requires Separates(index.es, blocks) && index.pos <= |index.es|
      requires forall i :: 0 <= i < |blocks| ==> blocks[i] == read(index.es[i].value)
      ensures Ok() && this.index == index && this.read == read && this.blocks == blocks && data == null
    {
      this.index, this.read, this.blocks := index, read, blocks;
      data, handle, pos := null, "", |All(blocks)|;
    }

    predicate Valid()
      reads this, data
    {
      data != null && data.Valid()
    }

    function Entry(): (e: Entry)
      requires Ok() && Valid()
      reads this, index, data
      ensures pos < |All(blocks)| && e == All(blocks)[pos]
    {
      JoinedAt(blocks, index.pos);
      data.Entry()
    }

    /** Opens the block the index stands on, unless it is already open. */
    method InitDataBlock()
      requires Laid() && DataOk()
      modifies this`data, this`handle
      ensures InBlock()
      ensures data == old(data) || data == null || fresh(data)
    {
      if !index.Valid() {
        data := null;
      } else if data == null || index.Entry().value != handle {
        handle := index.Entry().value;
        data := new Cursor(read(handle));
      }
    }

    /** Leaves finished blocks behind until an entry is found; `p` is the place sought. */
    method SkipEmptyDataBlocksForward(ghost p: nat)
      requires Laid() && InBlock()
      requires p == |Joined(blocks, index.pos)| + if data == null then 0 else data.pos
      modifies this, index, data
      ensures Ok() && pos == p
      ensures data == old(data) || data == null || fresh(data)
    {
      while data == null || !data.Valid()
        invariant InBlock() && p == |Joined(blocks, index.pos)| + if data == null then 0 else data.pos
        invariant data == old(data) || data == null || fresh(data)
        decreases |index.es| - index.pos
      {
        if !index.Valid() {
          break;
        }
        index.Next();
        InitDataBlock();
        if data != null {
          data.SeekToFirst();
        }
      }
      pos := p;
    }

    /** Steps back over finished blocks until an entry is found; `left` places lie at or before the one sought. */
    method SkipEmptyDataBlocksBackward(ghost left: nat)
      requires Laid() && InBlock() && left <= |All(blocks)|
      requires left == if data == null then 0 else |Joined(blocks, index.pos)| + data.Left()
      modifies this, index, data
      ensures Ok() && pos == if left == 0 then |All(blocks)| else left - 1
      ensures data == old(data) || data == null || fresh(data)
    {
      while data == null || !data.Valid()
        invariant InBlock() && left == if data == null then 0 else |Joined(blocks, index.pos)| + data.Left()
        invariant data == old(data) || data == null || fresh(data)
        decreases index.Left()
      {
        if !index.Valid() {
          break;
        }
        index.Prev();
        InitDataBlock();
        if data != null {
          data.SeekToLast();
        }
      }
      pos := if left == 0 then |All(blocks)| else left - 1;
    }

    method SeekToFirst()
      requires Ok()
      modifies this, index, data
      ensures Ok() && pos == 0
    {
      index.SeekToFirst();
      InitDataBlock();
      if data != null {
        data.SeekToFirst();
      }
      SkipEmptyDataBlocksForward(0);
    }

    method SeekToLast()
      requires Ok()
      modifies this, index, data
      ensures Ok() && pos == LastPos(All(blocks))
    {
      index.SeekToLast();
      InitDataBlock();
      if data != null {
        data.SeekToLast();
        JoinedAt(blocks, index.pos);
      }
      SkipEmptyDataBlocksBackward(|All(blocks)|);
    }

    method Seek(target: InternalKey)
      requires Ok()
      modifies this, index, data
      ensures Ok() && pos == SeekPos(All(blocks), target)
    {
      index.Seek(target);
      InitDataBlock();
      SeekBoth(index.es, blocks, target);
      if data != null {
        data.Seek(target);
      }
      SkipEmptyDataBlocksForward(SeekPos(All(blocks), target));
    }

    method Next()
      requires Ok() && Valid()
      modifies this, index, data
      ensures Ok() && pos == old(pos) + 1
    {
      ghost var p := pos;
      data.Next();
      SkipEmptyDataBlocksForward(p + 1);
    }

    method Prev()
      requires Ok() && Valid()
      modifies this, index, data
      ensures Ok() && pos == if old(pos) == 0 then |All(blocks)| else old(pos) - 1
    {
      ghost var p := pos;
      JoinedAt(blocks, index.pos);
      data.Prev();
      SkipEmptyDataBlocksBackward(p);
    }
  }
}
