/** The merging iterator: several cursors that together behave as one cursor over their merge. */
module MergingIter {
  import opened Wrappers
  import opened Keys
  import opened SortedRuns
  import opened Cursors

  // --------------------------------------------------- runs inside their merge

  /**
   * `at[i][j]` is the place of entry `j` of run `i` in the merge `all`; `owner` and `off`
   * map a place back to its run and offset.
   */
  ghost predicate Interleaves(all: seq<Entry>, runs: seq<seq<Entry>>, at: seq<seq<nat>>, owner: seq<nat>,
                              off: seq<nat>)
  {
    && Sorted(all) && |at| == |runs| && |owner| == |off| == |all|
    && (forall i :: 0 <= i < |runs| ==> |at[i]| == |runs[i]|)
    && (forall i, j :: 0 <= i < |runs| && 0 <= j < |runs[i]| ==>
          at[i][j] < |all| && all[at[i][j]] == runs[i][j] && owner[at[i][j]] == i && off[at[i][j]] == j)
    && forall q :: 0 <= q < |all| ==> owner[q] < |runs| && off[q] < |runs[owner[q]]| && at[owner[q]][off[q]] == q
  }

  ghost function PlaceOf(all: seq<Entry>, e: Entry): (q: nat)
    requires e in all
    ensures q < |all| && all[q] == e
  {
    var q :| 0 <= q < |all| && all[q] == e;
    q
  }

  ghost predicate IsHome(runs: seq<seq<Entry>>, e: Entry, h: (nat, nat)) {
    h.0 < |runs| && h.1 < |runs[h.0]| && runs[h.0][h.1] == e
  }

  ghost function HomeOf(runs: seq<seq<Entry>>, e: Entry): (h: (nat, nat))
    requires e in RunsElems(runs)
    ensures IsHome(runs, e, h)
  {
    var i :| 0 <= i < |runs| && e in runs[i];
    var j :| 0 <= j < |runs[i]| && runs[i][j] == e;
    (i, j)
  }

  lemma SortedPlaces(all: seq<Entry>, a: nat, b: nat)
    requires Sorted(all) && a < |all| && b < |all|
    ensures Less(all[a].key, all[b].key) <==> a < b
    ensures all[a] == all[b] <==> a == b
  {
    assert a < b ==> Before(all[a].key, all[b].key);
    assert b < a ==> Before(all[b].key, all[a].key);
  }

  lemma OneRun(runs: seq<seq<Entry>>, e: Entry, i: nat, j: nat)
    requires RunsApart(runs) && i < |runs| && j < |runs| && e in runs[i] && e in runs[j]
    ensures i == j
  {
    forall a, b | 0 <= a < b < |runs|
      ensures !(e in runs[a] && e in runs[b])
    {
      assert Apart(runs[a], runs[b]);
    }
  }

  lemma OneHome(runs: seq<seq<Entry>>, e: Entry, h: (nat, nat), g: (nat, nat))
    requires RunsSorted(runs) && RunsApart(runs) && IsHome(runs, e, h) && IsHome(runs, e, g)
    ensures h == g
  {
    OneRun(runs, e, h.0, g.0);
    assert runs[h.0] in runs;
    SortedPlaces(runs[h.0], h.1, g.1);
  }

  /** `all` lists exactly the entries of the runs. */
  ghost predicate Lists(all: seq<Entry>, runs: seq<seq<Entry>>) {
    && (forall q :: 0 <= q < |all| ==> all[q] in RunsElems(runs))
    && forall i, j :: 0 <= i < |runs| && 0 <= j < |runs[i]| ==> runs[i][j] in all
  }

  lemma MergeLists(runs: seq<seq<Entry>>)
    ensures Lists(Merged(runs), runs)
  {
    var all := Merged(runs);
    forall i, j | 0 <= i < |runs| && 0 <= j < |runs[i]|
      ensures runs[i][j] in all
    {
      assert runs[i] in runs && runs[i][j] in runs[i];
      assert runs[i][j] in RunsElems(runs);
      assert runs[i][j] in Elems(all);
    }
    assert forall q :: 0 <= q < |all| ==> all[q] in Elems(all);
  }

  ghost function RunPlaces(all: seq<Entry>, run: seq<Entry>): (r: seq<nat>)
    requires forall j :: 0 <= j < |run| ==> run[j] in all
    ensures |r| == |run| && forall j :: 0 <= j < |run| ==> r[j] == PlaceOf(all, run[j])
  {
    seq(|run|, j requires 0 <= j < |run| => PlaceOf(all, run[j]))
  }

  lemma HomeAndBack(all: seq<Entry>, runs: seq<seq<Entry>>, i: nat, j: nat)
    requires RunsSorted(runs) && RunsApart(runs) && Lists(all, runs) && i < |runs| && j < |runs[i]|
    ensures HomeOf(runs, all[PlaceOf(all, runs[i][j])]) == (i, j)
  {
    OneHome(runs, runs[i][j], (i, j), HomeOf(runs, runs[i][j]));
  }

  lemma PlaceAndBack(all: seq<Entry>, q: nat)
    requires Sorted(all) && q < |all|
    ensures PlaceOf(all, all[q]) == q
  {
    SortedPlaces(all, q, PlaceOf(all, all[q]));
  }

  lemma MergeInterleaves(runs: seq<seq<Entry>>) returns (at: seq<seq<nat>>, owner: seq<nat>, off: seq<nat>)
    requires RunsSorted(runs) && RunsApart(runs)
    ensures Interleaves(Merged(runs), runs, at, owner, off)
  {
    hide Sorted, RunsSorted, RunsApart, RunsElems;
    var all := Merged(runs);
    MergedSorted(runs);
    MergeLists(runs);
    at := seq(|runs|, i requires 0 <= i < |runs| => RunPlaces(all, runs[i]));
    owner := seq(|all|, q requires 0 <= q < |all| => HomeOf(runs, all[q]).0);
    off := seq(|all|, q requires 0 <= q < |all| => HomeOf(runs, all[q]).1);
    forall i, j | 0 <= i < |runs| && 0 <= j < |runs[i]|
      ensures owner[at[i][j]] == i && off[at[i][j]] == j
    {
      HomeAndBack(all, runs, i, j);
    }
    forall q | 0 <= q < |all|
      ensures at[owner[q]][off[q]] == q
    {
      PlaceAndBack(all, q);
    }
  }

  /** Places of one run rise with the offset. */
  lemma PlacesRise(all: seq<Entry>, runs: seq<seq<Entry>>, at: seq<seq<nat>>, owner: seq<nat>, off: seq<nat>, a: nat,
                   b: nat)
    requires Interleaves(all, runs, at, owner, off) && RunsSorted(runs)
    requires a < |all| && b < |all| && owner[a] == owner[b]
    ensures off[a] < off[b] <==> a < b
  {
    var run := runs[owner[a]];
    SortedPlaces(all, a, b);
    assert run in runs;
    SortedPlaces(run, off[a], off[b]);
  }

  lemma LessTransitive(a: InternalKey, b: InternalKey, k: InternalKey)
    requires Less(a, b) && Less(b, k)
    ensures Less(a, k)
  {
  }

  lemma LessIf(a: InternalKey, b: InternalKey, k: InternalKey)
    requires Less(a, b)
    ensures Less(b, k) ==> Less(a, k)
  {
    if Less(b, k) {
      LessTransitive(a, b, k);
    }
  }

  lemma SeekAt(all: seq<Entry>, k: InternalKey, q: nat)
    requires Sorted(all) && q < |all|
    ensures q < SeekPos(all, k) <==> Less(all[q].key, k)
  {
    var p := SeekPos(all, k);
    if p < q {
      SortedPlaces(all, p, q);
      LessIf(all[p].key, all[q].key, k);
    }
  }

  /** Seeking in one run and in the merge cuts them at the same place. */
  lemma SeekCuts(all: seq<Entry>, runs: seq<seq<Entry>>, at: seq<seq<nat>>, owner: seq<nat>, off: seq<nat>,
                 k: InternalKey, q: nat)
    requires Interleaves(all, runs, at, owner, off) && RunsSorted(runs) && q < |all|
    ensures q < SeekPos(all, k) <==> off[q] < SeekPos(runs[owner[q]], k)
  {
    assert all[q] == runs[owner[q]][off[q]] && runs[owner[q]] in runs;
    SeekAt(all, k, q);
    SeekAt(runs[owner[q]], k, off[q]);
  }

  lemma SeekPlace(all: seq<Entry>, p: nat)
    requires Sorted(all) && p < |all|
    ensures SeekPos(all, all[p].key) == p
  {
    var q := SeekPos(all, all[p].key);
    SortedPlaces(all, p, p);
    if q < |all| {
      SortedPlaces(all, q, p);
    }
  }

  // -------------------------------------------------------------- the iterator

  datatype Direction = Forward | Reverse

  class MergingIterator {
    const children: seq<Cursor>
    var current: Option<nat>
    var direction: Direction
    ghost const all: seq<Entry>
    ghost const at: seq<seq<nat>>
    ghost const owner: seq<nat>
    ghost const off: seq<nat>
    // The place in the merge, or its length when not valid.
    ghost var pos: nat

    ghost predicate Laid() {
      && Interleaves(all, RunsOf(children), at, owner, off) && RunsSorted(RunsOf(children))
      && forall i, j :: 0 <= i < j < |children| ==> children[i] != children[j]
    }

    /** All children stand just before place `p`. */
    ghost predicate AllSplit(p: nat)
      requires Laid()
      reads children
    {
      forall q :: 0 <= q < |all| ==> (q < p <==> off[q] < children[owner[q]].pos)
    }

    /** All children stand on their last entry before place `p`, or are not valid if they have none. */
    ghost predicate AllBack(p: nat)
      requires Laid()
      reads children
    {
      forall q :: 0 <= q < |all| ==> (q < p <==> off[q] < children[owner[q]].Left())
    }

    ghost predicate Ok()
      reads this, children
    {
      && Laid() && pos <= |all| && (current.None? <==> pos == |all|)
      && (current.Some? ==> owner[pos] == current.value && off[pos] == children[current.value].pos)
      && (current.Some? ==> if direction.Forward? then AllSplit(pos) else AllBack(pos + 1))
    }

    constructor (children: seq<Cursor>)
      requires forall i, j :: 0 <= i < j < |children| ==> children[i] != children[j]
      requires RunsSorted(RunsOf(children)) && RunsApart(RunsOf(children))
      ensures Ok() && this.children == children && current.None? && all == Merged(RunsOf(children))
    {
      ghost var places, owners, offsets := MergeInterleaves(RunsOf(children));
      this.children, current, direction := children, None, Forward;
      all, at, owner, off, pos := Merged(RunsOf(children)), places, owners, offsets, |Merged(RunsOf(children))|;
    }

    predicate Valid()
      reads this
    {
      current.Some?
    }

    lemma Stands()
      requires Ok()
      ensures Laid() && Sorted(all) && pos <= |all| && (Valid() <==> pos < |all|)
    {
    }

    /** How many entries of the merge lie before the cursor, counting its own when it is valid. */
    ghost function Left(): nat
      reads this
    {
      if pos < |all| then pos + 1 else 0
    }

    function Entry(): (e: Entry)
      requires Ok() && Valid()
      reads this, children
      ensures e == all[pos]
    {
      children[current.value].Entry()
    }

    /** The place in the merge of the entry a valid child stands on. */
    ghost function Place(i: nat): (q: nat)
      requires Laid() && i < |children| && children[i].Valid()
      reads children
      ensures q < |all| && owner[q] == i && off[q] == children[i].pos && all[q] == children[i].Entry()
    {
      at[i][children[i].pos]
    }

    lemma Bounds()
      requires Laid()
      ensures |owner| == |off| == |all| && forall q :: 0 <= q < |all| ==> owner[q] < |children|
    {
    }

    method IsBefore(i: nat, k: nat) returns (before: bool)
      requires Laid() && i < |children| && k < |children| && children[i].Valid() && children[k].Valid()
      ensures before <==> Place(i) < Place(k)
    {
      SortedPlaces(all, Place(i), Place(k));
      before := Compare(children[i].Entry().key, children[k].Entry().key) < 0;
    }

    /** A child at the smallest key. */
    method FindSmallest(ghost p: nat)
      requires Laid() && AllSplit(p) && p <= |all| && direction.Forward?
      modifies this`current, this`pos
      ensures Ok() && pos == p
    {
      hide Interleaves, RunsSorted;
      Bounds();
      var smallest: Option<nat> := None;
      for i := 0 to |children|
        invariant smallest.None? ==> forall k :: 0 <= k < i ==> !children[k].Valid()
        invariant smallest.Some? ==> smallest.value < i && children[smallest.value].Valid()
        invariant smallest.Some? ==> forall k :: 0 <= k < i && children[k].Valid() ==> Place(smallest.value) <= Place(k)
      {
        if children[i].Valid() {
          if smallest.None? {
            smallest := Some(i);
          } else {
            var before := IsBefore(i, smallest.value);
            if before {
              smallest := Some(i);
            }
          }
        }
      }
      current, pos := smallest, p;
      if p < |all| {
        NextIsHead(p);
      }
    }

    /** When every child stands just before `p`, the child owning place `p` stands on it. */
    lemma NextIsHead(p: nat)
      requires Laid() && AllSplit(p) && p < |all|
      ensures children[owner[p]].Valid() && Place(owner[p]) == p
    {
      var i := owner[p];
      var q := Place(i);
      PlacesRise(all, RunsOf(children), at, owner, off, q, p);
    }

    /** The last child with the largest key. */
    method LargestChild() returns (largest: Option<nat>)
      requires Laid()
      ensures largest.None? ==> forall k :: 0 <= k < |children| ==> !children[k].Valid()
      ensures largest.Some? ==> largest.value < |children| && children[largest.value].Valid()
      ensures largest.Some? ==>
                forall k :: 0 <= k < |children| && children[k].Valid() ==> Place(k) <= Place(largest.value)
    {
      hide Interleaves, RunsSorted;
      largest := None;
      for i := |children| downto 0
        invariant largest.None? ==> forall k :: i <= k < |children| ==> !children[k].Valid()
        invariant largest.Some? ==> i <= largest.value < |children| && children[largest.value].Valid()
        invariant largest.Some? ==>
                    forall k :: i <= k < |children| && children[k].Valid() ==> Place(k) <= Place(largest.value)
      {
        if children[i].Valid() {
          if largest.None? {
            largest := Some(i);
          } else {
            var before := IsBefore(largest.value, i);
            if before {
              largest := Some(i);
            }
          }
        }
      }
    }

    /** A child at the largest key. */
    method FindLargest(ghost p: nat)
      requires Laid() && AllBack(p) && p <= |all| && direction.Reverse?
      modifies this`current, this`pos
      ensures Ok() && pos == if p == 0 then |all| else p - 1
    {
      hide Interleaves, RunsSorted;
      var largest := LargestChild();
      Bounds();
      LargestIs(p, largest);
      current, pos := largest, if p == 0 then |all| else p - 1;
    }

    /** When every child stands on its last entry before `p`, the one with the largest key stands just before `p`. */
    lemma LargestIs(p: nat, largest: Option<nat>)
      requires Laid() && AllBack(p) && p <= |all|
      requires largest.None? ==> forall k :: 0 <= k < |children| ==> !children[k].Valid()
      requires largest.Some? ==> largest.value < |children| && children[largest.value].Valid()
      requires largest.Some? ==>
                 forall k :: 0 <= k < |children| && children[k].Valid() ==> Place(k) <= Place(largest.value)
      ensures largest.None? <==> p == 0
      ensures largest.Some? ==> owner[p - 1] == largest.value && Place(largest.value) == p - 1
    {
      hide Interleaves, RunsSorted;
      Bounds();
      if p > 0 {
        PreviousIsTail(p);
      }
      if largest.Some? {
        var q := Place(largest.value);
        assert off[q] < children[owner[q]].Left();
      }
    }

    /** When every child stands on its last entry before `p`, the child owning the place before `p` stands on it. */
    lemma PreviousIsTail(p: nat)
      requires Laid() && AllBack(p) && 0 < p <= |all|
      ensures children[owner[p - 1]].Valid() && Place(owner[p - 1]) == p - 1
    {
      var i := owner[p - 1];
      var q := Place(i);
      PlacesRise(all, RunsOf(children), at, owner, off, p - 1, q);
    }

    method SeekToFirst()
      requires Laid()
      modifies this, children
      ensures Ok() && pos == 0
    {
      for i := 0 to |children|
        invariant forall k :: 0 <= k < i ==> children[k].pos == 0
      {
        children[i].SeekToFirst();
      }
      direction := Forward;
      FindSmallest(0);
    }

    method SeekToLast()
      requires Laid()
      modifies this, children
      ensures Ok() && pos == LastPos(all)
    {
      for i := 0 to |children|
        invariant forall k :: 0 <= k < i ==> children[k].Left() == |children[k].es|
      {
        children[i].SeekToLast();
      }
      direction := Reverse;
      FindLargest(|all|);
    }

    method Seek(target: InternalKey)
      requires Laid()
      modifies this, children
      ensures Ok() && pos == SeekPos(all, target)
    {
      for i := 0 to |children|
        invariant forall k :: 0 <= k < i ==> children[k].pos == SeekPos(children[k].es, target)
      {
        children[i].Seek(target);
      }
      forall q | 0 <= q < |all|
        ensures q < SeekPos(all, target) <==> off[q] < children[owner[q]].pos
      {
        SeekCuts(all, RunsOf(children), at, owner, off, target, q);
        assert children[owner[q]].pos == SeekPos(children[owner[q]].es, target);
      }
      direction := Forward;
      FindSmallest(SeekPos(all, target));
    }

    /** Puts every child but the current one at its first entry after the current key. */
    method TurnForward()
      requires Ok() && Valid() && direction.Reverse?
      modifies this`direction, children
      ensures Ok() && direction.Forward? && pos == old(pos)
    {
      var c := current.value;
      var key := children[c].Entry().key;
      ghost var kept := children[c].pos;
      for i := 0 to |children|
        invariant children[c].pos == kept
        invariant forall k :: 0 <= k < i && k != c ==> children[k].pos == SeekPos(children[k].es, key)
      {
        assert forall k :: 0 <= k < |children| && k != i ==> children[k] != children[i];
        if i != c {
          children[i].Seek(key);
          if children[i].Valid() {
            NotInOther(i, key);
            if Compare(key, children[i].Entry().key) == 0 {
              // Here the source steps past the equal key; runs that share no key never get here.
              assert false;
            }
          }
        }
      }
      direction := Forward;
      forall q | 0 <= q < |all|
        ensures q < pos <==> off[q] < children[owner[q]].pos
      {
        SeekPlace(all, pos);
        SeekCuts(all, RunsOf(children), at, owner, off, key, q);
        if owner[q] == c {
          PlacesRise(all, RunsOf(children), at, owner, off, q, pos);
        }
      }
    }

    /** No other child stands on the current key. */
    lemma NotInOther(i: nat, key: InternalKey)
      requires Laid() && pos < |all| && key == all[pos].key && i < |children| && i != owner[pos] && children[i].Valid()
      ensures Compare(key, children[i].Entry().key) != 0
    {
      SortedPlaces(all, pos, Place(i));
      SortedPlaces(all, Place(i), pos);
    }

    method Next()
      requires Ok() && Valid()
      modifies this, children
      ensures Ok() && pos == NextPos(all, old(pos))
    {
      if !direction.Forward? {
        TurnForward();
      }
      ghost var p := pos;
      var c := current.value;
      children[c].Next();
      forall q | 0 <= q < |all|
        ensures q < p + 1 <==> off[q] < children[owner[q]].pos
      {
        if owner[q] == c {
          PlacesRise(all, RunsOf(children), at, owner, off, p, q);
        }
      }
      FindSmallest(p + 1);
    }

    /** Puts every child but the current one at its last entry before the current key. */
    method TurnBack()
      requires Ok() && Valid() && direction.Forward?
      modifies this`direction, children
      ensures Ok() && direction.Reverse? && pos == old(pos)
    {
      var c := current.value;
      var key := children[c].Entry().key;
      ghost var kept := children[c].pos;
      for i := 0 to |children|
        invariant children[c].pos == kept
        invariant forall k :: 0 <= k < i && k != c ==> children[k].Left() == SeekPos(children[k].es, key)
      {
        assert forall k :: 0 <= k < |children| && k != i ==> children[k] != children[i];
        if i != c {
          children[i].Seek(key);
          if children[i].Valid() {
            children[i].Prev();
          } else {
            children[i].SeekToLast();
          }
        }
      }
      direction := Reverse;
      forall q | 0 <= q < |all|
        ensures q < pos + 1 <==> off[q] < children[owner[q]].Left()
      {
        SeekPlace(all, pos);
        SeekCuts(all, RunsOf(children), at, owner, off, key, q);
        if owner[q] == c {
          PlacesRise(all, RunsOf(children), at, owner, off, pos, q);
        }
      }
    }

    method Prev()
      requires Ok() && Valid()
      modifies this, children
      ensures Ok() && pos == PrevPos(all, old(pos))
    {
      if !direction.Reverse? {
        TurnBack();
      }
      ghost var p := pos;
      var c := current.value;
      children[c].Prev();
      forall q | 0 <= q < |all|
        ensures q < p <==> off[q] < children[owner[q]].Left()
      {
        if owner[q] == c {
          PlacesRise(all, RunsOf(children), at, owner, off, q, p);
        }
      }
      FindLargest(p);
    }
  }

  function RunsOf(children: seq<Cursor>): (r: seq<seq<Entry>>)
    ensures |r| == |children| && forall i :: 0 <= i < |r| ==> r[i] == children[i].es
  {
    seq(|children|, i requires 0 <= i < |children| => children[i].es)
  }
}
