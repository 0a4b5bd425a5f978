/** The store's iterator: a merge of memtables and levels, filtered down to one row per readable key. */
module StoreIter {
  import opened Wrappers
  import opened Keys
  import opened Lsm
  import opened SortedRuns
  import opened Cursors
  import opened CompactionWork
  import opened Engine
  import opened Db
  import opened Runs
  import RunReads
  import DbIter
  import MergingIter
  import Sequences
  import TwoLevelIter

  /** The runs under a version's iterator: every level-0 file by itself, every deeper level as one. */
  function RunsFrom(v: Version, level: nat): seq<seq<Entry>>
    requires level <= |v.levels|
    decreases |v.levels| - level
  {
    if level == |v.levels| then [] else LevelRuns(level, v.levels[level]) + RunsFrom(v, level + 1)
  }

  /** The children of the internal iterator: memtable, immutable memtable, version. */
  function InternalRuns(s: State): seq<seq<Entry>> {
    var table := RunsFrom(s.v, 0);
    [s.mem] + if s.imm.Some? then [s.imm.value] + table else table
  }

  // ------------------------------------------------------- levels as one run

  lemma LevelRunsOk(level: nat, fs: seq<File>)
    requires LevelOk(level, fs)
    ensures RunsSorted(LevelRuns(level, fs)) && RunsApart(LevelRuns(level, fs))
  {
    var r := LevelRuns(level, fs);
    if level == 0 {
      forall i, j | 0 <= i < j < |r|
        ensures Apart(r[i], r[j])
      {
        FilesApart(0, fs, i, j);
      }
      assert forall i :: 0 <= i < |fs| ==> FileOk(fs[i]);
    } else {
      FlatSorted(fs);
    }
  }

  lemma {:induction false} RunsFromOk(v: Version, level: nat)
    requires LsmOk(v) && level <= NUM_LEVELS
    ensures RunsSorted(RunsFrom(v, level)) && RunsApart(RunsFrom(v, level))
    ensures RunsElems(RunsFrom(v, level)) == EntriesFrom(v, level)
    decreases NUM_LEVELS - level
  {
    if level < NUM_LEVELS {
      assert LevelOk(level, v.levels[level]);
      LevelRunsOk(level, v.levels[level]);
      LevelRunsElems(level, v.levels[level]);
      RunsFromOk(v, level + 1);
      LevelAboveRest(v, level, level + 1);
      JoinRuns(LevelRuns(level, v.levels[level]), RunsFrom(v, level + 1));
    }
  }

  /** A run newer, key by key, than all runs below it. */
  lemma PushRun(es: seq<Entry>, runs: seq<seq<Entry>>)
    requires Sorted(es) && RunsSorted(runs) && RunsApart(runs) && Above(Elems(es), RunsElems(runs))
    ensures RunsSorted([es] + runs) && RunsApart([es] + runs) && RunsElems([es] + runs) == Elems(es) + RunsElems(runs)
  {
    assert es in [es] && RunsElems([es]) == Elems(es);
    JoinRuns([es], runs);
  }

  lemma LayersAbove(s: State)
    requires LayersOk(s)
    ensures Sorted(s.mem) && Sorted(Imm(s)) && LsmOk(s.v)
    ensures Above(Elems(Imm(s)), EntriesFrom(s.v, 0)) && Above(Elems(s.mem), Elems(Imm(s)) + EntriesFrom(s.v, 0))
    ensures Stored(s) == Elems(s.mem) + (Elems(Imm(s)) + EntriesFrom(s.v, 0))
    ensures s.imm.None? ==> Elems(Imm(s)) == {}
  {
  }

  /** The children share no key and together hold every stored entry. */
  lemma InternalRunsOk(s: State)
    requires LayersOk(s)
    ensures RunsSorted(InternalRuns(s)) && RunsApart(InternalRuns(s)) && RunsElems(InternalRuns(s)) == Stored(s)
  {
    LayersAbove(s);
    hide LayersOk, LsmOk, RunsSorted, RunsApart, RunsElems, RunsFrom, Sorted, Above, Elems, Stored, EntriesFrom;
    var table := RunsFrom(s.v, 0);
    RunsFromOk(s.v, 0);
    if s.imm.Some? {
      PushRun(s.imm.value, table);
      PushRun(s.mem, [s.imm.value] + table);
    } else {
      assert Elems(Imm(s)) + EntriesFrom(s.v, 0) == EntriesFrom(s.v, 0);
      PushRun(s.mem, table);
    }
  }

  // ----------------------------------------------------------- concatenation

  /** The index over the files of a level: the largest key of each file. */
  function LevelIndex(fs: seq<File>): seq<Entry> {
    seq(|fs|, i requires 0 <= i < |fs| => Entry(fs[i].largest, ""))
  }

  lemma {:induction false} JoinedIsFlat(fs: seq<File>, n: nat)
    requires n <= |fs|
    ensures Sequences.Joined(EachFile(fs), n) == Flat(fs[..n])
  {
    if n > 0 {
      JoinedIsFlat(fs, n - 1);
      assert fs[..n][..n - 1] == fs[..n - 1];
    }
  }

  lemma IndexSeparates(fs: seq<File>)
    requires FilesOk(fs) && Disjoint(fs)
    ensures TwoLevelIter.Separates(LevelIndex(fs), EachFile(fs))
  {
    var index, blocks := LevelIndex(fs), EachFile(fs);
    forall i | 0 <= i < |fs|
      ensures Sorted(blocks[i])
      ensures forall j :: 0 <= j < |blocks[i]| ==> !Less(index[i].key, blocks[i][j].key)
    {
      assert FileOk(fs[i]);
      forall j | 0 <= j < |blocks[i]|
        ensures !Less(index[i].key, blocks[i][j].key)
      {
        EntryInRange(fs[i], blocks[i][j]);
      }
    }
    forall i, k, j | 0 <= i < k < |fs| && 0 <= j < |blocks[k]|
      ensures Less(index[i].key, blocks[k][j].key)
    {
      assert FileOk(fs[i]) && FileOk(fs[k]);
      BeforeFiles(fs[i], fs[k], fs[i].entries[|fs[i].entries| - 1], blocks[k][j]);
    }
  }

  /** A two-level cursor over a level's files behaves as a cursor over the level's run. */
  lemma LevelConcatenates(level: nat, fs: seq<File>)
    requires level > 0 && LevelOk(level, fs) && fs != []
    ensures TwoLevelIter.Separates(LevelIndex(fs), EachFile(fs))
    ensures LevelRuns(level, fs) == [Sequences.All(EachFile(fs))]
  {
    IndexSeparates(fs);
    JoinedIsFlat(fs, |fs|);
    assert fs[..|fs|] == fs;
  }

  // ------------------------------------------------------------ the iterator

  /** One cursor a run, all different. */
  ghost predicate CursorsOver(children: seq<Cursor>, runs: seq<seq<Entry>>) {
    && MergingIter.RunsOf(children) == runs
    && forall i, j :: 0 <= i < j < |children| ==> children[i] != children[j]
  }

  /** Opens a cursor on every run. */
  method OpenCursors(runs: seq<seq<Entry>>) returns (children: seq<Cursor>)
    ensures CursorsOver(children, runs) && fresh(children)
  {
    children := [];
    for i := 0 to |runs|
      invariant |children| == i && fresh(children)
      invariant forall k :: 0 <= k < i ==> children[k].es == runs[k]
      invariant forall j, k :: 0 <= j < k < i ==> children[j] != children[k]
    {
      var c := new Cursor(runs[i]);
      children := children + [c];
    }
  }

  /** The merge of everything the store holds. */
  method NewInternalIterator(s: State) returns (it: MergingIter.MergingIterator)
    requires Inv(s)
    ensures it.Ok() && it.all == Merged(InternalRuns(s)) && fresh(it) && fresh(it.children)
  {
    InternalRunsOk(s);
    var children := OpenCursors(InternalRuns(s));
    it := new MergingIter.MergingIterator(children);
  }

  /** The rows at `q` of an iterator over `es` are exactly the user keys a read at `q` finds, once each, in order. */
  ghost predicate ShowsReads(es: seq<Entry>, q: nat, S: set<Entry>) {
    && (forall i: nat, j: nat :: i < j && DbIter.Shown(es, q, i) && DbIter.Shown(es, q, j) ==>
          es[i].key.user < es[j].key.user)
    && (forall i: nat :: DbIter.Shown(es, q, i) ==> Read(S, es[i].key.user, q) == Some(es[i].value))
    && forall user :: Read(S, user, q).Some? ==> exists i: nat :: DbIter.Shown(es, q, i) && es[i].key.user == user
  }

  lemma SortedShowsReads(es: seq<Entry>, q: nat)
    requires Sorted(es)
    ensures ShowsReads(es, q, Elems(es))
  {
    forall i: nat, j: nat | i < j && DbIter.Shown(es, q, i) && DbIter.Shown(es, q, j)
      ensures es[i].key.user < es[j].key.user
    {
      DbIter.ShownOrder(es, q, i, j);
    }
    forall i: nat | DbIter.Shown(es, q, i)
      ensures Read(Elems(es), es[i].key.user, q) == Some(es[i].value)
    {
      DbIter.ShownIsRead(es, q, i);
    }
    forall user | Read(Elems(es), user, q).Some?
      ensures exists i: nat :: DbIter.Shown(es, q, i) && es[i].key.user == user
    {
      var i := DbIter.ReadIsShown(es, q, user);
    }
  }

  /** An iterator at any sequence number shows exactly what point reads at that number find. */
  lemma IteratorShowsReads(s: State, q: nat)
    requires LayersOk(s)
    ensures Sorted(Merged(InternalRuns(s))) && ShowsReads(Merged(InternalRuns(s)), q, Stored(s))
  {
    InternalRunsOk(s);
    MergedSorted(InternalRuns(s));
    SortedShowsReads(Merged(InternalRuns(s)), q);
  }

  lemma InvShowsReads(s: State, q: nat)
    requires Inv(s)
    ensures ShowsReads(Merged(InternalRuns(s)), q, Stored(s))
  {
    IteratorShowsReads(s, q);
  }

  lemma SameReadsShow(es: seq<Entry>, q: nat, S: set<Entry>, H: set<Entry>)
    requires ShowsReads(es, q, S) && forall user :: Read(S, user, q) == Read(H, user, q)
    ensures ShowsReads(es, q, H)
  {
  }

  /** In a run whose merges cut no key, an iterator at a live sequence number shows the history of writes. */
  lemma IteratorShowsHistory(states: seq<State>, steps: seq<Step>, n: nat, q: nat)
    requires RunReads.IsRun(states, steps) && n <= |steps| && RunReads.Sound(states, steps, n)
    requires Oldest(states[n]) <= q
    ensures ShowsReads(Merged(InternalRuns(states[n])), q, RunReads.History(states, steps, n))
  {
    RunReads.RunKeepsInv(states, steps, n);
    RunReads.SoundAgrees(states, steps, n);
    assert RunReads.Agrees(states[n], RunReads.History(states, steps, n));
    IteratorShowsReads(states[n], q);
    SameReadsShow(Merged(InternalRuns(states[n])), q, Stored(states[n]), RunReads.History(states, steps, n));
  }
}
