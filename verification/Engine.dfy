/** What the store object is built from: options, applying edits, compaction inputs and log replay. */
module Engine {
  import opened Wrappers
  import opened Keys
  import opened Lsm
  import opened InputSelection
  import opened Compactions
  import opened CompactionWork
  import opened CompactionInstall
  import opened CompactionTheorem
  import opened SortedRuns
  import opened Edits
  import opened WriteBatches
  import opened Recovery
  import M = Manifest

  const L0_STOP_WRITES_TRIGGER: nat := 12

  /** Configuration, and the byte sizes of memtables and tables, which the model does not compute. */
  datatype Options = Options(writeBufferSize: nat, maxFileSize: nat, memoryUsage: seq<Entry> -> nat, sizes: Sizes)

  // ------------------------------------------------------ applying an edit

  lemma BaseNumbersDiffer(v: Version, e: M.Edit, next: nat, next2: nat, l: nat, f: File, g: File)
    requires NumbersOk(v, next) && EditFits(v, e, next, next2) && l < NUM_LEVELS
    requires f in M.AddedAt(e, l) && g in v.levels[l]
    ensures f.number != g.number
  {
    assert (l, f) in e.added;
    NotAddedAndListed(v, e, next, next2, l, f, g);
  }

  /** Builds the next version with a fresh builder over the current one. */
  method ApplyEdit(v: Version, pointers: M.Pointers, e: M.Edit, ghost next: nat, ghost next2: nat)
    returns (v2: Version, pointers2: M.Pointers)
    requires AllOrdered(v) && NumbersOk(v, next) && EditFits(v, e, next, next2)
    ensures Applied(v, e, v2) && pointers2 == M.Pointed(pointers, e.pointers)
  {
    var b := new M.Builder(v, pointers);
    b.Apply(e);
    forall l, f, g | 0 <= l < NUM_LEVELS && f in b.addedFiles[l] && g in v.levels[l]
      ensures f.number != g.number
    {
      assert f in Files(b.addedFiles[l]);
      BaseNumbersDiffer(v, e, next, next2, l, f, g);
    }
    v2 := b.SaveTo();
    pointers2 := b.compactPointers;
    forall l: nat | l < NUM_LEVELS
      ensures Files(v2.levels[l]) == M.AfterEdit(Files(v.levels[l]), e, l)
    {
      assert Files([]) == {};
    }
  }

  // --------------------------------------------------- inputs of a compaction

  lemma {:induction false} FlatSorted(fs: seq<File>)
    requires FilesOk(fs) && Disjoint(fs)
    ensures Sorted(Flat(fs))
  {
    if fs != [] {
      var init, last := fs[..|fs| - 1], fs[|fs| - 1];
      FlatSorted(init);
      FlatElems(init);
      forall e, x | e in Flat(init) && x in last.entries
        ensures Before(e.key, x.key)
      {
        assert e in FilesEntries(init);
        var i :| 0 <= i < |init| && e in init[i].entries;
        assert FileOk(fs[i]) && FileOk(last);
        BeforeFiles(fs[i], last, e, x);
      }
      assert FileOk(last);
      JoinSorted(Flat(init), last.entries);
    }
  }

  lemma JoinSorted(a: seq<Entry>, b: seq<Entry>)
    requires Sorted(a) && Sorted(b) && forall e, x :: e in a && x in b ==> Before(e.key, x.key)
    ensures Sorted(a + b)
  {
  }

  /** One run per level-0 file, one run for a deeper level. */
  function LevelRuns(level: nat, fs: seq<File>): (r: seq<seq<Entry>>) {
    if fs == [] then []
    else if level == 0 then EachFile(fs)
    else [Flat(fs)]
  }

  function EachFile(fs: seq<File>): (r: seq<seq<Entry>>)
    ensures |r| == |fs| && forall i :: 0 <= i < |r| ==> r[i] == fs[i].entries
  {
    seq(|fs|, i requires 0 <= i < |fs| => fs[i].entries)
  }

  lemma LevelRunsElems(level: nat, fs: seq<File>)
    ensures RunsElems(LevelRuns(level, fs)) == FilesEntries(fs)
  {
    FlatElems(fs);
    var r := LevelRuns(level, fs);
    forall e
      ensures e in RunsElems(r) <==> e in FilesEntries(fs)
    {
      if e in FilesEntries(fs) {
        var i :| 0 <= i < |fs| && e in fs[i].entries;
        assert level == 0 ==> r[i] in r && e in r[i];
        assert level > 0 ==> r[0] in r && e in Elems(r[0]);
      }
      if e in RunsElems(r) {
        var i :| 0 <= i < |r| && e in r[i];
        assert level == 0 ==> fs[i] in fs && e in fs[i].entries;
        assert level > 0 ==> e in Elems(Flat(fs));
      }
    }
  }

  lemma UpperRunsOk(level: nat, fs: seq<File>, in0: seq<File>)
    requires LevelOk(level, fs) && StartOk(level, fs, in0) && (forall f :: f in in0 ==> f in fs)
    ensures RunsSorted(LevelRuns(level, in0)) && RunsApart(LevelRuns(level, in0))
  {
    var r := LevelRuns(level, in0);
    if level == 0 {
      var lo, hi :| in0 == Overlapping(fs, lo, hi) && InputSelection.Closed(fs, lo, hi);
      OverlappingOk(fs, lo, hi);
      forall i, j | 0 <= i < j < |r|
        ensures Apart(r[i], r[j])
      {
        FilesApart(0, in0, i, j);
      }
      assert forall i :: 0 <= i < |in0| ==> FileOk(in0[i]);
    } else {
      var i, j :| 0 <= i <= j <= |fs| && in0 == fs[i..j];
      SliceRunOk(level, fs, i, j);
    }
  }

  /** Adjacent files of a level make one sorted run. */
  lemma SliceRunOk(level: nat, fs: seq<File>, i: nat, j: nat)
    requires level > 0 && LevelOk(level, fs) && i <= j <= |fs|
    ensures RunsSorted(LevelRuns(level, fs[i..j])) && RunsApart(LevelRuns(level, fs[i..j]))
  {
    var s := fs[i..j];
    assert FilesOk(s) && Disjoint(s) by {
      hide FileOk;
    }
    hide FilesOk, Disjoint;
    FlatSorted(s);
  }

  lemma FilesApart(level: nat, fs: seq<File>, i: nat, j: nat)
    requires LevelOk(level, fs) && i < j < |fs|
    ensures Apart(fs[i].entries, fs[j].entries)
  {
    forall x, y | x in fs[i].entries && y in fs[j].entries
      ensures x.key.user != y.key.user || x.key.sn != y.key.sn
    {
      FilesDistinct(level, fs, i, j, x, y);
    }
  }

  /** A selection of a level-0 list keeps file numbers apart and ages in order. */
  lemma {:induction false} OverlappingOk(fs: seq<File>, lo: Option<UserKey>, hi: Option<UserKey>)
    requires LevelOk(0, fs)
    ensures LevelOk(0, Overlapping(fs, lo, hi))
  {
    if fs != [] {
      var init := fs[..|fs| - 1];
      OverlappingOk(init, lo, hi);
      var r := Overlapping(init, lo, hi);
      forall i | 0 <= i < |r|
        ensures r[i].number != fs[|fs| - 1].number
      {
        assert r[i] in r;
        var k :| 0 <= k < |init| && init[k] == r[i];
        assert fs[k] == r[i];
      }
    }
  }

  lemma ApartWhenAbove(a: seq<seq<Entry>>, b: seq<seq<Entry>>)
    requires Above(RunsElems(a), RunsElems(b))
    ensures forall i, j :: 0 <= i < |a| && 0 <= j < |b| ==> Apart(a[i], b[j])
  {
    forall i, j, x, y | 0 <= i < |a| && 0 <= j < |b| && x in a[i] && y in b[j]
      ensures x.key.user != y.key.user || x.key.sn != y.key.sn
    {
      assert x in RunsElems(a) && y in RunsElems(b);
    }
  }

  lemma JoinRuns(a: seq<seq<Entry>>, b: seq<seq<Entry>>)
    requires RunsSorted(a) && RunsSorted(b) && RunsApart(a) && RunsApart(b)
    requires Above(RunsElems(a), RunsElems(b))
    ensures RunsSorted(a + b) && RunsApart(a + b) && RunsElems(a + b) == RunsElems(a) + RunsElems(b)
  {
    ApartWhenAbove(a, b);
  }

  /** The entries of both input levels, merged. */
  function InputRun(level: nat, in0: seq<File>, in1: seq<File>): seq<Entry> {
    Merged(LevelRuns(level, in0) + LevelRuns(level + 1, in1))
  }

  lemma InputLevels(v: Version, level: nat, in0: seq<File>, in1: seq<File>)
    requires LsmOk(v) && CompactionOk(v, level, in0, in1)
    ensures level + 1 < NUM_LEVELS == |v.levels| && in0 != [] && forall f :: f in in0 ==> f in v.levels[level]
    ensures LevelOk(level, v.levels[level]) && LevelOk(level + 1, v.levels[level + 1])
    ensures in1 == Overlapping(v.levels[level + 1], Some(RangeLo(in0)), Some(RangeHi(in0)))
  {
  }

  /** The runs of both input levels: sorted, without common keys, holding exactly the input entries. */
  lemma InputRunsOk(v: Version, level: nat, in0: seq<File>, in1: seq<File>)
    requires LsmOk(v) && CompactionOk(v, level, in0, in1) && StartOk(level, v.levels[level], in0)
    ensures var runs := LevelRuns(level, in0) + LevelRuns(level + 1, in1);
            RunsSorted(runs) && RunsApart(runs) && RunsElems(runs) == InputEntries(in0, in1)
  {
    hide LsmOk, CompactionOk, LevelOk, StartOk, Overlapping, LevelRuns, RunsSorted, RunsApart, RunsElems, FilesEntries,
         Above;
    InputLevels(v, level, in0, in1);
    UpperRunsOk(level, v.levels[level], in0);
    LowerRunsOk(level + 1, v.levels[level + 1], in1, Some(RangeLo(in0)), Some(RangeHi(in0)));
    LevelRunsElems(level, in0);
    LevelRunsElems(level + 1, in1);
    InputsInVersion(v, level, in0, in1);
    LevelsAbove(v, level, level + 1);
    AboveSub(FilesEntries(v.levels[level]), FilesEntries(v.levels[level + 1]), FilesEntries(in0), FilesEntries(in1));
    JoinRuns(LevelRuns(level, in0), LevelRuns(level + 1, in1));
  }

  /** The input iterator of a compaction yields every input entry once, in order. */
  method MakeInputIterator(v: Version, level: nat, in0: seq<File>, in1: seq<File>) returns (input: seq<Entry>)
    requires LsmOk(v) && CompactionOk(v, level, in0, in1) && StartOk(level, v.levels[level], in0)
    ensures input == InputRun(level, in0, in1) && Sorted(input) && Elems(input) == InputEntries(in0, in1)
  {
    InputRunsOk(v, level, in0, in1);
    hide LsmOk, CompactionOk, StartOk;
    MergedSorted(LevelRuns(level, in0) + LevelRuns(level + 1, in1));
    input := InputRun(level, in0, in1);
  }

  lemma LowerRunsOk(level: nat, below: seq<File>, in1: seq<File>, lo: Option<UserKey>, hi: Option<UserKey>)
    requires level > 0 && LevelOk(level, below) && in1 == Overlapping(below, lo, hi)
    ensures RunsSorted(LevelRuns(level, in1)) && RunsApart(LevelRuns(level, in1))
  {
    var i, j := OverlappingIsSlice(below, lo, hi);
    SliceRunOk(level, below, i, j);
  }

  // -------------------------------------------------------------- recovery

  lemma {:induction false} ConcatPrefix(logs: map<nat, seq<Batch>>, ns: seq<nat>, i: nat, n: nat)
    requires (forall n :: n in ns ==> n in logs) && i <= n <= |ns|
    ensures ConcatTo(logs, ns, i) <= ConcatTo(logs, ns, n)
    decreases n
  {
    if i < n {
      ConcatPrefix(logs, ns, i, n - 1);
    }
  }

  /** Log `i` continues the records of the logs before it. */
  lemma ConcatAt(logs: map<nat, seq<Batch>>, ns: seq<nat>, i: nat)
    requires (forall n :: n in ns ==> n in logs) && i < |ns|
    ensures ns[i] in logs
    ensures var all, at := Concat(logs, ns), |ConcatTo(logs, ns, i)|;
            && at + |logs[ns[i]]| == |ConcatTo(logs, ns, i + 1)| <= |all|
            && all[..at] == ConcatTo(logs, ns, i)
            && all[..at + |logs[ns[i]]|] == ConcatTo(logs, ns, i + 1)
            && forall k :: 0 <= k < |logs[ns[i]]| ==> logs[ns[i]][k] == all[at + k]
  {
    assert ns[i] in ns;
    ConcatPrefix(logs, ns, i, |ns|);
    ConcatPrefix(logs, ns, i + 1, |ns|);
    var step := ConcatTo(logs, ns, i + 1);
    var at := |ConcatTo(logs, ns, i)|;
    assert Concat(logs, ns)[..|step|] == step;
    forall k | 0 <= k < |logs[ns[i]]|
      ensures logs[ns[i]][k] == Concat(logs, ns)[at + k]
    {
      assert step[at + k] == logs[ns[i]][k];
    }
  }

  lemma StackLater(r: Replay, low: nat, done: seq<Batch>, next: nat)
    requires Replayed(r, low, done) && r.next <= next
    ensures Replayed(r.(next := next), low, done)
  {
  }

  /** Replays one log after the earlier ones, then skips its number. */
  method ReplayLog(logs: map<nat, seq<Batch>>, ns: seq<nat>, i: nat, r: Replay, limits: Limits, ghost low: nat)
      returns (r2: Replay, ghost tables: seq<File>)
    requires (forall n :: n in ns ==> n in logs) && i < |ns| && Ascending(Concat(logs, ns))
    requires Replayed(r, low, ConcatTo(logs, ns, i)) && r.mem == None
    ensures Replayed(r2, low, ConcatTo(logs, ns, i + 1)) && r2.mem == None && r.next <= r2.next && ns[i] < r2.next
    ensures r2.added == r.added + tables && TablesCut(tables, logs[ns[i]], limits)
  {
    hide Replayed, Ascending, TablesCut;
    ConcatAt(logs, ns, i);
    r2, tables := RecoverLogFile(r, logs[ns[i]], limits, low, Concat(logs, ns), |ConcatTo(logs, ns, i)|);
    if r2.next <= ns[i] {
      StackLater(r2, low, ConcatTo(logs, ns, i + 1), ns[i] + 1);
      r2 := r2.(next := ns[i] + 1);
    }
  }

  lemma NothingReplayed(low: nat)
    ensures Replayed(Replay([], low, None, 0), low, [])
  {
    assert FilesEntries([]) + Elems<Entry>([]) == BatchesSet([]);
  }

  /** The table was cut from the records of one of the logs. */
  ghost predicate FromOneLog(f: File, logs: map<nat, seq<Batch>>, ns: seq<nat>, limits: Limits) {
    exists n :: n in ns && n in logs && TablesCut([f], logs[n], limits)
  }

  lemma AllFromOneLog(tables: seq<File>, logs: map<nat, seq<Batch>>, ns: seq<nat>, i: nat, limits: Limits)
    requires i < |ns| && ns[i] in logs && TablesCut(tables, logs[ns[i]], limits)
    ensures forall f :: f in tables ==> FromOneLog(f, logs, ns, limits)
  {
    forall f | f in tables
      ensures FromOneLog(f, logs, ns, limits)
    {
      assert ns[i] in ns && TablesCut([f], logs[ns[i]], limits);
    }
  }

  /** Replays the live logs in order. */
  method ReplayLogs(logs: map<nat, seq<Batch>>, ns: seq<nat>, limits: Limits, low: nat) returns (r: Replay)
    requires (forall n :: n in ns ==> n in logs) && Ascending(Concat(logs, ns))
    ensures Replayed(r, low, Concat(logs, ns)) && r.mem == None
    ensures forall n :: n in ns ==> n < r.next
    ensures forall f :: f in r.added ==> FromOneLog(f, logs, ns, limits)
  {
    hide Replayed, Ascending, TablesCut;
    r := Replay([], low, None, 0);
    NothingReplayed(low);
    var i := 0;
    while i < |ns|
      invariant i <= |ns| && r.mem == None && Replayed(r, low, ConcatTo(logs, ns, i))
      invariant forall k :: 0 <= k < i ==> ns[k] < r.next
      invariant forall f :: f in r.added ==> FromOneLog(f, logs, ns, limits)
    {
      ghost var tables;
      r, tables := ReplayLog(logs, ns, i, r, limits, low);
      AllFromOneLog(tables, logs, ns, i, limits);
      i := i + 1;
    }
  }
}
