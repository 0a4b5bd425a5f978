/** Memtable flushes and trivial moves: where the new file may go, and why the invariants survive. */
module LsmSteps {
  import opened Wrappers
  import opened Keys
  import opened Lsm
  import opened InputSelection
  import opened Compactions
  import opened CompactionInstall
  import opened CompactionTheorem
  import VersionGet

  // --------------------------------------------------- overlap of a level

  ghost predicate SomeOverlap(fs: seq<File>, smallest: UserKey, largest: UserKey) {
    exists f :: f in fs && Overlaps(f, Some(smallest), Some(largest))
  }

  ghost predicate SequencesBounded(fs: seq<File>) {
    forall f :: f in fs ==> f.largest.sn <= MAX_SEQUENCE
  }

  lemma FirstCandidate(fs: seq<File>, index: nat, smallest: UserKey, largest: UserKey)
    requires LevelOk(1, fs) && SequencesBounded(fs) && index <= |fs|
    requires forall i :: 0 <= i < index ==> Less(fs[i].largest, SeekKey(smallest, MAX_SEQUENCE))
    requires forall i :: index <= i < |fs| ==> !Less(fs[i].largest, SeekKey(smallest, MAX_SEQUENCE))
    ensures SomeOverlap(fs, smallest, largest) <==> index < |fs| && fs[index].smallest.user <= largest
  {
    forall i | 0 <= i < |fs|
      ensures smallest <= fs[i].largest.user <==> index <= i
    {
      assert fs[i] in fs;
    }
    if f :| f in fs && Overlaps(f, Some(smallest), Some(largest)) {
      var i :| 0 <= i < |fs| && fs[i] == f;
      if index < i {
        LevelOrder(fs, index, i);
      }
    }
    if index < |fs| && fs[index].smallest.user <= largest {
      assert Overlaps(fs[index], Some(smallest), Some(largest));
    }
  }

  /** Whether some file of the level shares a user key with the range; a binary search below level 0. */
  method OverlapInLevel(level: nat, fs: seq<File>, smallest: UserKey, largest: UserKey) returns (r: bool)
    requires LevelOk(level, fs) && SequencesBounded(fs)
    ensures r <==> SomeOverlap(fs, smallest, largest)
  {
    if level == 0 {
      for i := 0 to |fs|
        invariant forall j :: 0 <= j < i ==> !Overlaps(fs[j], Some(smallest), Some(largest))
      {
        var f := fs[i];
        if smallest > f.largest.user || largest < f.smallest.user {
        } else {
          assert fs[i] in fs && Overlaps(fs[i], Some(smallest), Some(largest));
          return true;
        }
      }
      return false;
    }
    var index := VersionGet.FindFile(fs, SeekKey(smallest, MAX_SEQUENCE));
    FirstCandidate(fs, index, smallest, largest);
    if index >= |fs| {
      return false;
    }
    r := !(largest < fs[index].smallest.user);
  }

  /** A new file may go from level `l` to the next: nothing overlaps it there, and not too much two levels down. */
  ghost predicate MayDescend(v: Version, l: nat, smallest: UserKey, largest: UserKey, maxFileSize: nat)
    requires l + 1 < |v.levels|
  {
    && !SomeOverlap(v.levels[l + 1], smallest, largest)
    && (l + 2 < |v.levels| ==>
          TotalFileSize(Overlapping(v.levels[l + 2], Some(smallest), Some(largest)))
          <= MaxGrandParentOverlapBytes(maxFileSize))
  }

  /**
   * Level 0 if it overlaps a file there. Otherwise as deep as it may descend step by step, level 2 at most.
   */
  ghost predicate DeepestPlace(v: Version, smallest: UserKey, largest: UserKey, maxFileSize: nat, level: nat) {
    && |v.levels| == NUM_LEVELS && level <= MAX_MEM_COMPACT_LEVEL
    && (level > 0 ==> !SomeOverlap(v.levels[0], smallest, largest))
    && (forall l :: 0 <= l < level ==> MayDescend(v, l, smallest, largest, maxFileSize))
    && (level == MAX_MEM_COMPACT_LEVEL || SomeOverlap(v.levels[0], smallest, largest)
        || !MayDescend(v, level, smallest, largest, maxFileSize))
  }

  /** Only one level is the deepest place. */
  lemma DeepestPlaceUnique(v: Version, smallest: UserKey, largest: UserKey, maxFileSize: nat, l1: nat, l2: nat)
    requires DeepestPlace(v, smallest, largest, maxFileSize, l1)
    requires DeepestPlace(v, smallest, largest, maxFileSize, l2)
    ensures l1 == l2
  {
    hide SomeOverlap, MayDescend;
  }

  /** As deep as it may descend, level 2 at most, unless level 0 overlaps it. */
  method PickLevelForMemTableOutput(v: Version, smallest: UserKey, largest: UserKey, maxFileSize: nat)
      returns (level: nat)
    requires LsmOk(v) && forall l :: 0 <= l < NUM_LEVELS ==> SequencesBounded(v.levels[l])
    ensures DeepestPlace(v, smallest, largest, maxFileSize, level)
    ensures level > 0 ==> forall l :: 0 <= l <= level ==> !SomeOverlap(v.levels[l], smallest, largest)
  {
    hide LevelOk, SequencesBounded, SomeOverlap, TotalFileSize, Overlapping, RangeFor;
    level := 0;
    assert LevelOk(0, v.levels[0]);
    var overlap := OverlapInLevel(0, v.levels[0], smallest, largest);
    if !overlap {
      while level < MAX_MEM_COMPACT_LEVEL
        invariant level <= MAX_MEM_COMPACT_LEVEL
        invariant forall l :: 0 <= l <= level ==> !SomeOverlap(v.levels[l], smallest, largest)
        invariant forall l :: 0 <= l < level ==> MayDescend(v, l, smallest, largest, maxFileSize)
      {
        assert LevelOk(level + 1, v.levels[level + 1]);
        overlap := OverlapInLevel(level + 1, v.levels[level + 1], smallest, largest);
        if overlap {
          break;
        }
        if level + 2 < NUM_LEVELS {
          ghost var lo, hi;
          var overlaps;
          overlaps, lo, hi := GetOverlappingInputs(level + 2, v.levels[level + 2], Some(smallest), Some(largest));
          if TotalFileSize(overlaps) > MaxGrandParentOverlapBytes(maxFileSize) {
            break;
          }
        }
        level := level + 1;
      }
    }
  }

  // ------------------------------------------------------------- flushing

  /** `v2` is `v` with one file added at `level`. */
  ghost predicate AddsFile(v: Version, level: nat, f: File, v2: Version) {
    && |v2.levels| == |v.levels| == NUM_LEVELS && level < NUM_LEVELS
    && (forall l :: 0 <= l < NUM_LEVELS && l != level ==> v2.levels[l] == v.levels[l])
    && Replaces(v.levels[level], {}, {f}, v2.levels[level])
  }

  /** A table built from a memtable that is newer than the whole version. */
  ghost predicate FlushOk(v: Version, level: nat, f: File) {
    && FileOk(f) && Above(Elems(f.entries), Entries(v))
    && |v.levels| == NUM_LEVELS && level < NUM_LEVELS
    && (forall g :: g in v.levels[0] ==> g.number < f.number)
    && (level > 0 ==> forall l :: 0 <= l <= level ==> !SomeOverlap(v.levels[l], f.smallest.user, f.largest.user))
  }

  lemma FlushedEntries(v: Version, level: nat, f: File, v2: Version, l: nat)
    requires AddsFile(v, level, f, v2) && l < NUM_LEVELS
    ensures FilesEntries(v2.levels[l]) == FilesEntries(v.levels[l]) + if l == level then Elems(f.entries) else {}
  {
    if l == level {
      var fs, fs2 := v.levels[l], v2.levels[l];
      assert forall g :: g in fs2 <==> g in Files(fs2);
      assert forall g :: g in fs2 <==> g in fs || g == f;
    }
  }

  lemma FlushKeepsEntries(v: Version, level: nat, f: File, v2: Version)
    requires AddsFile(v, level, f, v2)
    ensures Entries(v2) == Entries(v) + Elems(f.entries)
  {
    forall e
      ensures e in Entries(v2) <==> e in Entries(v) || e in Elems(f.entries)
    {
      EntryAt(v, e);
      EntryAt(v2, e);
      forall l: nat | l < NUM_LEVELS
        ensures e in FilesEntries(v2.levels[l]) <==>
                  e in FilesEntries(v.levels[l])
                  || (l == level && e in Elems(f.entries))
      {
        FlushedEntries(v, level, f, v2, l);
      }
      if e in Elems(f.entries) {
        assert e in FilesEntries(v2.levels[level]);
      }
    }
  }

  lemma LevelInVersion(v: Version, l: nat)
    requires l < |v.levels|
    ensures FilesEntries(v.levels[l]) <= Entries(v)
  {
    forall e | e in FilesEntries(v.levels[l])
      ensures e in Entries(v)
    {
      EntryAt(v, e);
    }
  }

  lemma NothingShared(f: File, g: File)
    requires FileOk(f) && FileOk(g) && !Overlaps(g, Some(f.smallest.user), Some(f.largest.user))
    ensures forall e, x :: e in f.entries && x in g.entries ==> e.key.user != x.key.user
    ensures Before(f.largest, g.smallest) || Before(g.largest, f.smallest)
  {
    forall e, x | e in f.entries && x in g.entries
      ensures e.key.user != x.key.user
    {
      EntryInRange(f, e);
      EntryInRange(g, x);
    }
  }

  lemma FlushLevel0Ok(fs: seq<File>, f: File, fs2: seq<File>)
    requires LevelOk(0, fs) && FileOk(f) && Above(Elems(f.entries), FilesEntries(fs))
    requires (forall g :: g in fs ==> g.number < f.number) && Replaces(fs, {}, {f}, fs2)
    ensures LevelOk(0, fs2)
  {
    assert forall g :: g in fs2 <==> g in Files(fs2);
    NumberedSet(fs);
    forall g | g in fs
      ensures Newer(f, g)
    {
      assert Elems(g.entries) <= FilesEntries(fs);
    }
    OrderedNumbered(fs2);
  }

  lemma FlushBelowOk(fs: seq<File>, f: File, fs2: seq<File>)
    requires LevelOk(1, fs) && FileOk(f) && !SomeOverlap(fs, f.smallest.user, f.largest.user)
    requires Replaces(fs, {}, {f}, fs2)
    ensures LevelOk(1, fs2)
  {
    assert forall g :: g in fs2 <==> g in Files(fs2);
    DisjointSet(fs);
    forall g | g in fs
      ensures Before(f.largest, g.smallest) || Before(g.largest, f.smallest)
    {
      NothingShared(f, g);
    }
    OrderedDisjoint(fs2);
  }

  lemma FlushLevelOk(v: Version, level: nat, f: File, v2: Version)
    requires LsmOk(v) && FlushOk(v, level, f) && AddsFile(v, level, f, v2)
    ensures LevelOk(level, v2.levels[level])
  {
    assert LevelOk(level, v.levels[level]);
    if level == 0 {
      LevelInVersion(v, 0);
      FlushLevel0Ok(v.levels[0], f, v2.levels[0]);
    } else {
      assert !SomeOverlap(v.levels[level], f.smallest.user, f.largest.user);
      FlushBelowOk(v.levels[level], f, v2.levels[level]);
    }
  }

  lemma FlushAbove(v: Version, level: nat, f: File, v2: Version, l: nat, m: nat)
    requires LsmOk(v) && FlushOk(v, level, f) && AddsFile(v, level, f, v2) && l < m < NUM_LEVELS
    ensures Above(FilesEntries(v2.levels[l]), FilesEntries(v2.levels[m]))
  {
    LevelsAbove(v, l, m);
    FlushedEntries(v, level, f, v2, l);
    FlushedEntries(v, level, f, v2, m);
    if l == level {
      LevelInVersion(v, m);
    } else if m == level {
      var fs := v.levels[l];
      assert !SomeOverlap(fs, f.smallest.user, f.largest.user) && LevelOk(l, fs);
      forall a, b | a in FilesEntries(fs) && b in Elems(f.entries)
        ensures a.key.user != b.key.user
      {
        var g :| g in fs && a in g.entries;
        NothingShared(f, g);
      }
    }
  }

  lemma FlushKeepsLsm(v: Version, level: nat, f: File, v2: Version)
    requires LsmOk(v) && FlushOk(v, level, f) && AddsFile(v, level, f, v2)
    ensures LsmOk(v2)
  {
    FlushLevelOk(v, level, f, v2);
    forall l, m | 0 <= l < m < NUM_LEVELS
      ensures LevelNewer(v2.levels[l], v2.levels[m])
    {
      FlushAbove(v, level, f, v2, l, m);
      LevelNewerIff(v2.levels[l], v2.levels[m]);
    }
    assert forall l :: 0 <= l < NUM_LEVELS && l != level ==> LevelOk(l, v.levels[l]);
  }

  // --------------------------------------------------------- trivial moves

  /** Moving a lone input file one level down is an install of the file itself. */
  lemma MoveKeepsLsm(v: Version, level: nat, f: File, v2: Version)
    requires LsmOk(v) && CompactionOk(v, level, [f], []) && Installs(v, level, [f], [], [f], v2)
    ensures LsmOk(v2) && Entries(v2) == Entries(v)
  {
    assert LevelOk(level, v.levels[level]);
    assert FilesOk([f]) && Disjoint([f]);
    InstallKeepsLsm(v, level, [f], [], [f], v2);
    InstalledEntries(v, level, [f], [], [f], v2);
    InputsInVersion(v, level, [f], []);
    assert FilesEntries([]) == {};
  }
}
