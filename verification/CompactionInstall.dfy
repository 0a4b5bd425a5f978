/** Installing a merge compaction: the level invariants survive, and exactly when reads do. */
module CompactionInstall {
  import opened Wrappers
  import opened Keys
  import opened Lsm
  import opened InputSelection
  import opened Compactions
  import Manifest

  // ------------------------------------------------- levels as sets of files

  /** Different files of the level have different numbers. */
  ghost predicate UniqueNumbers(S: set<File>) {
    forall f, g :: f in S && g in S && f.number == g.number ==> f == g
  }

  /** No two files of the set overlap. */
  ghost predicate PairwiseDisjoint(S: set<File>) {
    forall f, g :: f in S && g in S && f != g ==> Before(f.largest, g.smallest) || Before(g.largest, f.smallest)
  }

  ghost predicate NewerByNumber(S: set<File>) {
    forall f, g :: f in S && g in S && f.number > g.number ==> Newer(f, g)
  }

  lemma OrderedDisjoint(fs: seq<File>)
    requires Manifest.Ordered(fs) && FilesOk(fs) && PairwiseDisjoint(Files(fs))
    ensures Disjoint(fs)
  {
    forall i, j | 0 <= i < j < |fs|
      ensures Before(fs[i].largest, fs[j].smallest)
    {
      assert fs[i] in Files(fs) && fs[j] in Files(fs);
      assert Manifest.BySmallest(fs[i], fs[j]);
      assert FileOk(fs[i]) && FileOk(fs[j]);
      FileSpan(fs[i]);
      FileSpan(fs[j]);
    }
  }

  lemma DisjointSet(fs: seq<File>)
    requires Disjoint(fs)
    ensures PairwiseDisjoint(Files(fs))
  {
    forall f, g | f in Files(fs) && g in Files(fs) && f != g
      ensures Before(f.largest, g.smallest) || Before(g.largest, f.smallest)
    {
      var i :| 0 <= i < |fs| && fs[i] == f;
      var j :| 0 <= j < |fs| && fs[j] == g;
      assert i < j || j < i;
    }
  }

  lemma OrderedNumbered(fs: seq<File>)
    requires Manifest.Ordered(fs) && UniqueNumbers(Files(fs)) && NewerByNumber(Files(fs))
    ensures NumberedByAge(fs)
  {
    forall i, j | 0 <= i < j < |fs|
      ensures fs[i].number != fs[j].number
    {
      assert fs[i] in Files(fs) && fs[j] in Files(fs);
      assert Manifest.BySmallest(fs[i], fs[j]);
    }
    assert forall f :: f in fs ==> f in Files(fs);
  }

  lemma LevelNewerIff(fs: seq<File>, gs: seq<File>)
    ensures LevelNewer(fs, gs) <==> Above(FilesEntries(fs), FilesEntries(gs))
  {
    if Above(FilesEntries(fs), FilesEntries(gs)) {
      forall f, g, e, x | f in fs && g in gs && e in f.entries && x in g.entries && e.key.user == x.key.user
        ensures e.key.sn > x.key.sn
      {
        assert e in FilesEntries(fs) && x in FilesEntries(gs);
      }
    }
  }

  lemma LevelsAbove(v: Version, l: nat, m: nat)
    requires LsmOk(v) && l < m < NUM_LEVELS
    ensures Above(FilesEntries(v.levels[l]), FilesEntries(v.levels[m]))
  {
    LevelNewerIff(v.levels[l], v.levels[m]);
  }

  // ------------------------------------------------------- one level changes

  /** `fs2` lists, in order, what remains of `fs` without `gone`, plus `new'`. */
  ghost predicate Replaces(fs: seq<File>, gone: set<File>, added: set<File>, fs2: seq<File>) {
    Manifest.Ordered(fs2) && Files(fs2) == Files(fs) - gone + added
  }

  /** The effect of the edit of a merge compaction. */
  ghost predicate Installs(v: Version, level: nat, in0: seq<File>, in1: seq<File>, outputs: seq<File>, v2: Version) {
    && |v2.levels| == |v.levels| == NUM_LEVELS && level + 1 < NUM_LEVELS
    && (forall l :: 0 <= l < NUM_LEVELS && l != level && l != level + 1 ==> v2.levels[l] == v.levels[l])
    && Replaces(v.levels[level], Files(in0), {}, v2.levels[level])
    && Replaces(v.levels[level + 1], Files(in1), Files(outputs), v2.levels[level + 1])
  }

  ghost function InputEntries(in0: seq<File>, in1: seq<File>): set<Entry> {
    FilesEntries(in0) + FilesEntries(in1)
  }

  /** The outputs are legal non-overlapping tables of input entries. */
  ghost predicate OutputsOf(in0: seq<File>, in1: seq<File>, outputs: seq<File>) {
    FilesOk(outputs) && Disjoint(outputs) && FilesEntries(outputs) <= InputEntries(in0, in1)
  }

  /** The file lies wholly before or wholly after all of the entries. */
  ghost predicate Beside(g: File, S: set<Entry>) {
    (forall e :: e in S ==> Before(g.largest, e.key)) || (forall e :: e in S ==> Before(e.key, g.smallest))
  }

  lemma BesideUpper(fs: seq<File>, in0: seq<File>, e: Entry)
    requires FilesOk(fs) && in0 != [] && (forall f :: f in in0 ==> f in fs) && e in FilesEntries(in0)
    ensures RangeLo(in0) <= e.key.user <= RangeHi(in0)
  {
    var f :| f in in0 && e in f.entries;
    EntryInRange(f, e);
  }

  lemma BesideLower(below: seq<File>, lo: UserKey, hi: UserKey, h: File, g: File, e: Entry)
    requires FilesOk(below) && Disjoint(below) && h in below && g in below && e in h.entries
    requires Overlaps(h, Some(lo), Some(hi)) && !Overlaps(g, Some(lo), Some(hi))
    ensures g.largest.user < lo ==> Before(g.largest, e.key)
    ensures hi < g.smallest.user ==> Before(e.key, g.smallest)
  {
    EntryInRange(h, e);
    FileSpan(g);
    DisjointSet(below);
    assert h in Files(below) && g in Files(below);
  }

  /** A file left behind one level down lies wholly before or wholly after everything compacted. */
  lemma LeftBehindBeside(v: Version, level: nat, in0: seq<File>, in1: seq<File>, g: File)
    requires LsmOk(v) && CompactionOk(v, level, in0, in1)
    requires g in v.levels[level + 1] && g !in in1
    ensures Beside(g, InputEntries(in0, in1))
  {
    var lo, hi := RangeLo(in0), RangeHi(in0);
    assert LevelOk(level, v.levels[level]) && LevelOk(level + 1, v.levels[level + 1]);
    forall e | e in InputEntries(in0, in1)
      ensures g.largest.user < lo ==> Before(g.largest, e.key)
      ensures hi < g.smallest.user ==> Before(e.key, g.smallest)
    {
      if e in FilesEntries(in0) {
        BesideUpper(v.levels[level], in0, e);
      } else {
        var h :| h in in1 && e in h.entries;
        BesideLower(v.levels[level + 1], lo, hi, h, g, e);
      }
    }
    assert !Overlaps(g, Some(lo), Some(hi));
  }

  lemma OutputBeside(g: File, o: File, S: set<Entry>)
    requires Beside(g, S) && FileOk(o) && Elems(o.entries) <= S
    ensures Before(g.largest, o.smallest) || Before(o.largest, g.smallest)
  {
    var first, last := o.entries[0], o.entries[|o.entries| - 1];
    assert first in Elems(o.entries) && last in Elems(o.entries);
  }

  lemma NewLevelDisjoint(v: Version, level: nat, in0: seq<File>, in1: seq<File>, outputs: seq<File>)
    requires LsmOk(v) && CompactionOk(v, level, in0, in1) && OutputsOf(in0, in1, outputs)
    ensures PairwiseDisjoint(Files(v.levels[level + 1]) - Files(in1) + Files(outputs))
  {
    assert LevelOk(level + 1, v.levels[level + 1]);
    DisjointSet(v.levels[level + 1]);
    DisjointSet(outputs);
    forall g, o | g in Files(v.levels[level + 1]) - Files(in1) && o in Files(outputs)
      ensures Before(g.largest, o.smallest) || Before(o.largest, g.smallest)
    {
      LeftBehindBeside(v, level, in0, in1, g);
      assert Elems(o.entries) <= FilesEntries(outputs);
      OutputBeside(g, o, InputEntries(in0, in1));
    }
  }

  // ------------------------------------------------------------ invariants

  /** Every entry one level down after the compaction was at one of the two input levels before. */
  lemma NewLevelEntries(v: Version, level: nat, in0: seq<File>, in1: seq<File>, outputs: seq<File>, v2: Version)
    requires CompactionOk(v, level, in0, in1) && OutputsOf(in0, in1, outputs)
    requires Installs(v, level, in0, in1, outputs, v2)
    ensures FilesEntries(v2.levels[level + 1]) <= FilesEntries(v.levels[level + 1]) + FilesEntries(in0)
    ensures FilesEntries(v2.levels[level]) <= FilesEntries(v.levels[level])
  {
    var fs, fs2, below, below2 := v.levels[level], v2.levels[level], v.levels[level + 1], v2.levels[level + 1];
    forall e | e in FilesEntries(below2)
      ensures e in FilesEntries(below) || e in FilesEntries(in0)
    {
      var f :| f in below2 && e in f.entries;
      assert f in Files(below2);
      if f in outputs {
        assert e in FilesEntries(outputs);
      }
    }
    forall e | e in FilesEntries(fs2)
      ensures e in FilesEntries(fs)
    {
      var f :| f in fs2 && e in f.entries;
      assert f in Files(fs2);
    }
  }

  lemma StayersAboveMovers(v: Version, level: nat, in0: seq<File>, in1: seq<File>, outputs: seq<File>, v2: Version)
    requires LsmOk(v) && CompactionOk(v, level, in0, in1) && Installs(v, level, in0, in1, outputs, v2)
    ensures Above(FilesEntries(v2.levels[level]), FilesEntries(in0))
  {
    forall a, b | a in FilesEntries(v2.levels[level]) && b in FilesEntries(in0) && a.key.user == b.key.user
      ensures a.key.sn > b.key.sn
    {
      var g :| g in v2.levels[level] && a in g.entries;
      assert g in Files(v2.levels[level]);
      var f :| f in in0 && b in f.entries;
      assert Newer(g, f);
    }
  }

  lemma AboveSub(A: set<Entry>, B: set<Entry>, A2: set<Entry>, B2: set<Entry>)
    requires Above(A, B) && A2 <= A && B2 <= B
    ensures Above(A2, B2)
  {
  }

  lemma AboveBoth(A: set<Entry>, B: set<Entry>, C: set<Entry>, A2: set<Entry>, D: set<Entry>)
    requires Above(A, B) && Above(A, C) && A2 <= A && D <= B + C
    ensures Above(A2, D)
  {
  }

  lemma BothAbove(A: set<Entry>, B: set<Entry>, C: set<Entry>, D: set<Entry>, C2: set<Entry>)
    requires Above(A, C) && Above(B, C) && D <= A + B && C2 <= C
    ensures Above(D, C2)
  {
  }

  lemma InputsInLevel(fs: seq<File>, in0: seq<File>)
    requires forall f :: f in in0 ==> f in fs
    ensures FilesEntries(in0) <= FilesEntries(fs)
  {
  }

  /** What each level may hold after the install. */
  lemma InstalledWithin(v: Version, level: nat, in0: seq<File>, in1: seq<File>, outputs: seq<File>, v2: Version, l: nat)
    requires CompactionOk(v, level, in0, in1) && OutputsOf(in0, in1, outputs)
    requires Installs(v, level, in0, in1, outputs, v2) && l < NUM_LEVELS
    ensures |v.levels| == |v2.levels| == NUM_LEVELS
    ensures FilesEntries(in0) <= FilesEntries(v.levels[level])
    ensures if l == level + 1 then FilesEntries(v2.levels[l]) <= FilesEntries(v.levels[l]) + FilesEntries(in0)
            else FilesEntries(v2.levels[l]) <= FilesEntries(v.levels[l])
  {
    NewLevelEntries(v, level, in0, in1, outputs, v2);
    InputsInLevel(v.levels[level], in0);
  }

  lemma InstallAbove(v: Version, level: nat, in0: seq<File>, in1: seq<File>, outputs: seq<File>, v2: Version, l: nat,
                     m: nat)
    requires LsmOk(v) && CompactionOk(v, level, in0, in1) && OutputsOf(in0, in1, outputs)
    requires Installs(v, level, in0, in1, outputs, v2) && l < m < NUM_LEVELS
    ensures Above(FilesEntries(v2.levels[l]), FilesEntries(v2.levels[m]))
  {
    InstalledWithin(v, level, in0, in1, outputs, v2, l);
    InstalledWithin(v, level, in0, in1, outputs, v2, m);
    hide LsmOk, CompactionOk, OutputsOf, Installs, FilesEntries, Above;
    LevelsAbove(v, l, m);
    var L, M, L2, M2 := FilesEntries(v.levels[l]), FilesEntries(v.levels[m]), FilesEntries(v2.levels[l]),
        FilesEntries(v2.levels[m]);
    if m == level + 1 && l == level {
      StayersAboveMovers(v, level, in0, in1, outputs, v2);
      AboveSub(L, M, L2, M);
      AboveBoth(L2, M, FilesEntries(in0), L2, M2);
    } else if m == level + 1 {
      LevelsAbove(v, l, level);
      AboveSub(L, FilesEntries(v.levels[level]), L, FilesEntries(in0));
      AboveBoth(L, M, FilesEntries(in0), L2, M2);
    } else if l == level + 1 {
      LevelsAbove(v, level, m);
      AboveSub(FilesEntries(v.levels[level]), M, FilesEntries(in0), M);
      BothAbove(L, FilesEntries(in0), M, L2, M2);
    } else {
      AboveSub(L, M, L2, M2);
    }
  }

  lemma UpperLevelOk(level: nat, fs: seq<File>, gone: set<File>, fs2: seq<File>)
    requires LevelOk(level, fs) && Replaces(fs, gone, {}, fs2)
    ensures LevelOk(level, fs2)
  {
    assert forall f :: f in fs2 ==> f in Files(fs2);
    if level == 0 {
      NumberedSet(fs);
      OrderedNumbered(fs2);
    } else {
      DisjointSet(fs);
      OrderedDisjoint(fs2);
    }
  }

  lemma LowerLevelOk(fs: seq<File>, gone: set<File>, outputs: seq<File>, fs2: seq<File>)
    requires FilesOk(fs) && FilesOk(outputs) && Replaces(fs, gone, Files(outputs), fs2)
    requires PairwiseDisjoint(Files(fs) - gone + Files(outputs))
    ensures FilesOk(fs2) && Disjoint(fs2)
  {
    assert forall f :: f in fs2 ==> f in Files(fs2);
    OrderedDisjoint(fs2);
  }

  lemma InstallLevelsOk(v: Version, level: nat, in0: seq<File>, in1: seq<File>, outputs: seq<File>, v2: Version)
    requires LsmOk(v) && CompactionOk(v, level, in0, in1) && OutputsOf(in0, in1, outputs)
    requires Installs(v, level, in0, in1, outputs, v2)
    ensures LevelOk(level, v2.levels[level]) && LevelOk(level + 1, v2.levels[level + 1])
  {
    assert LevelOk(level, v.levels[level]) && LevelOk(level + 1, v.levels[level + 1]);
    UpperLevelOk(level, v.levels[level], Files(in0), v2.levels[level]);
    NewLevelDisjoint(v, level, in0, in1, outputs);
    LowerLevelOk(v.levels[level + 1], Files(in1), outputs, v2.levels[level + 1]);
  }

  lemma NumberedSet(fs: seq<File>)
    requires NumberedByAge(fs)
    ensures UniqueNumbers(Files(fs)) && NewerByNumber(Files(fs))
  {
    forall f, g | f in Files(fs) && g in Files(fs) && f.number == g.number
      ensures f == g
    {
      var i :| 0 <= i < |fs| && fs[i] == f;
      var j :| 0 <= j < |fs| && fs[j] == g;
      assert !(i < j) && !(j < i);
    }
  }

  /** Merge compactions keep all level invariants; no boundary condition is needed one level down. */
  lemma InstallKeepsLsm(v: Version, level: nat, in0: seq<File>, in1: seq<File>, outputs: seq<File>, v2: Version)
    requires LsmOk(v) && CompactionOk(v, level, in0, in1) && OutputsOf(in0, in1, outputs)
    requires Installs(v, level, in0, in1, outputs, v2)
    ensures LsmOk(v2)
  {
    forall l, m | 0 <= l < m < NUM_LEVELS
      ensures LevelNewer(v2.levels[l], v2.levels[m])
    {
      InstallAbove(v, level, in0, in1, outputs, v2, l, m);
      LevelNewerIff(v2.levels[l], v2.levels[m]);
    }
    forall l: nat | l < NUM_LEVELS
      ensures LevelOk(l, v2.levels[l])
    {
      InstallLevelOk(v, level, in0, in1, outputs, v2, l);
    }
  }

  lemma InstallLevelOk(v: Version, level: nat, in0: seq<File>, in1: seq<File>, outputs: seq<File>, v2: Version, l: nat)
    requires LsmOk(v) && CompactionOk(v, level, in0, in1) && OutputsOf(in0, in1, outputs)
    requires Installs(v, level, in0, in1, outputs, v2) && l < NUM_LEVELS
    ensures LevelOk(l, v2.levels[l])
  {
    InstallLevelsOk(v, level, in0, in1, outputs, v2);
  }
}
