/** Merge compactions and reads: the exact condition, and the input rule that would guarantee it. */
module CompactionTheorem {
  import opened Wrappers
  import opened Keys
  import opened Lsm
  import opened InputSelection
  import opened Compactions
  import opened CompactionReads
  import opened CompactionWork
  import opened CompactionInstall

  /** The outputs hold exactly the entries the drop rules keep. */
  ghost predicate KeepsExactly(v: Version, level: nat, in0: seq<File>, in1: seq<File>, oldest: nat,
                               outputs: seq<File>)
  {
    && FilesOk(outputs) && Disjoint(outputs)
    && FilesEntries(outputs) == KeptSet(InputEntries(in0, in1), oldest, BaseOf(v, level))
  }

  // -------------------------------------------------- the rest stays in place

  /** What the version holds outside the inputs. */
  ghost function RestEntries(v: Version, in0: seq<File>, in1: seq<File>): set<Entry> {
    Entries(v) - InputEntries(in0, in1)
  }

  lemma EntryAt(v: Version, e: Entry)
    ensures e in Entries(v) <==> exists l :: 0 <= l < |v.levels| && e in FilesEntries(v.levels[l])
  {
    EntriesFromHas(v, 0, e);
  }

  lemma InputsInVersion(v: Version, level: nat, in0: seq<File>, in1: seq<File>)
    requires CompactionOk(v, level, in0, in1)
    ensures FilesEntries(in0) <= FilesEntries(v.levels[level])
    ensures FilesEntries(in1) <= FilesEntries(v.levels[level + 1])
    ensures InputEntries(in0, in1) <= Entries(v)
  {
    InputsInLevel(v.levels[level], in0);
    InputsInLevel(v.levels[level + 1], in1);
    forall e | e in InputEntries(in0, in1)
      ensures e in Entries(v)
    {
      EntryAt(v, e);
    }
  }

  /** Two files of one level share no entry. */
  lemma FilesShareNothing(level: nat, fs: seq<File>, f: File, g: File, e: Entry)
    requires LevelOk(level, fs) && f in fs && g in fs && e in f.entries && e in g.entries
    ensures f == g
  {
    var i :| 0 <= i < |fs| && fs[i] == f;
    var j :| 0 <= j < |fs| && fs[j] == g;
    if i < j {
      FilesDistinct(level, fs, i, j, e, e);
    } else if j < i {
      FilesDistinct(level, fs, j, i, e, e);
    }
  }

  /** Removing files from a level removes exactly their entries. */
  lemma RemovedEntries(level: nat, fs: seq<File>, gone: seq<File>, kept: set<File>, e: Entry)
    requires LevelOk(level, fs) && (forall f :: f in gone ==> f in fs)
    requires kept == Files(fs) - Files(gone)
    ensures (exists f :: f in kept && e in f.entries) <==> e in FilesEntries(fs) && e !in FilesEntries(gone)
  {
    if f :| f in kept && e in f.entries {
      if e in FilesEntries(gone) {
        var g :| g in gone && e in g.entries;
        FilesShareNothing(level, fs, f, g, e);
      }
    }
    if e in FilesEntries(fs) && e !in FilesEntries(gone) {
      var f :| f in fs && e in f.entries;
      assert f in kept;
    }
  }

  lemma LevelsShareNothing(v: Version, l: nat, m: nat, e: Entry)
    requires LsmOk(v) && l < NUM_LEVELS && m < NUM_LEVELS && l != m
    requires e in FilesEntries(v.levels[l])
    ensures e !in FilesEntries(v.levels[m])
  {
    if l < m {
      LevelsAbove(v, l, m);
    } else {
      LevelsAbove(v, m, l);
    }
  }

  /** An entry of one level can only be an input if the level is an input level. */
  lemma InputsOfLevel(v: Version, level: nat, in0: seq<File>, in1: seq<File>, l: nat, e: Entry)
    requires LsmOk(v) && CompactionOk(v, level, in0, in1) && l < NUM_LEVELS && e in FilesEntries(v.levels[l])
    ensures l != level ==> e !in FilesEntries(in0)
    ensures l != level + 1 ==> e !in FilesEntries(in1)
  {
    InputsInLevel(v.levels[level], in0);
    InputsInLevel(v.levels[level + 1], in1);
    if l != level {
      LevelsShareNothing(v, l, level, e);
    }
    if l != level + 1 {
      LevelsShareNothing(v, l, level + 1, e);
    }
  }

  lemma ReplacedEntries(l: nat, fs: seq<File>, gone: seq<File>, added: seq<File>, fs2: seq<File>, e: Entry)
    requires LevelOk(l, fs) && (forall f :: f in gone ==> f in fs) && Replaces(fs, Files(gone), Files(added), fs2)
    ensures e in FilesEntries(fs2) <==> (e in FilesEntries(fs) && e !in FilesEntries(gone)) || e in FilesEntries(added)
  {
    var kept := Files(fs) - Files(gone);
    RemovedEntries(l, fs, gone, kept, e);
    assert forall f :: f in fs2 <==> f in Files(fs2);
    assert forall f :: f in fs2 <==> f in kept || f in added;
  }

  lemma InstalledLevel(v: Version, level: nat, in0: seq<File>, in1: seq<File>, outputs: seq<File>, v2: Version, l: nat,
                       e: Entry)
    requires LsmOk(v) && CompactionOk(v, level, in0, in1) && Installs(v, level, in0, in1, outputs, v2) && l < NUM_LEVELS
    ensures e in FilesEntries(v2.levels[l])
       <==> (e in FilesEntries(v.levels[l]) && e !in InputEntries(in0, in1))
            || (l == level + 1 && e in FilesEntries(outputs))
  {
    assert LevelOk(l, v.levels[l]);
    if e in FilesEntries(v.levels[l]) {
      InputsOfLevel(v, level, in0, in1, l, e);
    }
    if l == level {
      assert Files([]) == {};
      ReplacedEntries(l, v.levels[l], in0, [], v2.levels[l], e);
    } else if l == level + 1 {
      ReplacedEntries(l, v.levels[l], in1, outputs, v2.levels[l], e);
    }
  }

  /** After the install the version holds what was outside the inputs plus the outputs. */
  lemma InstalledEntries(v: Version, level: nat, in0: seq<File>, in1: seq<File>, outputs: seq<File>, v2: Version)
    requires LsmOk(v) && CompactionOk(v, level, in0, in1) && Installs(v, level, in0, in1, outputs, v2)
    ensures Entries(v2) == RestEntries(v, in0, in1) + FilesEntries(outputs)
  {
    forall e
      ensures e in Entries(v2) <==> e in RestEntries(v, in0, in1) || e in FilesEntries(outputs)
    {
      EntryAt(v, e);
      EntryAt(v2, e);
      forall l: nat | l < NUM_LEVELS
        ensures e in FilesEntries(v2.levels[l])
           <==> (e in FilesEntries(v.levels[l]) && e !in InputEntries(in0, in1))
                || (l == level + 1 && e in FilesEntries(outputs))
      {
        InstalledLevel(v, level, in0, in1, outputs, v2, l, e);
      }
      if e in FilesEntries(outputs) {
        assert e in FilesEntries(v2.levels[level + 1]);
      }
    }
  }

  // ----------------------------------------------------- the exact condition

  /**
   * A user key cut by the compaction one level down: the newest input entry a reader at
   * `point` sees is a marker `t` in a compacted file `h`, the marker may be dropped, and an
   * uncompacted file `g` of the same level holds an older value `r` that nothing else hides.
   * `above` holds the entries of the memtables; entries are dropped at `oldest`.
   */
  ghost predicate CutsKey(v: Version, level: nat, in0: seq<File>, in1: seq<File>, above: set<Entry>,
                          oldest: nat, point: nat, h: File, g: File, t: Entry, r: Entry)
  {
    && level + 1 < |v.levels|
    && h in in1 && g in v.levels[level + 1] && g !in in1 && t in h.entries && r in g.entries
    && t.key.user == r.key.user && r.key.kind.Value? && r.key.sn < t.key.sn
    && Obsolete(oldest, BaseOf(v, level), t)
    && (forall x :: x in InputEntries(in0, in1) && x.key.user == t.key.user && x.key.sn <= point ==>
          x.key.sn <= t.key.sn)
    && forall x :: x in above + RestEntries(v, in0, in1) && x.key.user == t.key.user && x.key.sn <= point ==>
          x.key.sn <= r.key.sn
  }

  ghost predicate SomeKeyCut(v: Version, level: nat, in0: seq<File>, in1: seq<File>, above: set<Entry>, oldest: nat,
                             point: nat)
  {
    exists h, g, t, r :: CutsKey(v, level, in0, in1, above, oldest, point, h, g, t, r)
  }

  lemma ShallowerIsNewer(v: Version, level: nat, in0: seq<File>, in1: seq<File>, l: nat, t: Entry, r: Entry)
    requires LsmOk(v) && CompactionOk(v, level, in0, in1) && l < level
    requires t in InputEntries(in0, in1) && r in FilesEntries(v.levels[l]) && t.key.user == r.key.user
    ensures r.key.sn > t.key.sn
  {
    InputsInVersion(v, level, in0, in1);
    LevelsAbove(v, l, level);
    LevelsAbove(v, l, level + 1);
  }

  lemma StayerIsNewer(v: Version, level: nat, in0: seq<File>, in1: seq<File>, f: File, t: Entry, r: Entry)
    requires LsmOk(v) && CompactionOk(v, level, in0, in1)
    requires t in InputEntries(in0, in1) && f in v.levels[level] && r in f.entries && r !in FilesEntries(in0)
    requires t.key.user == r.key.user
    ensures r.key.sn > t.key.sn
  {
    InputsInVersion(v, level, in0, in1);
    if t in FilesEntries(in0) {
      LeftAtLevel(v, level, in0, in1, f, t, r);
    } else {
      LevelsAbove(v, level, level + 1);
      assert r in FilesEntries(v.levels[level]);
    }
  }

  lemma HolderOf(v: Version, e: Entry) returns (l: nat, f: File)
    requires e in Entries(v)
    ensures l < |v.levels| && f in v.levels[l] && e in f.entries && e in FilesEntries(v.levels[l])
  {
    EntryAt(v, e);
    l :| 0 <= l < |v.levels| && e in FilesEntries(v.levels[l]);
    f :| f in v.levels[l] && e in f.entries;
  }

  /** An older entry outside the inputs is in the version, in a file that is no input. */
  lemma OlderIsOutside(v: Version, level: nat, in0: seq<File>, in1: seq<File>, above: set<Entry>, t: Entry, r: Entry)
    requires LsmOk(v) && CompactionOk(v, level, in0, in1) && Above(above, Entries(v))
    requires t in InputEntries(in0, in1) && r in above + RestEntries(v, in0, in1)
    requires t.key.user == r.key.user && r.key.sn < t.key.sn
    ensures r in Entries(v) && r !in FilesEntries(in0) && forall f :: f in in1 ==> r !in f.entries
  {
    InputsInVersion(v, level, in0, in1);
    hide LsmOk, CompactionOk, Entries;
    assert r !in above;
  }

  /**
   * An older entry outside the inputs, of a key absent from deeper levels, sits one level down in
   * an uncompacted file.
   */
  lemma OlderIsBelow(v: Version, level: nat, in0: seq<File>, in1: seq<File>, above: set<Entry>, t: Entry, r: Entry)
    requires LsmOk(v) && CompactionOk(v, level, in0, in1) && Above(above, Entries(v))
    requires t in InputEntries(in0, in1) && r in above + RestEntries(v, in0, in1)
    requires t.key.user == r.key.user && r.key.sn < t.key.sn && BaseLevel(v, level, t.key.user)
    ensures exists g :: g in v.levels[level + 1] && g !in in1 && r in g.entries
  {
    OlderIsOutside(v, level, in0, in1, above, t, r);
    assert |v.levels| == NUM_LEVELS;
    hide LsmOk, CompactionOk, Entries, FilesEntries, InputEntries, RestEntries, BaseLevel, Above;
    var l, f := HolderOf(v, r);
    if l < level {
      ShallowerIsNewer(v, level, in0, in1, l, t, r);
    } else if l == level {
      StayerIsNewer(v, level, in0, in1, f, t, r);
    } else if level + 1 < l {
      NotDeeper(v, level, l, f, r);
    }
  }

  lemma LeftAtLevel(v: Version, level: nat, in0: seq<File>, in1: seq<File>, f: File, t: Entry, r: Entry)
    requires CompactionOk(v, level, in0, in1)
    requires f in v.levels[level] && r in f.entries && r !in FilesEntries(in0)
    requires t.key.user == r.key.user
    ensures t in FilesEntries(in0) ==> r.key.sn > t.key.sn
  {
    assert f !in in0;
    if t in FilesEntries(in0) {
      var p :| p in in0 && t in p.entries;
      assert Newer(f, p);
    }
  }

  lemma NotDeeper(v: Version, level: nat, l: nat, f: File, r: Entry)
    requires LsmOk(v) && level + 2 <= l < NUM_LEVELS && f in v.levels[l] && r in f.entries
    ensures !BaseLevel(v, level, r.key.user)
  {
    assert LevelOk(l, v.levels[l]);
    EntryInRange(f, r);
    var i :| 0 <= i < |v.levels[l]| && v.levels[l][i] == f;
    assert Spans(v.levels[l][i], r.key.user);
  }

  /** A key of the upper inputs never reaches an uncompacted file one level down. */
  lemma MarkerIsBelow(v: Version, level: nat, in0: seq<File>, in1: seq<File>, t: Entry, g: File, r: Entry)
    requires LsmOk(v) && CompactionOk(v, level, in0, in1)
    requires t in InputEntries(in0, in1) && t.key.user == r.key.user
    requires g in v.levels[level + 1] && g !in in1 && r in g.entries
    ensures exists h :: h in in1 && t in h.entries
  {
    if t in FilesEntries(in0) {
      var p :| p in in0 && t in p.entries;
      assert LevelOk(level, v.levels[level]) && LevelOk(level + 1, v.levels[level + 1]);
      EntryInRange(p, t);
      EntryInRange(g, r);
      assert Overlaps(g, Some(RangeLo(in0)), Some(RangeHi(in0)));
    }
  }

  lemma UncoversIsCut(v: Version, level: nat, in0: seq<File>, in1: seq<File>, above: set<Entry>,
                      oldest: nat, point: nat, user: UserKey, t: Entry, r: Entry)
    requires LsmOk(v) && CompactionOk(v, level, in0, in1) && Above(above, Entries(v))
    requires Uncovers(InputEntries(in0, in1), above + RestEntries(v, in0, in1), oldest, point, BaseOf(v, level), user,
                      t, r)
    ensures SomeKeyCut(v, level, in0, in1, above, oldest, point)
  {
    var S, R := InputEntries(in0, in1), above + RestEntries(v, in0, in1);
    OlderIsBelow(v, level, in0, in1, above, t, r);
    var g :| g in v.levels[level + 1] && g !in in1 && r in g.entries;
    MarkerIsBelow(v, level, in0, in1, t, g, r);
    var h :| h in in1 && t in h.entries;
    forall x | x in R && x.key.user == t.key.user && x.key.sn <= point
      ensures x.key.sn <= r.key.sn
    {
      assert x in S + R;
      SameAgeOutside(v, level, in0, in1, above, t, x);
    }
    assert forall x :: x in S ==> x in S + R;
    assert CutsKey(v, level, in0, in1, above, oldest, point, h, g, t, r);
  }

  lemma SameAgeOutside(v: Version, level: nat, in0: seq<File>, in1: seq<File>, above: set<Entry>, t: Entry, x: Entry)
    requires LsmOk(v) && CompactionOk(v, level, in0, in1) && Above(above, Entries(v))
    requires t in InputEntries(in0, in1) && x in above + RestEntries(v, in0, in1)
    requires x.key.user == t.key.user
    ensures x.key.sn != t.key.sn
  {
    InputsInVersion(v, level, in0, in1);
    EntriesFromDistinct(v, 0);
  }

  lemma CutParts(v: Version, level: nat, in0: seq<File>, in1: seq<File>, h: File, g: File, t: Entry, r: Entry)
    requires LsmOk(v) && CompactionOk(v, level, in0, in1)
    requires h in in1 && t in h.entries && g in v.levels[level + 1] && g !in in1 && r in g.entries
    ensures t in InputEntries(in0, in1) && r in RestEntries(v, in0, in1)
  {
    assert r in FilesEntries(v.levels[level + 1]);
    EntryAt(v, r);
    InputsNotOutside(v, level, in0, in1, g, r);
  }

  lemma CutUncovers(v: Version, level: nat, in0: seq<File>, in1: seq<File>, above: set<Entry>, oldest: nat, point: nat,
                    h: File, g: File, t: Entry, r: Entry)
    requires LsmOk(v) && CompactionOk(v, level, in0, in1) && Above(above, Entries(v)) && oldest <= point
    requires CutsKey(v, level, in0, in1, above, oldest, point, h, g, t, r)
    ensures Uncovers(InputEntries(in0, in1), above + RestEntries(v, in0, in1), oldest, point, BaseOf(v, level),
                     t.key.user, t, r)
  {
    CutParts(v, level, in0, in1, h, g, t, r);
    hide LsmOk, CompactionOk, Above, InputEntries, RestEntries, BaseOf;
    assert Newest(InputEntries(in0, in1) + (above + RestEntries(v, in0, in1)), t.key.user, point, t);
  }

  lemma InputsNotOutside(v: Version, level: nat, in0: seq<File>, in1: seq<File>, g: File, r: Entry)
    requires LsmOk(v) && CompactionOk(v, level, in0, in1)
    requires g in v.levels[level + 1] && g !in in1 && r in g.entries
    ensures r !in InputEntries(in0, in1)
  {
    InputsInVersion(v, level, in0, in1);
    assert r in FilesEntries(v.levels[level + 1]) && LevelOk(level + 1, v.levels[level + 1]);
    LevelsShareNothing(v, level + 1, level, r);
    if r in FilesEntries(in1) {
      var f :| f in in1 && r in f.entries;
      FilesShareNothing(level + 1, v.levels[level + 1], f, g, r);
    }
  }

  lemma CutIffUncovers(v: Version, level: nat, in0: seq<File>, in1: seq<File>, above: set<Entry>, oldest: nat,
                       point: nat)
    requires LsmOk(v) && CompactionOk(v, level, in0, in1) && Above(above, Entries(v)) && oldest <= point
    ensures SomeKeyCut(v, level, in0, in1, above, oldest, point)
       <==> exists user, t, r :: Uncovers(InputEntries(in0, in1), above + RestEntries(v, in0, in1), oldest, point,
                                          BaseOf(v, level), user, t, r)
  {
    var S, R, base := InputEntries(in0, in1), above + RestEntries(v, in0, in1), BaseOf(v, level);
    if h, g, t, r :| CutsKey(v, level, in0, in1, above, oldest, point, h, g, t, r) {
      CutUncovers(v, level, in0, in1, above, oldest, point, h, g, t, r);
    }
    if user, t, r :| Uncovers(S, R, oldest, point, base, user, t, r) {
      UncoversIsCut(v, level, in0, in1, above, oldest, point, user, t, r);
    }
  }

  /**
   * For every user key and every sequence number from `point` on, a read of the memtables
   * and the version returns the same before and after the compaction - exactly when the
   * compaction cuts no user key one level down for a reader at `point`.
   */
  lemma CompactionKeepsReadsIff(v: Version, level: nat, in0: seq<File>, in1: seq<File>, above: set<Entry>, oldest: nat,
                                point: nat, outputs: seq<File>, v2: Version)
    requires LsmOk(v) && CompactionOk(v, level, in0, in1)
    requires Distinct(above) && Above(above, Entries(v)) && oldest <= point
    requires KeepsExactly(v, level, in0, in1, oldest, outputs) && Installs(v, level, in0, in1, outputs, v2)
    ensures ReadsKept(above + Entries(v), above + Entries(v2), point)
            <==> !SomeKeyCut(v, level, in0, in1, above, oldest, point)
  {
    var S, R, base := InputEntries(in0, in1), above + RestEntries(v, in0, in1), BaseOf(v, level);
    InputsInVersion(v, level, in0, in1);
    EntriesFromDistinct(v, 0);
    AboveDistinct(above, Entries(v));
    InstalledEntries(v, level, in0, in1, outputs, v2);
    Partition(above, Entries(v), S, KeptSet(S, oldest, base));
    ReadsKeptIff(S, R, oldest, point, base);
    CutIffUncovers(v, level, in0, in1, above, oldest, point);
  }

  lemma Partition(above: set<Entry>, E: set<Entry>, S: set<Entry>, K: set<Entry>)
    requires Above(above, E) && S <= E
    ensures above + E == S + (above + (E - S))
    ensures above + (E - S + K) == above + (E - S) + K
    ensures S !! above + (E - S)
  {
  }

  // ------------------------------------------ closing the lower input set too

  lemma ClosedCutsNoKey(v: Version, level: nat, in0: seq<File>, in1: seq<File>, above: set<Entry>, oldest: nat,
                        point: nat)
    requires LsmOk(v) && CompactionOk(v, level, in0, in1) && BoundaryClosed(v.levels[level + 1], in1)
    ensures !SomeKeyCut(v, level, in0, in1, above, oldest, point)
  {
    var below := v.levels[level + 1];
    assert LevelOk(level + 1, below);
    var i, j := OverlappingIsSlice(below, Some(RangeLo(in0)), Some(RangeHi(in0)));
    SliceLeavesNewer(below, in1, i, j);
    forall h, g, t, r
      ensures !CutsKey(v, level, in0, in1, above, oldest, point, h, g, t, r)
    {
      if h in in1 && g in below && g !in in1 {
        assert Newer(g, h);
      }
    }
  }

  /**
   * If the user key ending the lower inputs does not continue into the next file, no key is cut and
   * all reads are kept.
   */
  lemma ClosedCutsNothing(v: Version, level: nat, in0: seq<File>, in1: seq<File>, above: set<Entry>,
                          oldest: nat, point: nat, outputs: seq<File>, v2: Version)
    requires LsmOk(v) && CompactionOk(v, level, in0, in1) && BoundaryClosed(v.levels[level + 1], in1)
    requires Distinct(above) && Above(above, Entries(v)) && oldest <= point
    requires KeepsExactly(v, level, in0, in1, oldest, outputs) && Installs(v, level, in0, in1, outputs, v2)
    ensures !SomeKeyCut(v, level, in0, in1, above, oldest, point)
    ensures ReadsKept(above + Entries(v), above + Entries(v2), point)
  {
    ClosedCutsNoKey(v, level, in0, in1, above, oldest, point);
    CompactionKeepsReadsIff(v, level, in0, in1, above, oldest, point, outputs, v2);
  }
}
