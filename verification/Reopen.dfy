/** A crash and the recovery after it, as one step of the store. */
module Reopen {
  import opened Wrappers
  import opened Keys
  import opened Lsm
  import opened CompactionInstall
  import opened CompactionTheorem
  import opened Edits
  import opened EngineEdits
  import opened WriteBatches
  import opened Db
  import opened Recovery
  import M = Manifest
  import LsmSteps

  /** The version the manifest's records describe. */
  ghost predicate ManifestGives(edits: seq<M.Edit>, v: Version) {
    AllOrdered(v) && forall l: nat :: l < NUM_LEVELS ==> Files(v.levels[l]) == M.Installed(edits, |edits|, l)
  }

  lemma ManifestIsCurrent(edits: seq<M.Edit>, v: Version, next: nat, v0: Version)
    requires Tracks(edits, v, next) && AllOrdered(v) && ManifestGives(edits, v0)
    ensures v0 == v
  {
    forall l: nat | l < NUM_LEVELS
      ensures v0.levels[l] == v.levels[l]
    {
      M.OrderedUnique(v0.levels[l], v.levels[l]);
    }
    assert v0.levels == v.levels;
  }

  /** The last sequence number is on disk, in the manifest or in a live log. */
  ghost predicate SequenceOk(s: State)
    requires LogsOk(s) && CountersOk(s)
  {
    s.lastSequence == Max(LastCounters(s).lastSequence, MaxSequence(LiveBatches(s)))
  }

  ghost predicate LiveLogNames(s: State, ns: seq<nat>)
    requires s.manifest != [] && s.manifest[|s.manifest| - 1].counters.Some?
  {
    Rising(ns) && forall n :: n in ns <==> n in s.logs && n >= LastCounters(s).logNumber
  }

  function RecoveryEdit(files: seq<File>, number: nat, max: nat): M.Edit {
    M.Edit({}, Tagged(0, files), [], Some(M.Counters(number, 0, number + 1, max)))
  }

  /**
   * What opening the store makes of the disk alone: `v0` is the manifest's version, `ns`
   * the live logs, `files` the tables written while replaying them, `number` the new log.
   */
  ghost predicate RecoverStep(s: State, v0: Version, ns: seq<nat>, files: seq<File>, number: nat, s2: State) {
    && s.manifest != [] && s.manifest[|s.manifest| - 1].counters.Some?
    && ManifestGives(s.manifest, v0) && LiveLogNames(s, ns)
    && var c, all := LastCounters(s), Concat(s.logs, ns);
       && Stack(files, c.nextFile + 1, number) && FilesEntries(files) == BatchesSet(all)
       && (forall n :: n in ns ==> n < number)
       && var max, ps := Max(c.lastSequence, MaxSequence(all)), M.ReplayPointers(s.manifest, |s.manifest|);
          && Applied(v0, RecoveryEdit(files, number, max), s2.v)
          && s2 == State([], None, s2.v, max, [], number + 1, number, number, s.logs[number := []],
                         [SnapshotEdit(v0, ps), RecoveryEdit(files, number, max)],
                         s.tables + M.Numbers(Files(files)), ps)
  }

  // --------------------------------------------- a stack of level-0 tables

  lemma StackNumbers(files: seq<File>, low: nat, next: nat, i: nat, j: nat)
    requires Stack(files, low, next) && i < |files| && j < |files|
    ensures files[i].number == files[j].number ==> i == j
    ensures files[i].number > files[j].number ==> Newer(files[i], files[j])
  {
    if j < i {
      assert Above(Elems(files[i].entries), Elems(files[j].entries));
    }
  }

  lemma StackSet(files: seq<File>, low: nat, next: nat)
    requires Stack(files, low, next)
    ensures UniqueNumbers(Files(files)) && NewerByNumber(Files(files))
    ensures forall f :: f in files ==> low <= f.number
  {
    forall f, g | f in files && g in files
      ensures f.number == g.number ==> f == g
      ensures f.number > g.number ==> Newer(f, g)
    {
      var i :| 0 <= i < |files| && files[i] == f;
      var j :| 0 <= j < |files| && files[j] == g;
      StackNumbers(files, low, next, i, j);
    }
  }

  lemma StackLevel0(fs: seq<File>, files: seq<File>, low: nat, next: nat, fs2: seq<File>)
    requires LevelOk(0, fs) && Stack(files, low, next) && (forall g :: g in fs ==> g.number < low)
    requires Above(FilesEntries(files), FilesEntries(fs))
    requires M.Ordered(fs2) && Files(fs2) == Files(fs) + Files(files)
    ensures LevelOk(0, fs2) && FilesEntries(fs2) == FilesEntries(fs) + FilesEntries(files)
  {
    NumberedSet(fs);
    StackSet(files, low, next);
    LevelNewerIff(files, fs);
    assert forall g :: g in fs2 <==> g in Files(fs2);
    assert forall g :: g in fs2 <==> g in fs || g in files;
    forall f, g | f in fs2 && g in fs2
      ensures f.number == g.number ==> f == g
      ensures f.number > g.number ==> Newer(f, g)
    {
      assert f in Files(fs) || f in Files(files);
      assert g in Files(fs) || g in Files(files);
    }
    OrderedNumbered(fs2);
  }

  lemma StackInstalls(v: Version, files: seq<File>, c: M.Counters, v2: Version)
    requires AllOrdered(v) && Applied(v, M.Edit({}, Tagged(0, files), [], Some(c)), v2)
    ensures Files(v2.levels[0]) == Files(v.levels[0]) + Files(files)
    ensures forall l :: 0 < l < NUM_LEVELS ==> v2.levels[l] == v.levels[l]
  {
    var e := M.Edit({}, Tagged(0, files), [], Some(c));
    forall l: nat | l < NUM_LEVELS
      ensures M.AddedAt(e, l) == (if l == 0 then Files(files) else {}) && M.DeletedAt(e, l) == {}
    {
      TaggedAdds(0, files, l);
    }
    forall l | 0 < l < NUM_LEVELS
      ensures v2.levels[l] == v.levels[l]
    {
      UntouchedLevel(v, e, v2, l);
    }
  }

  lemma StackEntries(v: Version, files: seq<File>, v2: Version)
    requires |v.levels| == |v2.levels| == NUM_LEVELS
    requires FilesEntries(v2.levels[0]) == FilesEntries(v.levels[0]) + FilesEntries(files)
    requires forall l :: 0 < l < NUM_LEVELS ==> v2.levels[l] == v.levels[l]
    ensures Entries(v2) == Entries(v) + FilesEntries(files)
  {
    forall e
      ensures e in Entries(v2) <==> e in Entries(v) || e in FilesEntries(files)
    {
      EntryAt(v, e);
      EntryAt(v2, e);
      assert e in FilesEntries(v2.levels[0]) <==> e in FilesEntries(v.levels[0]) || e in FilesEntries(files);
    }
  }

  lemma StackNewer(v: Version, files: seq<File>, fs2: seq<File>, m: nat)
    requires LsmOk(v) && Above(FilesEntries(files), Entries(v)) && 0 < m < NUM_LEVELS
    requires FilesEntries(fs2) == FilesEntries(v.levels[0]) + FilesEntries(files)
    ensures LevelNewer(fs2, v.levels[m])
  {
    hide FilesEntries;
    LsmSteps.LevelInVersion(v, m);
    LevelsAbove(v, 0, m);
    LevelNewerIff(fs2, v.levels[m]);
  }

  /** Recovery's tables on top of the manifest's version keep the level invariants. */
  lemma StackKeepsLsm(v: Version, files: seq<File>, low: nat, next: nat, c: M.Counters, v2: Version)
    requires LsmOk(v) && AllOrdered(v) && Applied(v, M.Edit({}, Tagged(0, files), [], Some(c)), v2)
    requires Stack(files, low, next) && (forall g :: g in v.levels[0] ==> g.number < low)
    requires Above(FilesEntries(files), Entries(v))
    ensures LsmOk(v2) && Entries(v2) == Entries(v) + FilesEntries(files)
  {
    StackInstalls(v, files, c, v2);
    LsmSteps.LevelInVersion(v, 0);
    assert LevelOk(0, v.levels[0]);
    StackLevel0(v.levels[0], files, low, next, v2.levels[0]);
    StackEntries(v, files, v2);
    hide LevelOk, LevelNewer;
    forall l, m | 0 <= l < m < NUM_LEVELS
      ensures LevelNewer(v2.levels[l], v2.levels[m])
    {
      if l == 0 {
        StackNewer(v, files, v2.levels[0], m);
      }
    }
  }

  lemma StackFits(v: Version, files: seq<File>, low: nat, number: nat, c: M.Counters)
    requires Stack(files, low, number)
    ensures EditFits(v, M.Edit({}, Tagged(0, files), [], Some(c)), low, number + 1)
  {
  }

  // ------------------------------------------------------------ the theorem

  lemma LiveIsMemory(s: State)
    requires LogsOk(s)
    ensures BatchesSet(LiveBatches(s)) == Memory(s)
  {
    if s.imm.Some? {
      BatchesConcat(s.logs[s.logNumber], s.logs[s.logfileNumber]);
    }
  }

  /** Recovery reads from disk the version and the entries the crashed store had in memory. */
  lemma RecoverFinds(s: State, v0: Version, ns: seq<nat>, files: seq<File>, number: nat, s2: State)
    requires StructureOk(s) && SequenceOk(s) && RecoverStep(s, v0, ns, files, number, s2)
    ensures v0 == s.v && Concat(s.logs, ns) == LiveBatches(s) && s2.pointers == s.pointers
    ensures FilesEntries(files) == Memory(s) && s2.lastSequence == s.lastSequence
  {
    hide Tracks, NumbersOk, Applied, LsmOk, Stack, ManifestGives, Concat;
    ManifestIsCurrent(s.manifest, s.v, s.nextFile, v0);
    LiveLogsAre(s, ns);
    LiveIsMemory(s);
  }

  lemma RecoverVersion(s: State, files: seq<File>, number: nat, s2: State)
    requires LayersOk(s) && CountersOk(s) && FilesEntries(files) == Memory(s)
    requires Stack(files, LastCounters(s).nextFile + 1, number)
    requires Applied(s.v, RecoveryEdit(files, number, s.lastSequence), s2.v)
    ensures LsmOk(s2.v) && Entries(s2.v) == Stored(s)
  {
    var c := LastCounters(s);
    forall g | g in s.v.levels[0]
      ensures g.number < c.nextFile + 1
    {
      assert At(s.v, 0, g.number);
    }
    StackKeepsLsm(s.v, files, c.nextFile + 1, number, M.Counters(number, 0, number + 1, s.lastSequence), s2.v);
  }

  lemma RecoverNumbers(v: Version, ps: M.Pointers, files: seq<File>, low: nat, number: nat, max: nat, v2: Version)
    requires AllOrdered(v) && NumbersOk(v, low) && Stack(files, low, number) && forall l :: l in ps ==> l < NUM_LEVELS
    requires Applied(v, RecoveryEdit(files, number, max), v2)
    ensures NumbersOk(v2, number + 1)
    ensures Tracks([SnapshotEdit(v, ps), RecoveryEdit(files, number, max)], v2, number + 1)
    ensures PointsTo([SnapshotEdit(v, ps), RecoveryEdit(files, number, max)], ps)
  {
    var e := RecoveryEdit(files, number, max);
    StackFits(v, files, low, number, M.Counters(number, 0, number + 1, max));
    EditKeepsNumbers(v, e, v2, low, number + 1);
    SnapshotTracks(v, ps, low);
    ExtendTracks([SnapshotEdit(v, ps)], v, e, v2, low, number + 1);
    ExtendPointsTo([SnapshotEdit(v, ps)], ps, e);
    assert [SnapshotEdit(v, ps)] + [e] == [SnapshotEdit(v, ps), e];
  }

  lemma RecoverTables(v: Version, files: seq<File>, low: nat, number: nat, max: nat, v2: Version, tables: set<nat>)
    requires AllOrdered(v) && NumbersOk(v, low) && Stack(files, low, number)
    requires Applied(v, RecoveryEdit(files, number, max), v2)
    requires forall l: nat, n: nat :: At(v, l, n) ==> n in tables
    ensures forall l: nat, n: nat :: At(v2, l, n) ==> n in tables + M.Numbers(Files(files))
  {
    var e := RecoveryEdit(files, number, max);
    StackFits(v, files, low, number, M.Counters(number, 0, number + 1, max));
    InOutputs(0, files, e.added);
    forall l: nat, n: nat | At(v2, l, n)
      ensures n in tables + M.Numbers(Files(files))
    {
      NumberOrigin(v, e, v2, low, number + 1, l, n);
    }
  }

  lemma RecoverKeepsLayers(s: State, v0: Version, ns: seq<nat>, files: seq<File>, number: nat, s2: State)
    requires StructureOk(s) && SequenceOk(s) && RecoverStep(s, v0, ns, files, number, s2)
    ensures LayersOk(s2) && SnapshotsOk(s2) && Stored(s2) == Stored(s) && s2.lastSequence == s.lastSequence
  {
    RecoverFinds(s, v0, ns, files, number, s2);
    RecoverVersion(s, files, number, s2);
    FreshLayers(s, s2);
  }

  lemma FreshLayers(s: State, s2: State)
    requires LayersOk(s) && LsmOk(s2.v) && AllOrdered(s2.v) && Entries(s2.v) == Stored(s)
    requires s2.mem == [] && s2.imm == None && s2.snapshots == [] && s2.lastSequence == s.lastSequence
    ensures LayersOk(s2) && SnapshotsOk(s2) && Stored(s2) == Stored(s)
  {
    assert Memory(s2) == {};
  }

  lemma RecoverKeepsLogs(s: State, v0: Version, ns: seq<nat>, files: seq<File>, number: nat, s2: State)
    requires StructureOk(s) && RecoverStep(s, v0, ns, files, number, s2)
    ensures LogsOk(s2) && LiveBatches(s2) == []
  {
    assert s.logNumber in ns;
    assert forall n :: n in s.logs ==> n < number;
  }

  lemma RecoverKeepsDisk(s: State, v0: Version, ns: seq<nat>, files: seq<File>, number: nat, s2: State)
    requires StructureOk(s) && SequenceOk(s) && RecoverStep(s, v0, ns, files, number, s2)
    ensures DiskOk(s2) && LastCounters(s2) == M.Counters(number, 0, number + 1, s.lastSequence)
  {
    hide Tracks, NumbersOk, Applied, AllOrdered, LsmOk, Stack, ManifestGives, LiveLogNames, Concat;
    RecoverFinds(s, v0, ns, files, number, s2);
    RecoverKeepsLayers(s, v0, ns, files, number, s2);
    NothingNewer(s, s2);
    var low := LastCounters(s).nextFile + 1;
    NumbersLater(s.v, LastCounters(s).nextFile, low);
    RecoverNumbers(s.v, s.pointers, files, low, number, s.lastSequence, s2.v);
    RecoverTables(s.v, files, low, number, s.lastSequence, s2.v, s.tables);
  }

  /** A crash between steps, followed by recovery, loses no entry and keeps every invariant. */
  lemma RecoverKeeps(s: State, v0: Version, ns: seq<nat>, files: seq<File>, number: nat, s2: State)
    requires StructureOk(s) && SequenceOk(s) && RecoverStep(s, v0, ns, files, number, s2)
    ensures StructureOk(s2) && SequenceOk(s2)
    ensures Stored(s2) == Stored(s) && s2.lastSequence == s.lastSequence && s2.pointers == s.pointers
  {
    RecoverFinds(s, v0, ns, files, number, s2);
    RecoverKeepsLayers(s, v0, ns, files, number, s2);
    RecoverKeepsLogs(s, v0, ns, files, number, s2);
    RecoverKeepsDisk(s, v0, ns, files, number, s2);
  }
}
