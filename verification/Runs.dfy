/** Runs of the store: what every state keeps, and what every read returns. */
module Runs {
  import opened Wrappers
  import opened Lsm
  import opened CompactionTheorem
  import opened Edits
  import opened WriteBatches
  import opened Db
  import opened Recovery
  import opened Reopen
  import opened TornStates
  import M = Manifest

  datatype Step =
    | Write(ops: seq<Op>)
    | Switch
    | Flush(flushLevel: nat, size: nat)
    | Move(moveLevel: nat, file: File)
    | Compact(level: nat, in0: seq<File>, in1: seq<File>, outputs: seq<File>)
    | GetSnapshot
    | ReleaseSnapshot(index: nat)
    | RemoveObsolete(pinned: set<nat>)
    | CrashAndRecover(kept: nat, v0: Version, ns: seq<nat>, files: seq<File>, number: nat)

  ghost predicate Next(s: State, a: Step, s2: State) {
    match a
    case Write(ops) => WriteStep(s, ops, s2)
    case Switch => SwitchStep(s, s2)
    case Flush(level, size) => FlushStep(s, level, size, s2)
    case Move(level, f) => MoveStep(s, level, f, s2)
    case Compact(level, in0, in1, outputs) => CompactStep(s, level, in0, in1, outputs, s2)
    case GetSnapshot => GetSnapshotStep(s, s2)
    case ReleaseSnapshot(i) => ReleaseSnapshotStep(s, i, s2)
    case RemoveObsolete(pinned) => RemoveObsoleteStep(s, pinned, s2)
    case CrashAndRecover(kept, v0, ns, files, number) => CrashStep(s, kept, v0, ns, files, number, s2)
  }

  ghost predicate Inv(s: State) {
    StructureOk(s) && SequenceOk(s)
  }

  function EmptyVersion(): Version {
    Version(seq(NUM_LEVELS, i => []))
  }

  /** A store just created: one empty log, an opening snapshot and one record in the manifest. */
  function Initial(): State {
    State([], None, EmptyVersion(), 0, [], 4, 3, 3, map[3 := []],
          [SnapshotEdit(EmptyVersion(), map[]), RecoveryEdit([], 3, 0)], {}, map[])
  }

  lemma EmptyIsOk()
    ensures LsmOk(EmptyVersion()) && AllOrdered(EmptyVersion()) && NumbersOk(EmptyVersion(), 2)
    ensures Entries(EmptyVersion()) == {}
  {
    forall e
      ensures e !in Entries(EmptyVersion())
    {
      EntryAt(EmptyVersion(), e);
    }
  }

  lemma EmptyInstalls()
    ensures NumbersOk(EmptyVersion(), 4)
    ensures Tracks([SnapshotEdit(EmptyVersion(), map[]), RecoveryEdit([], 3, 0)], EmptyVersion(), 4)
    ensures PointsTo([SnapshotEdit(EmptyVersion(), map[]), RecoveryEdit([], 3, 0)], map[])
  {
    EmptyIsOk();
    var v, e := EmptyVersion(), RecoveryEdit([], 3, 0);
    forall l: nat | l < NUM_LEVELS
      ensures Files(v.levels[l]) == M.AfterEdit(Files(v.levels[l]), e, l)
    {
    }
    assert Applied(v, e, v) && Stack([], 2, 3);
    hide Applied, Stack, AllOrdered, NumbersOk, Tracks, PointsTo, EmptyVersion, RecoveryEdit, SnapshotEdit;
    RecoverNumbers(v, map[], [], 2, 3, 0, v);
  }

  lemma InitialLayers()
    ensures LayersOk(Initial()) && SnapshotsOk(Initial())
  {
    EmptyIsOk();
    assert Stored(Initial()) == {};
  }

  lemma InitialLogs()
    ensures LogsOk(Initial()) && LiveBatches(Initial()) == []
  {
    assert BatchesSet([]) == {};
  }

  lemma InitialDisk(s: State)
    requires s == Initial() && Entries(s.v) == {}
    ensures DiskOk(s) && LastCounters(s) == M.Counters(3, 0, 4, 0)
  {
    EmptyInstalls();
  }

  lemma InitialInv()
    ensures Inv(Initial())
  {
    EmptyIsOk();
    InitialLayers();
    InitialLogs();
    InitialDisk(Initial());
  }

  // ------------------------------------------------------- structure is kept

  lemma LiveBound(s: State)
    requires LogsOk(s)
    ensures 0 <= MaxSequence(LiveBatches(s)) <= s.lastSequence
  {
    MaxSequenceBound(LiveBatches(s), s.lastSequence);
  }

  /** Steps that record the current sequence number in the manifest. */
  lemma RecordedSequence(s2: State)
    requires LogsOk(s2) && CountersOk(s2) && LastCounters(s2).lastSequence == s2.lastSequence
    ensures SequenceOk(s2)
  {
    LiveBound(s2);
  }

  lemma SameSequence(s: State, s2: State)
    requires LogsOk(s) && CountersOk(s) && SequenceOk(s) && LogsOk(s2) && CountersOk(s2)
    requires s2.lastSequence == s.lastSequence && s2.manifest == s.manifest && LiveBatches(s2) == LiveBatches(s)
    ensures SequenceOk(s2)
  {
  }

  lemma WriteKeepsInv(s: State, ops: seq<Op>, s2: State)
    requires Inv(s) && WriteStep(s, ops, s2)
    ensures Inv(s2)
  {
    WriteKeeps(s, ops, s2);
    WriteKeepsLogs(s, ops, s2);
    WriteSequence(s, ops, s2);
  }

  lemma WriteSequence(s: State, ops: seq<Op>, s2: State)
    requires LogsOk(s) && CountersOk(s) && SequenceOk(s) && LogsOk(s2) && CountersOk(s2)
    requires s2.manifest == s.manifest && s2.lastSequence == s.lastSequence + |ops|
    requires LiveBatches(s2) == LiveBatches(s) + [Batch(s.lastSequence + 1, ops)]
    ensures SequenceOk(s2)
  {
    MaxSequenceSnoc(LiveBatches(s), Batch(s.lastSequence + 1, ops));
  }

  lemma RemoveObsoleteKeepsInv(s: State, pinned: set<nat>, s2: State)
    requires Inv(s) && RemoveObsoleteStep(s, pinned, s2)
    ensures Inv(s2) && Stored(s2) == Stored(s) && Oldest(s2) == Oldest(s)
  {
    RemoveObsoleteKeeps(s, pinned, s2);
    SameSequence(s, s2);
  }

  lemma FlushKeepsInv(s: State, level: nat, size: nat, s2: State)
    requires Inv(s) && FlushStep(s, level, size, s2)
    ensures Inv(s2) && Stored(s2) == Stored(s) && Oldest(s2) == Oldest(s)
  {
    FlushKeeps(s, level, size, s2);
    FlushKeepsDisk(s, level, size, s2);
    RecordedSequence(s2);
  }

  lemma MoveKeepsInv(s: State, level: nat, f: File, s2: State)
    requires Inv(s) && MoveStep(s, level, f, s2)
    ensures Inv(s2) && Stored(s2) == Stored(s) && Oldest(s2) == Oldest(s)
  {
    MoveKeeps(s, level, f, s2);
    RecordedSequence(s2);
  }

  lemma CompactKeepsInv(s: State, level: nat, in0: seq<File>, in1: seq<File>, outputs: seq<File>, s2: State)
    requires Inv(s) && CompactStep(s, level, in0, in1, outputs, s2)
    ensures Inv(s2) && Stored(s2) <= Stored(s) && Oldest(s2) == Oldest(s)
  {
    CompactKeeps(s, level, in0, in1, outputs, s2);
    NothingNewer(s, s2);
    CompactKeepsDisk(s, level, in0, in1, outputs, s2);
    RecordedSequence(s2);
  }

  lemma SwitchKeepsInv(s: State, s2: State)
    requires Inv(s) && SwitchStep(s, s2)
    ensures Inv(s2) && Stored(s2) == Stored(s) && Oldest(s2) == Oldest(s)
  {
    SwitchKeeps(s, s2);
    SameSequence(s, s2);
  }

  /** The invariant asks nothing of the snapshots but their order. */
  lemma SnapshotsMayChange(s: State, s2: State)
    requires Inv(s) && s2 == s.(snapshots := s2.snapshots) && SnapshotsOk(s2)
    ensures Inv(s2) && Stored(s2) == Stored(s)
  {
    SnapshotsAlone(s, s2);
    SameSequence(s, s2);
  }

  lemma SnapshotStepsKeepInv(s: State, a: Step, s2: State)
    requires Inv(s) && (a.GetSnapshot? || a.ReleaseSnapshot?) && Next(s, a, s2)
    ensures Inv(s2) && Stored(s2) == Stored(s) && Oldest(s) <= Oldest(s2)
  {
    if a.GetSnapshot? {
      AddLast(s.snapshots, s.lastSequence);
    } else {
      ReleaseKeeps(s, a.index, s2);
    }
    SnapshotsMayChange(s, s2);
  }

  /**
   * Every step keeps the level, log, manifest and sequence invariants, and never moves the oldest
   * readable point back.
   */
  lemma NextKeepsInv(s: State, a: Step, s2: State)
    requires Inv(s) && Next(s, a, s2)
    ensures Inv(s2)
  {
    match a
    case Write(ops) => WriteKeepsInv(s, ops, s2);
    case Switch => SwitchKeepsInv(s, s2);
    case Flush(level, size) => FlushKeepsInv(s, level, size, s2);
    case Move(level, f) => MoveKeepsInv(s, level, f, s2);
    case Compact(level, in0, in1, outputs) => CompactKeepsInv(s, level, in0, in1, outputs, s2);
    case GetSnapshot => SnapshotStepsKeepInv(s, a, s2);
    case ReleaseSnapshot(i) => SnapshotStepsKeepInv(s, a, s2);
    case RemoveObsolete(pinned) => RemoveObsoleteKeepsInv(s, pinned, s2);
    case CrashAndRecover(kept, v0, ns, files, number) => CrashKeeps(s, kept, v0, ns, files, number, s2);
  }
}
