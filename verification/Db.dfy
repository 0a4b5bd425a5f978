/** The whole store as a state machine: writes, flushes, moves, compactions, snapshots, crashes. */
module Db {
  import opened Wrappers
  import opened Keys
  import opened Lsm
  import opened Compactions
  import opened CompactionWork
  import opened CompactionInstall
  import opened CompactionTheorem
  import opened Edits
  import opened EngineEdits
  import opened WriteBatches
  import M = Manifest
  import LsmSteps

  /** Memory and disk. `logs` and `tables` are the files present on disk. */
  datatype State = State(
    mem: seq<Entry>, imm: Option<seq<Entry>>, v: Version, lastSequence: nat, snapshots: seq<nat>,
    nextFile: nat, logNumber: nat, logfileNumber: nat,
    logs: map<nat, seq<Batch>>, manifest: seq<M.Edit>, tables: set<nat>, pointers: M.Pointers)

  function Imm(s: State): seq<Entry> {
    if s.imm.Some? then s.imm.value else []
  }

  ghost function Memory(s: State): set<Entry> {
    Elems(s.mem) + Elems(Imm(s))
  }

  /** Every entry the store still holds. */
  ghost function Stored(s: State): set<Entry> {
    Memory(s) + Entries(s.v)
  }

  /** The oldest sequence number a reader may still ask for. */
  function Oldest(s: State): nat {
    if s.snapshots == [] then s.lastSequence else s.snapshots[0]
  }

  // ------------------------------------------------------------ invariants

  ghost predicate LayersOk(s: State) {
    && Sorted(s.mem) && Sorted(Imm(s)) && LsmOk(s.v) && AllOrdered(s.v)
    && Above(Elems(s.mem), Elems(Imm(s))) && Above(Memory(s), Entries(s.v))
    && s.lastSequence < MAX_SEQUENCE
    && forall e :: e in Stored(s) ==> e.key.sn <= s.lastSequence
  }

  /** Snapshots are kept oldest first. */
  ghost predicate SnapshotsOk(s: State) {
    Climbing(s.snapshots, s.lastSequence)
  }

  ghost predicate Climbing(q: seq<nat>, top: nat) {
    (forall i, j :: 0 <= i < j < |q| ==> q[i] <= q[j]) && forall x :: x in q ==> x <= top
  }

  /** The records a recovery would replay, oldest first. */
  function LiveBatches(s: State): seq<Batch>
    requires s.logfileNumber in s.logs && s.logNumber in s.logs
  {
    if s.imm.Some? then s.logs[s.logNumber] + s.logs[s.logfileNumber] else s.logs[s.logfileNumber]
  }

  /** The live logs hold exactly the entries of the memtables. */
  ghost predicate LogsOk(s: State) {
    && s.logfileNumber in s.logs && s.logNumber in s.logs
    && (if s.imm.Some? then s.logNumber < s.logfileNumber else s.logNumber == s.logfileNumber)
    && (forall n :: n in s.logs ==> n < s.nextFile)
    && (forall n :: n in s.logs && n >= s.logNumber ==> n == s.logNumber || n == s.logfileNumber)
    && BatchesSet(s.logs[s.logfileNumber]) == Elems(s.mem)
    && (s.imm.Some? ==> BatchesSet(s.logs[s.logNumber]) == Elems(s.imm.value))
    && Ascending(LiveBatches(s))
    && forall b :: b in LiveBatches(s) ==> b.sn + |b.ops| <= s.lastSequence + 1
  }

  /** The counters of the last manifest record. */
  ghost predicate CountersOk(s: State) {
    && s.manifest != [] && s.manifest[|s.manifest| - 1].counters.Some?
    && var c := s.manifest[|s.manifest| - 1].counters.value;
       && c.logNumber == s.logNumber && c.prevLogNumber == 0
       && c.lastSequence <= s.lastSequence && c.nextFile <= s.nextFile
       && NumbersOk(s.v, c.nextFile)
       && forall e :: e in Entries(s.v) ==> e.key.sn <= c.lastSequence
  }

  ghost predicate DiskOk(s: State) {
    && CountersOk(s) && Tracks(s.manifest, s.v, s.nextFile) && PointsTo(s.manifest, s.pointers)
    && forall l: nat, n: nat :: At(s.v, l, n) ==> n in s.tables
  }

  ghost predicate StructureOk(s: State) {
    LayersOk(s) && SnapshotsOk(s) && LogsOk(s) && DiskOk(s)
  }

  function LastCounters(s: State): M.Counters
    requires s.manifest != [] && s.manifest[|s.manifest| - 1].counters.Some?
  {
    s.manifest[|s.manifest| - 1].counters.value
  }

  /** Every read a live snapshot may make returns what the full write history says. */
  ghost predicate ReadsAgree(s: State, H: set<Entry>) {
    forall user, q: nat :: Oldest(s) <= q ==> Read(Stored(s), user, q) == Read(H, user, q)
  }

  // ----------------------------------------------------------------- steps

  ghost predicate WriteStep(s: State, ops: seq<Op>, s2: State) {
    && s.logfileNumber in s.logs && s.lastSequence + |ops| < MAX_SEQUENCE
    && var b := Batch(s.lastSequence + 1, ops);
       && s2 == s.(mem := s2.mem, lastSequence := s.lastSequence + |ops|,
                   logs := s.logs[s.logfileNumber := s.logs[s.logfileNumber] + [b]])
       && Sorted(s2.mem) && Elems(s2.mem) == Elems(s.mem) + BatchSet(b)
  }

  ghost predicate SwitchStep(s: State, s2: State) {
    && s.imm.None?
    && s2 == s.(imm := Some(s.mem), mem := [], logfileNumber := s.nextFile, nextFile := s.nextFile + 1,
                logs := s.logs[s.nextFile := []])
  }

  /** Installing an edit together with the counters it records. */
  ghost predicate LogAndApplyStep(s: State, e: M.Edit, logNumber: nat, nextFile: nat, s2: State) {
    && e.counters == Some(M.Counters(logNumber, 0, nextFile, s.lastSequence))
    && Applied(s.v, e, s2.v)
    && s2 == s.(imm := s2.imm, v := s2.v, nextFile := nextFile, logNumber := logNumber,
                manifest := s.manifest + [e], tables := s2.tables, pointers := M.Pointed(s.pointers, e.pointers))
  }

  function CountersFor(s: State, logNumber: nat, nextFile: nat): M.Counters {
    M.Counters(logNumber, 0, nextFile, s.lastSequence)
  }

  function TableOf(number: nat, size: nat, es: seq<Entry>): File
    requires es != []
  {
    File(number, size, es[0].key, es[|es| - 1].key, es)
  }

  ghost predicate FlushStep(s: State, level: nat, size: nat, s2: State) {
    && s.imm.Some? && s2.imm == None
    && if s.imm.value == [] then
         && LogAndApplyStep(s, M.Edit({}, [], [], Some(CountersFor(s, s.logfileNumber, s.nextFile + 1))),
                            s.logfileNumber, s.nextFile + 1, s2)
         && s2.tables == s.tables
       else
         var f := TableOf(s.nextFile, size, s.imm.value);
         && LsmSteps.FlushOk(s.v, level, f)
         && LogAndApplyStep(s, FlushEdit(level, f, CountersFor(s, s.logfileNumber, s.nextFile + 1)), s.logfileNumber,
                            s.nextFile + 1, s2)
         && s2.tables == s.tables + {s.nextFile}
  }

  ghost predicate MoveStep(s: State, level: nat, f: File, s2: State) {
    && CompactionOk(s.v, level, [f], [])
    && LogAndApplyStep(s, MoveEdit(level, f, CountersFor(s, s.logNumber, s.nextFile)), s.logNumber, s.nextFile, s2)
    && s2.imm == s.imm && s2.tables == s.tables
  }

  /** One edit replaces the inputs by the outputs. */
  ghost predicate InstallsOutputs(s: State, level: nat, in0: seq<File>, in1: seq<File>, outputs: seq<File>, s2: State) {
    var next := s.nextFile + |outputs|;
    && LogAndApplyStep(s, CompactionEdit(level, in0, in1, outputs, CountersFor(s, s.logNumber, next)), s.logNumber,
                       next, s2)
    && s2.imm == s.imm && s2.tables == s.tables + M.Numbers(Files(outputs))
  }

  ghost predicate CompactStep(s: State, level: nat, in0: seq<File>, in1: seq<File>, outputs: seq<File>, s2: State) {
    && CompactionOk(s.v, level, in0, in1)
    && KeepsExactly(s.v, level, in0, in1, Oldest(s), outputs) && NumberedFrom(outputs, s.nextFile)
    && InstallsOutputs(s, level, in0, in1, outputs, s2)
  }

  ghost predicate GetSnapshotStep(s: State, s2: State) {
    s2 == s.(snapshots := s.snapshots + [s.lastSequence])
  }

  ghost predicate ReleaseSnapshotStep(s: State, i: nat, s2: State) {
    i < |s.snapshots| && s2 == s.(snapshots := s.snapshots[..i] + s.snapshots[i + 1..])
  }

  /** Deletes log files below the log number and tables no version lists; `pinned` ones are kept. */
  ghost predicate RemoveObsoleteStep(s: State, pinned: set<nat>, s2: State) {
    s2 == s.(logs := map n | n in s.logs && n >= s.logNumber :: s.logs[n], tables := s2.tables)
    && s2.tables == set n | n in s.tables && (n in pinned || Listed?(s.v, n))
  }

  ghost predicate Listed?(v: Version, n: nat) {
    exists l: nat :: At(v, l, n)
  }

  // ------------------------------------------------------ simple steps keep

  lemma WriteKeeps(s: State, ops: seq<Op>, s2: State)
    requires StructureOk(s) && WriteStep(s, ops, s2)
    ensures StructureOk(s2)
    ensures Stored(s2) == Stored(s) + BatchSet(Batch(s.lastSequence + 1, ops))
  {
    var b := Batch(s.lastSequence + 1, ops);
    BatchRange(b);
    assert Stored(s2) == Stored(s) + BatchSet(b);
    WriteKeepsLogs(s, ops, s2);
  }

  lemma WriteKeepsLogs(s: State, ops: seq<Op>, s2: State)
    requires LogsOk(s) && WriteStep(s, ops, s2)
    ensures LogsOk(s2) && LiveBatches(s2) == LiveBatches(s) + [Batch(s.lastSequence + 1, ops)]
  {
    var b := Batch(s.lastSequence + 1, ops);
    assert LiveBatches(s2) == LiveBatches(s) + [b];
    BatchesSnoc(s.logs[s.logfileNumber], b);
    forall i | 0 <= i < |LiveBatches(s)|
      ensures LiveBatches(s)[i].sn + |LiveBatches(s)[i].ops| <= b.sn
    {
      assert LiveBatches(s)[i] in LiveBatches(s);
    }
  }

  lemma SwitchKeeps(s: State, s2: State)
    requires StructureOk(s) && SwitchStep(s, s2)
    ensures StructureOk(s2) && Stored(s2) == Stored(s)
    ensures LiveBatches(s2) == LiveBatches(s)
  {
    assert s.nextFile !in s.logs;
    assert LiveBatches(s2) == LiveBatches(s) + [];
    assert Memory(s2) == Memory(s);
    assert BatchesSet([]) == {};
    TracksLater(s.manifest, s.v, s.nextFile, s2.nextFile);
  }

  lemma TracksLater(edits: seq<M.Edit>, v: Version, next: nat, next2: nat)
    requires Tracks(edits, v, next) && next <= next2
    ensures Tracks(edits, v, next2)
  {
    forall l: nat, n: nat | l < NUM_LEVELS && n in Seen(edits, l)
      ensures n < next2 && NotShallower(v, l, n)
    {
    }
  }

  lemma AddLast(q: seq<nat>, top: nat)
    requires Climbing(q, top)
    ensures Climbing(q + [top], top) && q + [top] != [] && (q != [] ==> q[0] <= top)
  {
    assert forall j :: 0 <= j < |q| ==> q[j] in q;
  }

  lemma RemoveOne(q: seq<nat>, i: nat, top: nat)
    requires Climbing(q, top) && i < |q|
    ensures Climbing(q[..i] + q[i + 1..], top)
    ensures q[..i] + q[i + 1..] != [] ==> q[0] <= (q[..i] + q[i + 1..])[0]
    ensures q[0] <= top
  {
    assert forall j :: 0 <= j < |q| ==> q[j] in q;
    var r := q[..i] + q[i + 1..];
    assert forall j :: 0 <= j < |r| ==> r[j] == if j < i then q[j] else q[j + 1];
  }

  lemma ReleaseKeeps(s: State, i: nat, s2: State)
    requires SnapshotsOk(s) && ReleaseSnapshotStep(s, i, s2)
    ensures SnapshotsOk(s2) && Oldest(s) <= Oldest(s2)
  {
    RemoveOne(s.snapshots, i, s.lastSequence);
  }

  /** The rest of the structure does not depend on the snapshots. */
  lemma SnapshotsAlone(s: State, s2: State)
    requires LayersOk(s) && LogsOk(s) && DiskOk(s) && s2 == s.(snapshots := s2.snapshots)
    ensures LayersOk(s2) && LogsOk(s2) && DiskOk(s2)
  {
    assert Stored(s2) == Stored(s) && LiveBatches(s2) == LiveBatches(s);
  }

  /** Deleting obsolete files never removes a log or table that recovery needs. */
  lemma RemoveObsoleteKeeps(s: State, pinned: set<nat>, s2: State)
    requires StructureOk(s) && RemoveObsoleteStep(s, pinned, s2)
    ensures StructureOk(s2) && LiveBatches(s2) == LiveBatches(s)
  {
    forall l: nat, n: nat | At(s.v, l, n)
      ensures n in s2.tables
    {
      assert Listed?(s.v, n);
    }
  }

  // ------------------------------------------------------- installing edits

  /** The disk side of installing an edit that obeys the number discipline. */
  lemma InstallKeepsDisk(s: State, e: M.Edit, logNumber: nat, nextFile: nat, s2: State)
    requires DiskOk(s) && LogAndApplyStep(s, e, logNumber, nextFile, s2)
    requires EditFits(s.v, e, s.nextFile, nextFile)
    requires forall x :: x in Entries(s2.v) ==> x.key.sn <= s.lastSequence
    requires s.tables <= s2.tables && forall p :: p in e.added ==> p.1.number in s2.tables
    ensures DiskOk(s2) && LastCounters(s2) == M.Counters(logNumber, 0, nextFile, s.lastSequence)
  {
    NumbersLater(s.v, LastCounters(s).nextFile, s.nextFile);
    EditKeepsNumbers(s.v, e, s2.v, s.nextFile, nextFile);
    ExtendTracks(s.manifest, s.v, e, s2.v, s.nextFile, nextFile);
    ExtendPointsTo(s.manifest, s.pointers, e);
    assert s2.manifest[|s2.manifest| - 1] == e;
    forall l: nat, n: nat | At(s2.v, l, n)
      ensures n in s2.tables
    {
      NumberOrigin(s.v, e, s2.v, s.nextFile, nextFile, l, n);
    }
  }

  lemma NumbersLater(v: Version, next: nat, next2: nat)
    requires NumbersOk(v, next) && next <= next2
    ensures NumbersOk(v, next2)
  {
  }

  lemma FlushFileOk(s: State, size: nat)
    requires LayersOk(s) && s.imm.Some? && s.imm.value != []
    ensures FileOk(TableOf(s.nextFile, size, s.imm.value))
    ensures Above(Elems(s.imm.value), Entries(s.v))
  {
  }

  lemma EmptyFlushVersion(v: Version, c: M.Counters, v2: Version)
    requires AllOrdered(v) && Applied(v, M.Edit({}, [], [], Some(c)), v2)
    ensures v2 == v
  {
    forall l | 0 <= l < NUM_LEVELS
      ensures v2.levels[l] == v.levels[l]
    {
      UntouchedLevel(v, M.Edit({}, [], [], Some(c)), v2, l);
    }
  }

  /** A flush keeps every entry and changes only where the immutable memtable's entries live. */
  lemma FlushVersion(s: State, level: nat, size: nat, s2: State)
    requires LayersOk(s) && FlushStep(s, level, size, s2)
    ensures LsmOk(s2.v) && AllOrdered(s2.v) && Entries(s2.v) == Entries(s.v) + Elems(s.imm.value)
  {
    if s.imm.value == [] {
      EmptyFlushVersion(s.v, CountersFor(s, s.logfileNumber, s.nextFile + 1), s2.v);
    } else {
      var f := TableOf(s.nextFile, size, s.imm.value);
      FlushAdds(s.v, level, f, CountersFor(s, s.logfileNumber, s.nextFile + 1), s2.v);
      LsmSteps.FlushKeepsLsm(s.v, level, f, s2.v);
      LsmSteps.FlushKeepsEntries(s.v, level, f, s2.v);
    }
  }

  lemma FlushKeepsDisk(s: State, level: nat, size: nat, s2: State)
    requires LayersOk(s) && DiskOk(s) && FlushStep(s, level, size, s2)
    ensures DiskOk(s2) && LastCounters(s2) == CountersFor(s, s.logfileNumber, s.nextFile + 1)
  {
    FlushVersion(s, level, size, s2);
    assert Elems(s.imm.value) <= Stored(s);
    var c := CountersFor(s, s.logfileNumber, s.nextFile + 1);
    if s.imm.value == [] {
      InstallKeepsDisk(s, M.Edit({}, [], [], Some(c)), s.logfileNumber, s.nextFile + 1, s2);
    } else {
      var f := TableOf(s.nextFile, size, s.imm.value);
      FlushFits(s.v, level, f, c, s.nextFile);
      InstallKeepsDisk(s, FlushEdit(level, f, c), s.logfileNumber, s.nextFile + 1, s2);
    }
  }

  lemma FlushKeepsLayers(s: State, level: nat, size: nat, s2: State)
    requires LayersOk(s) && FlushStep(s, level, size, s2)
    ensures LayersOk(s2) && Stored(s2) == Stored(s)
  {
    FlushVersion(s, level, size, s2);
    FlushMemory(s, s2);
  }

  lemma FlushMemory(s: State, s2: State)
    requires LayersOk(s) && s.imm.Some? && s2.imm == None && s2.mem == s.mem && s2.lastSequence == s.lastSequence
    requires LsmOk(s2.v) && AllOrdered(s2.v) && Entries(s2.v) == Entries(s.v) + Elems(s.imm.value)
    ensures LayersOk(s2) && Stored(s2) == Stored(s)
  {
    assert Elems(Imm(s2)) == {};
    assert Stored(s2) == Stored(s);
  }

  lemma FlushKeepsLogs(s: State, level: nat, size: nat, s2: State)
    requires LogsOk(s) && FlushStep(s, level, size, s2)
    ensures LogsOk(s2) && LiveBatches(s2) == s.logs[s.logfileNumber]
  {
    assert s2.logNumber == s2.logfileNumber == s.logfileNumber;
    AscendingSuffix(s.logs[s.logNumber], s.logs[s.logfileNumber]);
  }

  lemma FlushKeeps(s: State, level: nat, size: nat, s2: State)
    requires StructureOk(s) && FlushStep(s, level, size, s2)
    ensures StructureOk(s2) && Stored(s2) == Stored(s)
  {
    FlushKeepsLayers(s, level, size, s2);
    FlushKeepsDisk(s, level, size, s2);
    FlushKeepsLogs(s, level, size, s2);
  }

  lemma AscendingSuffix(a: seq<Batch>, b: seq<Batch>)
    requires Ascending(a + b)
    ensures Ascending(b)
  {
    forall i, j | 0 <= i < j < |b|
      ensures b[i].sn + |b[i].ops| <= b[j].sn
    {
      assert (a + b)[|a| + i] == b[i] && (a + b)[|a| + j] == b[j];
    }
  }

  /** Memtables, logs and snapshots are as before; file numbers only grow. */
  predicate SameLogs(s: State, s2: State) {
    && s2.mem == s.mem && s2.imm == s.imm && s2.logs == s.logs && s2.logNumber == s.logNumber
    && s2.logfileNumber == s.logfileNumber && s2.snapshots == s.snapshots && s2.lastSequence == s.lastSequence
    && s.nextFile <= s2.nextFile
  }

  lemma SameLogsKeep(s: State, s2: State)
    requires LogsOk(s) && SnapshotsOk(s) && SameLogs(s, s2)
    ensures LogsOk(s2) && SnapshotsOk(s2) && LiveBatches(s2) == LiveBatches(s)
  {
  }

  lemma MoveVersion(s: State, level: nat, f: File, s2: State)
    requires LayersOk(s) && DiskOk(s) && MoveStep(s, level, f, s2)
    ensures LsmOk(s2.v) && AllOrdered(s2.v) && Entries(s2.v) == Entries(s.v)
  {
    var c := CountersFor(s, s.logNumber, s.nextFile);
    assert f in [f];
    NumbersLater(s.v, LastCounters(s).nextFile, s.nextFile);
    MoveInstalls(s.v, s.nextFile, level, f, c, s2.v);
    LsmSteps.MoveKeepsLsm(s.v, level, f, s2.v);
  }

  lemma MoveKeepsDisk(s: State, level: nat, f: File, s2: State)
    requires LayersOk(s) && DiskOk(s) && MoveStep(s, level, f, s2)
    requires Entries(s2.v) == Entries(s.v)
    ensures DiskOk(s2) && LastCounters(s2) == CountersFor(s, s.logNumber, s.nextFile)
  {
    var e := MoveEdit(level, f, CountersFor(s, s.logNumber, s.nextFile));
    MovedFile(s, level, f);
    assert forall x :: x in Entries(s2.v) ==> x.key.sn <= s.lastSequence by { OldEntries(s); }
    hide CompactionOk, LayersOk, DiskOk, EditFits, Entries;
    InstallKeepsDisk(s, e, s.logNumber, s.nextFile, s2);
  }

  lemma OldEntries(s: State)
    requires LayersOk(s)
    ensures forall x :: x in Entries(s.v) ==> x.key.sn <= s.lastSequence
  {
    assert Entries(s.v) <= Stored(s);
  }

  /** A file that may move is on disk, and its edit obeys the number discipline. */
  lemma MovedFile(s: State, level: nat, f: File)
    requires DiskOk(s) && CompactionOk(s.v, level, [f], [])
    ensures EditFits(s.v, MoveEdit(level, f, CountersFor(s, s.logNumber, s.nextFile)), s.nextFile, s.nextFile)
    ensures f.number in s.tables
  {
    assert f in [f];
    MoveFits(s.v, level, f, CountersFor(s, s.logNumber, s.nextFile), s.nextFile);
    assert At(s.v, level, f.number);
  }

  /** Installing a version with no new entries keeps the layers. */
  lemma FewerEntries(s: State, s2: State)
    requires LayersOk(s) && LsmOk(s2.v) && AllOrdered(s2.v) && Entries(s2.v) <= Entries(s.v)
    requires s2.mem == s.mem && s2.imm == s.imm && s2.lastSequence == s.lastSequence
    ensures LayersOk(s2) && Stored(s2) <= Stored(s)
  {
    assert Memory(s2) == Memory(s);
  }

  lemma MoveKeeps(s: State, level: nat, f: File, s2: State)
    requires StructureOk(s) && MoveStep(s, level, f, s2)
    ensures StructureOk(s2) && Stored(s2) == Stored(s) && Entries(s2.v) == Entries(s.v)
    ensures LastCounters(s2) == CountersFor(s, s.logNumber, s.nextFile)
  {
    MoveVersion(s, level, f, s2);
    FewerEntries(s, s2);
    MoveKeepsDisk(s, level, f, s2);
    SameLogsKeep(s, s2);
  }

  lemma OutputsFresh(v: Version, next: nat, next2: nat, outputs: seq<File>)
    requires NumbersOk(v, next) && next <= next2 && NumberedFrom(outputs, next2)
    ensures FreshNumbers(v, outputs)
  {
    forall l: nat, f | f in outputs
      ensures !At(v, l, f.number)
    {
      var i :| 0 <= i < |outputs| && outputs[i] == f;
    }
  }

  lemma CompactEdit(s: State, level: nat, in0: seq<File>, in1: seq<File>, outputs: seq<File>, s2: State)
    requires LayersOk(s) && DiskOk(s) && CompactStep(s, level, in0, in1, outputs, s2)
    ensures AllOrdered(s.v) && NumbersOk(s.v, LastCounters(s).nextFile) && LastCounters(s).nextFile <= s.nextFile
    ensures CompactionOk(s.v, level, in0, in1) && NumberedFrom(outputs, s.nextFile)
    ensures Applied(s.v, CompactionEdit(level, in0, in1, outputs, CountersFor(s, s.logNumber, s.nextFile + |outputs|)),
                    s2.v)
  {
  }

  lemma CompactInstalls(s: State, level: nat, in0: seq<File>, in1: seq<File>, outputs: seq<File>, s2: State)
    requires LayersOk(s) && DiskOk(s) && CompactStep(s, level, in0, in1, outputs, s2)
    ensures Installs(s.v, level, in0, in1, outputs, s2.v)
  {
    CompactEdit(s, level, in0, in1, outputs, s2);
    hide LayersOk, DiskOk, CompactStep, AllOrdered, NumbersOk, CompactionOk, NumberedFrom, Applied, Installs;
    OutputsFresh(s.v, LastCounters(s).nextFile, s.nextFile, outputs);
    NumbersLater(s.v, LastCounters(s).nextFile, s.nextFile);
    var c := CountersFor(s, s.logNumber, s.nextFile + |outputs|);
    CompactionInstalls(s.v, s.nextFile, level, in0, in1, outputs, c, s2.v);
  }

  lemma CompactVersion(v: Version, level: nat, in0: seq<File>, in1: seq<File>, outputs: seq<File>, oldest: nat,
                       v2: Version)
    requires LsmOk(v) && CompactionOk(v, level, in0, in1)
    requires KeepsExactly(v, level, in0, in1, oldest, outputs) && Installs(v, level, in0, in1, outputs, v2)
    ensures LsmOk(v2) && Entries(v2) <= Entries(v)
  {
    InputsInVersion(v, level, in0, in1);
    InstallKeepsLsm(v, level, in0, in1, outputs, v2);
    InstalledEntries(v, level, in0, in1, outputs, v2);
  }

  lemma CompactKeepsLayers(s: State, level: nat, in0: seq<File>, in1: seq<File>, outputs: seq<File>, s2: State)
    requires LayersOk(s) && DiskOk(s) && CompactStep(s, level, in0, in1, outputs, s2)
    ensures Installs(s.v, level, in0, in1, outputs, s2.v)
    ensures LayersOk(s2) && Stored(s2) <= Stored(s) && Entries(s2.v) <= Entries(s.v)
  {
    CompactInstalls(s, level, in0, in1, outputs, s2);
    CompactVersion(s.v, level, in0, in1, outputs, Oldest(s), s2.v);
    FewerEntries(s, s2);
  }

  lemma InOutputs(level: nat, outputs: seq<File>, added: seq<(nat, File)>)
    requires added == Tagged(level, outputs)
    ensures forall p :: p in added ==> p.1.number in M.Numbers(Files(outputs))
  {
  }

  lemma NothingNewer(s: State, s2: State)
    requires LayersOk(s2) && s2.lastSequence == s.lastSequence
    ensures forall x :: x in Entries(s2.v) ==> x.key.sn <= s.lastSequence
  {
    assert Entries(s2.v) <= Stored(s2);
  }

  lemma InstallOutputs(s: State, level: nat, e: M.Edit, outputs: seq<File>, s2: State)
    requires DiskOk(s) && e.added == Tagged(level, outputs) && EditFits(s.v, e, s.nextFile, s.nextFile + |outputs|)
    requires LogAndApplyStep(s, e, s.logNumber, s.nextFile + |outputs|, s2)
    requires s2.tables == s.tables + M.Numbers(Files(outputs))
    requires forall x :: x in Entries(s2.v) ==> x.key.sn <= s.lastSequence
    ensures DiskOk(s2) && LastCounters(s2) == CountersFor(s, s.logNumber, s.nextFile + |outputs|)
  {
    InOutputs(level, outputs, e.added);
    InstallKeepsDisk(s, e, s.logNumber, s.nextFile + |outputs|, s2);
  }

  lemma OutputsKeepDisk(s: State, level: nat, in0: seq<File>, in1: seq<File>, outputs: seq<File>, s2: State)
    requires DiskOk(s) && InstallsOutputs(s, level, in0, in1, outputs, s2)
    requires var next := s.nextFile + |outputs|;
             EditFits(s.v, CompactionEdit(level, in0, in1, outputs, CountersFor(s, s.logNumber, next)), s.nextFile,
                      next)
    requires forall x :: x in Entries(s2.v) ==> x.key.sn <= s.lastSequence
    ensures DiskOk(s2) && LastCounters(s2) == CountersFor(s, s.logNumber, s.nextFile + |outputs|)
  {
    var c := CountersFor(s, s.logNumber, s.nextFile + |outputs|);
    InstallOutputs(s, level + 1, CompactionEdit(level, in0, in1, outputs, c), outputs, s2);
  }

  lemma CompactKeepsDisk(s: State, level: nat, in0: seq<File>, in1: seq<File>, outputs: seq<File>, s2: State)
    requires DiskOk(s) && CompactStep(s, level, in0, in1, outputs, s2)
    requires forall x :: x in Entries(s2.v) ==> x.key.sn <= s.lastSequence
    ensures DiskOk(s2) && LastCounters(s2) == CountersFor(s, s.logNumber, s.nextFile + |outputs|)
  {
    CompactStepFits(s.v, level, in0, in1, outputs, CountersFor(s, s.logNumber, s.nextFile + |outputs|), s.nextFile);
    OutputsKeepDisk(s, level, in0, in1, outputs, s2);
  }

  lemma CompactStepFits(v: Version, level: nat, in0: seq<File>, in1: seq<File>, outputs: seq<File>, c: M.Counters,
                        next: nat)
    requires CompactionOk(v, level, in0, in1) && NumberedFrom(outputs, next)
    ensures EditFits(v, CompactionEdit(level, in0, in1, outputs, c), next, next + |outputs|)
  {
    CompactionFits(v, level, in0, in1, outputs, c, next);
  }

  lemma CompactFrame(s: State, level: nat, in0: seq<File>, in1: seq<File>, outputs: seq<File>, s2: State)
    requires CompactStep(s, level, in0, in1, outputs, s2)
    ensures SameLogs(s, s2)
  {
  }

  lemma CompactKeepsMemory(s: State, level: nat, in0: seq<File>, in1: seq<File>, outputs: seq<File>, s2: State)
    requires LayersOk(s) && DiskOk(s) && CompactStep(s, level, in0, in1, outputs, s2)
    ensures LayersOk(s2) && DiskOk(s2) && Stored(s2) <= Stored(s) && SameLogs(s, s2)
  {
    CompactFrame(s, level, in0, in1, outputs, s2);
    CompactKeepsLayers(s, level, in0, in1, outputs, s2);
    NothingNewer(s, s2);
    CompactKeepsDisk(s, level, in0, in1, outputs, s2);
  }

  lemma CompactKeeps(s: State, level: nat, in0: seq<File>, in1: seq<File>, outputs: seq<File>, s2: State)
    requires LayersOk(s) && SnapshotsOk(s) && LogsOk(s) && DiskOk(s)
    requires CompactStep(s, level, in0, in1, outputs, s2)
    ensures LayersOk(s2) && SnapshotsOk(s2) && LogsOk(s2) && DiskOk(s2)
    ensures Stored(s2) <= Stored(s)
  {
    CompactKeepsMemory(s, level, in0, in1, outputs, s2);
    SameLogsKeep(s, s2);
  }
}
