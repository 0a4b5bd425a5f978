/** The store as one object: its operations, each proved to be a step of the state machine. */
module DbImpl {
  import opened Wrappers
  import opened Keys
  import opened Lsm
  import opened InputSelection
  import opened Compactions
  import opened CompactionWork
  import opened CompactionInstall
  import opened CompactionTheorem
  import opened Edits
  import opened EngineEdits
  import opened WriteBatches
  import opened Db
  import opened Recovery
  import opened Reopen
  import opened TornStates
  import opened Runs
  import opened Engine
  import M = Manifest
  import DbIter
  import SortedRuns
  import StoreIter
  import VersionGet
  import LsmSteps

  class DBImpl {
    const options: Options
    var mem: seq<Entry>
    var imm: Option<seq<Entry>>
    var current: Version
    var lastSequence: nat
    var snapshots: seq<nat>
    var nextFileNumber: nat
    var logNumber: nat
    var logfileNumber: nat
    var compactPointers: M.Pointers
    // Files on disk.
    var logs: map<nat, seq<Batch>>
    var manifest: seq<M.Edit>
    var tables: set<nat>

    function View(): State
      reads this
    {
      State(mem, imm, current, lastSequence, snapshots, nextFileNumber, logNumber, logfileNumber, logs, manifest,
            tables, compactPointers)
    }

    /** A new store, opened; InitialInv shows that it satisfies the invariant. */
    constructor (options: Options)
      ensures View() == Initial() && this.options == options
    {
      this.options := options;
      var s := Initial();
      mem, imm, current := s.mem, s.imm, s.v;
      lastSequence, snapshots := s.lastSequence, s.snapshots;
      nextFileNumber, logNumber, logfileNumber := s.nextFile, s.logNumber, s.logfileNumber;
      logs, manifest, tables, compactPointers := s.logs, s.manifest, s.tables, s.pointers;
    }

    // ---------------------------------------------------------------- reads

    /** Memtable, then immutable memtable, then the version: the answer of a scan of everything stored. */
    method Get(user: UserKey, snapshot: Option<nat>) returns (r: Option<string>)
      requires Inv(View())
      ensures r == Read(Stored(View()), user, if snapshot.Some? then snapshot.value else lastSequence)
    {
      var s := if snapshot.Some? then snapshot.value else lastSequence;
      GetLayers(View(), user, s);
      VersionGet.RunGetIsScan(mem, user, s);
      VersionGet.RunGetIsScan(Imm(View()), user, s);
      var l := VersionGet.RunGet(mem, user, s);
      if l.Absent? && imm.Some? {
        l := VersionGet.RunGet(imm.value, user, s);
      }
      if l.Absent? {
        l := VersionGet.Get(current, user, s);
      }
      r := Visible(l);
    }

    /**
     * An iterator on the merging iterator over everything stored: its rows are what point reads at
     * the same number find.
     */
    method NewIterator(snapshot: Option<nat>) returns (it: DbIter.DBIter)
      requires Inv(View())
      ensures fresh(it) && fresh(it.iter) && fresh(it.iter.children) && it.Ok() && !it.valid
      ensures it.sequence == if snapshot.Some? then snapshot.value else lastSequence
      ensures it.iter.all == SortedRuns.Merged(StoreIter.InternalRuns(View()))
      ensures StoreIter.ShowsReads(it.iter.all, it.sequence, Stored(View()))
    {
      hide Inv, StoreIter.InternalRuns, StoreIter.ShowsReads, Stored;
      var s := if snapshot.Some? then snapshot.value else lastSequence;
      StoreIter.InvShowsReads(View(), s);
      var internalIter := StoreIter.NewInternalIterator(View());
      it := new DbIter.DBIter(internalIter, s);
    }

    method GetSnapshot() returns (q: nat)
      requires Inv(View())
      modifies this`snapshots
      ensures Inv(View()) && q == lastSequence && GetSnapshotStep(old(View()), View())
    {
      q := lastSequence;
      snapshots := snapshots + [q];
      NextKeepsInv(old(View()), Step.GetSnapshot, View());
    }

    method ReleaseSnapshot(i: nat)
      requires Inv(View()) && i < |snapshots|
      modifies this`snapshots
      ensures Inv(View()) && ReleaseSnapshotStep(old(View()), i, View())
    {
      snapshots := snapshots[..i] + snapshots[i + 1..];
      NextKeepsInv(old(View()), Step.ReleaseSnapshot(i), View());
    }

    // --------------------------------------------------------------- writes

    /** A new empty memtable with a new empty log; the full one becomes immutable. */
    method SwitchMemTable()
      requires imm.None?
      modifies this`logs, this`logfileNumber, this`nextFileNumber, this`imm, this`mem
      ensures SwitchStep(old(View()), View())
    {
      logs := logs[nextFileNumber := []];
      logfileNumber, nextFileNumber := nextFileNumber, nextFileNumber + 1;
      imm, mem := Some(mem), [];
    }

    /**
     * Leaves a memtable with room alone. Otherwise, or when forced, switches to an empty one if no memtable waits
     * for its flush and level 0 is not too full; fails where the source would wait.
     */
    method MakeRoomForWrite(force: bool) returns (ok: bool, switched: bool)
      modifies this`logs, this`logfileNumber, this`nextFileNumber, this`imm, this`mem
      ensures if switched then SwitchStep(old(View()), View()) else View() == old(View())
      ensures switched <==> (force || !HasRoom(options, old(mem))) && MaySwitch(old(View()))
      ensures ok <==> if switched then HasRoom(options, []) else !force && HasRoom(options, old(mem))
    {
      var pending := force;
      switched := false;
      while true
        invariant if switched then SwitchStep(old(View()), View()) else View() == old(View())
        invariant pending == (force && !switched)
        invariant switched ==> (force || !HasRoom(options, old(mem))) && MaySwitch(old(View()))
        decreases !switched
      {
        if !pending && options.memoryUsage(mem) <= options.writeBufferSize {
          return true, switched;
        } else if imm.Some? || |current.levels| == 0 || |current.levels[0]| >= L0_STOP_WRITES_TRIGGER {
          return false, switched;
        }
        SwitchMemTable();
        pending, switched := false, true;
      }
    }

    /** Logs the batch, then inserts it, at the next sequence numbers. */
    method Append(ops: seq<Op>)
      requires logfileNumber in logs && lastSequence + |ops| < MAX_SEQUENCE
      requires Sorted(mem) && AllLater(BatchSet(Batch(lastSequence + 1, ops)), Elems(mem))
      modifies this`logs, this`mem, this`lastSequence
      ensures WriteStep(old(View()), ops, View())
    {
      var b := Batch(lastSequence + 1, ops);
      logs := logs[logfileNumber := logs[logfileNumber] + [b]];
      mem := InsertInto(b, mem);
      lastSequence := lastSequence + |ops|;
    }

    method AppendInOrder(ops: seq<Op>)
      requires Inv(View()) && lastSequence + |ops| < MAX_SEQUENCE
      modifies this`logs, this`mem, this`lastSequence
      ensures Inv(View()) && WriteStep(old(View()), ops, View())
    {
      ghost var s := View();
      ReadyToAppend(s, ops);
      Append(ops);
      WriteKeepsInv(s, ops, View());
    }

    method MakeRoom() returns (ok: bool)
      requires Inv(View())
      modifies this`logs, this`logfileNumber, this`nextFileNumber, this`imm, this`mem
      ensures Inv(View())
      ensures if NeedsSwitch(options, old(View())) then SwitchStep(old(View()), View()) else View() == old(View())
      ensures ok <==> CanWrite(options, old(View()))
    {
      ghost var s := View();
      var switched;
      ok, switched := MakeRoomForWrite(false);
      if switched {
        SwitchKeepsInv(s, View());
      }
    }

    /**
     * A write of one batch, after a switch to a new memtable if the current one is full. The state before
     * the call decides whether there is a switch and whether the write goes in.
     */
    method Write(ops: seq<Op>) returns (ok: bool, ghost mid: State)
      requires Inv(View()) && lastSequence + |ops| < MAX_SEQUENCE
      modifies this`logs, this`logfileNumber, this`nextFileNumber, this`imm, this`mem, this`lastSequence
      ensures Inv(View())
      ensures if NeedsSwitch(options, old(View())) then SwitchStep(old(View()), mid) else mid == old(View())
      ensures ok <==> CanWrite(options, old(View()))
      ensures if ok then WriteStep(mid, ops, View()) else View() == mid
    {
      ok := MakeRoom();
      mid := View();
      if ok {
        AppendInOrder(ops);
      }
    }

    // ------------------------------------------------------ background work

    /** Applies an edit to the current version, logs it to the manifest and installs the result. */
    method LogAndApply(deleted: set<(nat, nat)>, added: seq<(nat, File)>, pointers: seq<(nat, InternalKey)>, log: nat,
                       ghost before: State)
      returns (ghost e: M.Edit)
      requires AllOrdered(current) && NumbersOk(current, before.nextFile) && before.nextFile <= nextFileNumber
      requires var c := M.Counters(log, 0, nextFileNumber, lastSequence);
               EditFits(current, M.Edit(deleted, added, pointers, Some(c)), before.nextFile, nextFileNumber)
      modifies this`current, this`manifest, this`logNumber, this`compactPointers
      ensures e == M.Edit(deleted, added, pointers, Some(M.Counters(log, 0, nextFileNumber, lastSequence)))
      ensures Applied(old(current), e, current) && manifest == old(manifest) + [e] && logNumber == log
      ensures compactPointers == M.Pointed(old(compactPointers), pointers)
    {
      var edit := M.Edit(deleted, added, pointers, Some(M.Counters(log, 0, nextFileNumber, lastSequence)));
      e := edit;
      var v, ps := ApplyEdit(current, compactPointers, edit, before.nextFile, nextFileNumber);
      current, compactPointers := v, ps;
      manifest := manifest + [edit];
      logNumber := log;
    }

    /** Writes the immutable memtable to a table as deep as it may go, and drops its log. */
    method CompactMemTable(ghost s: State) returns (ghost a: Step)
      requires s == View() && Inv(s) && imm.Some?
      modifies this`current, this`manifest, this`logNumber, this`compactPointers, this`nextFileNumber, this`tables,
               this`imm
      ensures a.Flush? && Next(s, a, View()) && FlushPlaced(options, s, a.flushLevel, a.size)
    {
      VersionReady(s);
      var level, size, added := BuildFlushTable(s, options, current, nextFileNumber, imm.value);
      InstallFlush(s, level, size, added);
      a := Step.Flush(level, size);
    }

    method InstallFlush(ghost s: State, level: nat, size: nat, added: seq<(nat, File)>)
      requires s == View() && s.imm.Some? && AllOrdered(s.v) && NumbersOk(s.v, s.nextFile) && level < NUM_LEVELS
      requires s.imm.value == [] ==> added == []
      requires s.imm.value != [] ==>
                 added == [(level, TableOf(s.nextFile, size, s.imm.value))] && LsmSteps.FlushOk(s.v, level, added[0].1)
      modifies this`current, this`manifest, this`logNumber, this`compactPointers, this`nextFileNumber, this`tables,
               this`imm
      ensures FlushStep(s, level, size, View())
    {
      hide AllOrdered, NumbersOk, Applied, LsmSteps.FlushOk;
      if added != [] {
        tables := tables + {nextFileNumber};
        FlushFits(current, level, added[0].1, CountersFor(s, logfileNumber, nextFileNumber + 1), nextFileNumber);
      }
      nextFileNumber := nextFileNumber + 1;
      ghost var e := LogAndApply({}, added, [], logfileNumber, s);
      imm := None;
    }

    /** Completes the input sets and remembers where the next compaction of the level starts. */
    method ChooseInputs(level: nat, start: seq<File>) returns (in0: seq<File>, in1: seq<File>, grandparents: seq<File>)
      requires LsmOk(current) && level + 1 < NUM_LEVELS && StartOk(level, current.levels[level], start)
      modifies this`compactPointers
      ensures CompactionOk(current, level, in0, in1) && StartOk(level, current.levels[level], in0)
      ensures Selected(level, current.levels[level], current.levels[level + 1], start, options.maxFileSize, in0, in1)
      ensures grandparents == Grandparents(current, level, in0, in1)
      ensures in0 != [] && compactPointers == old(compactPointers)[level := LargestOf(in0)]
    {
      var pointer;
      in0, in1, grandparents, pointer := SetupOtherInputs(current, level, start, options.maxFileSize);
      compactPointers := compactPointers[level := pointer];
    }

    /** Moves one file a level down, or merges the inputs into new files one level down. */
    method Compact(level: nat, start: seq<File>, manual: bool) returns (ghost a: Step)
      requires Inv(View()) && level + 1 < NUM_LEVELS == |current.levels| && StartOk(level, current.levels[level], start)
      modifies this`current, this`manifest, this`logNumber, this`nextFileNumber, this`tables, this`compactPointers
      ensures Inv(View()) && Next(old(View()), a, View())
      ensures CompactionFrom(options, old(View()), level, start, manual, a)
    {
      hide Inv, LsmOk, AllOrdered, NumbersOk, StartOk, CompactionOk, Selected, IsRun, Next;
      ghost var s := View();
      ReadyToCompact(s);
      var in0, in1, grandparents := ChooseInputs(level, start);
      a := RunCompaction(level, in0, in1, grandparents, manual, s);
      assert SelectedRun(options, s, level, start, manual, in0, in1, a);
      NextKeepsInv(s, a, View());
    }

    method RunCompaction(level: nat, in0: seq<File>, in1: seq<File>, grandparents: seq<File>, manual: bool,
                         ghost s: State)
      returns (ghost a: Step)
      requires PointerSet(s, level, in0, View())
      requires LsmOk(s.v) && AllOrdered(s.v) && NumbersOk(s.v, s.nextFile) && Oldest(s) < MAX_SEQUENCE
      requires CompactionOk(s.v, level, in0, in1) && StartOk(level, s.v.levels[level], in0)
      modifies this`current, this`manifest, this`logNumber, this`compactPointers, this`nextFileNumber, this`tables
      ensures Next(s, a, View()) && IsRun(options, s, level, in0, in1, grandparents, manual, a)
    {
      hide LsmOk, AllOrdered, NumbersOk, StartOk, CompactionOk, MoveStep, CompactStep, MergedTables,
           TotalFileSize, Oldest, LargestOf;
      if !manual && |in0| == 1 && |in1| == 0
         && TotalFileSize(grandparents) <= MaxGrandParentOverlapBytes(options.maxFileSize) {
        assert in0 == [in0[0]] && in1 == [];
        MoveDown(level, in0[0], s);
        a := Step.Move(level, in0[0]);
      } else {
        var outputs := RunMerge(level, in0, in1, grandparents, s);
        a := Step.Compact(level, in0, in1, outputs);
      }
    }

    /** Merges down to the oldest snapshot, or to the last write if there is none. */
    method RunMerge(level: nat, in0: seq<File>, in1: seq<File>, grandparents: seq<File>, ghost s: State)
      returns (outputs: seq<File>)
      requires PointerSet(s, level, in0, View())
      requires LsmOk(s.v) && AllOrdered(s.v) && NumbersOk(s.v, s.nextFile) && Oldest(s) < MAX_SEQUENCE
      requires CompactionOk(s.v, level, in0, in1) && StartOk(level, s.v.levels[level], in0)
      modifies this`current, this`manifest, this`logNumber, this`compactPointers, this`nextFileNumber, this`tables
      ensures CompactStep(s, level, in0, in1, outputs, View())
      ensures outputs == MergedTables(options, s, level, in0, in1, grandparents)
    {
      hide LsmOk, AllOrdered, NumbersOk, StartOk, CompactionOk, KeepsExactly, InstallsOutputs, CompactionEdit,
           EditFits, MergedTables;
      var smallestSnapshot := if snapshots == [] then lastSequence else snapshots[0];
      var next;
      outputs, next := MergeInputs(options, s, current, level, in0, in1, grandparents, smallestSnapshot,
                                   nextFileNumber);
      CompactStepFits(current, level, in0, in1, outputs, CountersFor(s, logNumber, next), nextFileNumber);
      InstallCompactionResults(level, in0, in1, outputs, next, s);
    }

    method MoveDown(level: nat, f: File, ghost s: State)
      requires PointerSet(s, level, [f], View()) && AllOrdered(s.v) && NumbersOk(s.v, s.nextFile)
               && CompactionOk(s.v, level, [f], [])
      modifies this`current, this`manifest, this`logNumber, this`compactPointers
      ensures MoveStep(s, level, f, View())
    {
      assert f in [f];
      MoveFits(current, level, f, CountersFor(s, logNumber, nextFileNumber), nextFileNumber);
      ghost var e := LogAndApply({(level, f.number)}, [(level + 1, f)], Pointer(level, [f]), logNumber, s);
      PointedAgain(s.pointers, level, [f]);
    }

    method InstallCompactionResults(level: nat, in0: seq<File>, in1: seq<File>, outputs: seq<File>, next: nat,
                                    ghost s: State)
      requires PointerSet(s, level, in0, View()) && AllOrdered(s.v) && NumbersOk(s.v, s.nextFile)
               && next == s.nextFile + |outputs|
      requires EditFits(s.v, CompactionEdit(level, in0, in1, outputs, CountersFor(s, s.logNumber, next)), s.nextFile,
                        next)
      modifies this`current, this`manifest, this`logNumber, this`compactPointers, this`nextFileNumber, this`tables
      ensures InstallsOutputs(s, level, in0, in1, outputs, View())
    {
      hide AllOrdered, NumbersOk, EditFits, Applied, Tagged, Removals, M.Pointed, Pointer, M.Numbers, LargestOf;
      nextFileNumber := next;
      AddTables(outputs);
      ghost var e := LogAndApply(Removals(level, in0) + Removals(level + 1, in1), Tagged(level + 1, outputs),
                                 Pointer(level, in0), logNumber, s);
      PointedAgain(s.pointers, level, in0);
    }

    method AddTables(outputs: seq<File>)
      modifies this`tables
      ensures tables == old(tables) + M.Numbers(Files(outputs))
    {
      tables := tables + set f | f in outputs :: f.number;
    }

    /** One piece of background work: the memtable first, else a compaction of the chosen level. */
    method BackgroundCompaction(level: nat) returns (ghost a: Step)
      requires Inv(View()) && level + 1 < NUM_LEVELS && current.levels[level] != []
      modifies this
      ensures Inv(View()) && Next(old(View()), a, View())
      ensures if old(imm).Some? then a.Flush? && FlushPlaced(options, old(View()), a.flushLevel, a.size)
              else exists start :: AutomaticCompaction(options, old(View()), level, start, a)
    {
      if imm.Some? {
        ghost var s := View();
        a := CompactMemTable(s);
        NextKeepsInv(s, a, View());
      } else {
        VersionReady(View());
        ghost var s := View();
        var start := PickStart(current, level, if level in compactPointers then Some(compactPointers[level]) else None);
        a := Compact(level, start, false);
        assert AutomaticCompaction(options, s, level, start, a);
      }
    }

    /** A user-requested compaction of a key range at one level; nothing happens if no file overlaps it. */
    method CompactRange(level: nat, begin: Option<UserKey>, end: Option<UserKey>) returns (done: bool, ghost a: Step)
      requires Inv(View()) && level + 1 < NUM_LEVELS
      modifies this
      ensures Inv(View())
      ensures done <==> forall f :: f in old(current).levels[level] ==> !Overlaps(f, begin, end)
      ensures if done then View() == old(View())
              else Next(old(View()), a, View())
                   && exists start :: ManualCompaction(options, old(View()), level, begin, end, start, a)
    {
      VersionReady(View());
      ghost var s := View();
      var start := CompactRangeInputs(current, level, begin, end, options.maxFileSize);
      done := start == [];
      a := Step.Switch;
      if !done {
        a := Compact(level, start, true);
        assert ManualCompaction(options, s, level, begin, end, start, a);
      }
    }

    /** Keeps live logs, and tables that are listed or pinned by a reader or a running job. */
    method RemoveObsoleteFiles(pinned: set<nat>)
      requires Inv(View())
      modifies this`logs, this`tables
      ensures Inv(View()) && RemoveObsoleteStep(old(View()), pinned, View())
    {
      hide Inv, LsmOk;
      ghost var s := View();
      VersionListed(s);
      var live := pinned + set p | p in Listed(current, 0) :: p.1.number;
      LiveNumbers(current);
      logs := map n | n in logs && n >= logNumber :: logs[n];
      tables := set n | n in tables && n in live;
      NextKeepsInv(s, Step.RemoveObsolete(pinned), View());
    }

    // ------------------------------------------------------------- recovery

    /** Some listed table is not on disk: opening the store would report corruption. */
    method FilesMissing(v: Version) returns (missing: bool)
      requires |v.levels| == NUM_LEVELS
      ensures missing <==> exists n: nat :: Listed?(v, n) && n !in tables
    {
      LiveNumbers(v);
      var expected := set p | p in Listed(v, 0) :: p.1.number;
      missing := !(expected <= tables);
      if missing {
        ghost var n :| n in expected && n !in tables;
        assert Listed?(v, n);
      }
    }

    /**
     * A crash loses everything but the disk, and of the live log all but its first `kept` records;
     * opening the store rebuilds the rest.
     */
    method CrashAndRecover(kept: nat, limits: Limits) returns (ok: bool, ghost a: Step)
      requires Inv(View()) && kept <= |logs[logfileNumber]|
      modifies this
      ensures Inv(View()) && ok && a.CrashAndRecover? && a.kept == kept && Next(old(View()), a, View())
    {
      ghost var s := View();
      TornInv(s, kept);
      logs := logs[logfileNumber := logs[logfileNumber][..kept]];
      ok, a := Reopen(limits, kept, Torn(s, kept));
      NextKeepsInv(s, a, View());
    }

    /** Reads manifest and logs and builds the recovered version, without changing anything yet. */
    method Rebuild(limits: Limits, ghost s: State) 
      returns (ok: bool, v0: Version, ps: M.Pointers, ns: seq<nat>, r: Replay, max: nat, v: Version)
      requires manifest == s.manifest && logs == s.logs && tables == s.tables && Reopenable(s)
      ensures ok && |v0.levels| == NUM_LEVELS && ps == s.pointers
      ensures Recovered(s, v0, ns, r, max, v)
    {
      hide Replayed, Applied, Tracks, M.EditsOk, Ascending;
      var c;
      v0, ps, c := ReadManifest(manifest, s);
      var missing := FilesMissing(v0);
      ok := !missing;
      ns, r := ReadLogs(logs, c, limits, s);
      max := if c.lastSequence < r.maxSequence then r.maxSequence else c.lastSequence;
      ReplayedStack(r, c.nextFile + 1, LiveBatches(s));
      v, ps := InstallRecovered(v0, ps, r.added, r.next, max, c.nextFile + 1);
    }

    /** Manifest, log replay, then one edit that starts a new manifest and a new log. */
    method Reopen(limits: Limits, ghost kept: nat, ghost s: State) returns (ok: bool, ghost a: Step)
      requires manifest == s.manifest && logs == s.logs && tables == s.tables && Inv(s)
      modifies this
      ensures ok && a.CrashAndRecover? && a.kept == kept && RecoverStep(s, a.v0, a.ns, a.files, a.number, View())
    {
      ReadyToReopen(s);
      var v0, ps, ns, r, max, v;
      ok, v0, ps, ns, r, max, v := Rebuild(limits, s);
      Restart(v0, ps, v, r.added, r.next, max);
      RecoverStepParts(s, v0, ns, r, max, v, View());
      a := Step.CrashAndRecover(kept, v0, ns, r.added, r.next);
    }

    /** The fields of a store just opened. */
    method Restart(v0: Version, ps: M.Pointers, v: Version, files: seq<File>, number: nat, max: nat)
      requires |v0.levels| == NUM_LEVELS
      modifies this
      ensures mem == [] && imm == None && current == v && lastSequence == max && snapshots == []
      ensures nextFileNumber == number + 1 && logNumber == number && logfileNumber == number && compactPointers == ps
      ensures logs == old(logs)[number := []] && tables == old(tables) + M.Numbers(Files(files))
      ensures manifest == [SnapshotEdit(v0, ps), RecoveryEdit(files, number, max)]
    {
      hide SnapshotEdit, RecoveryEdit, M.Numbers;
      AddTables(files);
      NewManifest(v0, ps, files, number, max);
      mem, imm, current, lastSequence, snapshots := [], None, v, max, [];
      nextFileNumber, logNumber, logfileNumber := number + 1, number, number;
      compactPointers := ps;
      logs := logs[number := []];
    }

    method NewManifest(v0: Version, ps: M.Pointers, files: seq<File>, number: nat, max: nat)
      requires |v0.levels| == NUM_LEVELS
      modifies `manifest
      ensures manifest == [SnapshotEdit(v0, ps), RecoveryEdit(files, number, max)]
    {
      manifest := [SnapshotEdit(v0, ps), RecoveryEdit(files, number, max)];
    }
  }

  /** The memtable has room for another batch. */
  ghost predicate HasRoom(options: Options, mem: seq<Entry>) {
    options.memoryUsage(mem) <= options.writeBufferSize
  }

  /** No memtable waits for its flush and level 0 has few enough files. */
  ghost predicate MaySwitch(s: State) {
    s.imm.None? && |s.v.levels| > 0 && |s.v.levels[0]| < L0_STOP_WRITES_TRIGGER
  }

  /** A write to this state switches to a new memtable first. */
  ghost predicate NeedsSwitch(options: Options, s: State) {
    !HasRoom(options, s.mem) && MaySwitch(s)
  }

  /** A write to this state goes in: there is room, or a switch makes some. */
  ghost predicate CanWrite(options: Options, s: State) {
    HasRoom(options, s.mem) || (MaySwitch(s) && HasRoom(options, []))
  }

  /** Reads the manifest: the current version, the compaction pointers and the last counters. */
  method ReadManifest(manifest: seq<M.Edit>, ghost s: State) returns (v0: Version, ps: M.Pointers, c: M.Counters)
    requires manifest == s.manifest && M.EditsOk(s.manifest) && Tracks(s.manifest, s.v, s.nextFile) && AllOrdered(s.v)
    requires CountersOk(s) && PointsTo(s.manifest, s.pointers)
    ensures ManifestGives(s.manifest, v0) && v0 == s.v && ps == s.pointers && c == LastCounters(s)
  {
    assert manifest[|manifest| - 1] in manifest;
    var r := M.Recover(manifest);
    v0, ps, c := r.value.v, r.value.pointers, r.value.counters;
    ManifestIsCurrent(manifest, s.v, s.nextFile, v0);
  }

  /** The tables a merge writes. */
  ghost function MergedTables(options: Options, s: State, level: nat, in0: seq<File>, in1: seq<File>,
                              grandparents: seq<File>): seq<File>
  {
    TablesOf(InputRun(level, in0, in1), Oldest(s), BaseOf(s.v, level), CuttingFor(options, grandparents), s.nextFile)
  }

  function CuttingFor(options: Options, grandparents: seq<File>): Cutting {
    Cutting(grandparents, options.maxFileSize, MaxGrandParentOverlapBytes(options.maxFileSize), options.sizes)
  }

  /** A trivial move when there is nothing to merge and little to overlap later, otherwise a merge. */
  ghost predicate IsRun(options: Options, s: State, level: nat, in0: seq<File>, in1: seq<File>,
                        grandparents: seq<File>, manual: bool, a: Step)
  {
    if !manual && |in0| == 1 && |in1| == 0
       && TotalFileSize(grandparents) <= MaxGrandParentOverlapBytes(options.maxFileSize)
    then a == Step.Move(level, in0[0])
    else a == Step.Compact(level, in0, in1, MergedTables(options, s, level, in0, in1, grandparents))
  }

  /** The step is what the files chosen for the starting set call for. */
  ghost predicate CompactionFrom(options: Options, s: State, level: nat, start: seq<File>, manual: bool, a: Step) {
    && level + 1 < NUM_LEVELS == |s.v.levels|
    && exists in0, in1 :: SelectedRun(options, s, level, start, manual, in0, in1, a)
  }

  ghost predicate SelectedRun(options: Options, s: State, level: nat, start: seq<File>, manual: bool, in0: seq<File>,
                              in1: seq<File>, a: Step)
    requires level + 1 < NUM_LEVELS == |s.v.levels|
  {
    && in0 != [] && Selected(level, s.v.levels[level], s.v.levels[level + 1], start, options.maxFileSize, in0, in1)
    && IsRun(options, s, level, in0, in1, Grandparents(s.v, level, in0, in1), manual, a)
  }

  /** A compaction of `level` from the first file past its pointer. */
  ghost predicate AutomaticCompaction(options: Options, s: State, level: nat, start: seq<File>, a: Step) {
    && CompactionFrom(options, s, level, start, false, a)
    && PickedStart(level, s.v.levels[level], if level in s.pointers then Some(s.pointers[level]) else None, start)
  }

  /** A compaction of `level` over the requested key range. */
  ghost predicate ManualCompaction(options: Options, s: State, level: nat, begin: Option<UserKey>, end: Option<UserKey>,
                                   start: seq<File>, a: Step)
  {
    && CompactionFrom(options, s, level, start, true, a)
    && RangeStart(level, s.v.levels[level], begin, end, options.maxFileSize, start)
  }

  /** A compaction has been chosen: only the pointer of its level has moved. */
  ghost predicate PointerSet(s: State, level: nat, in0: seq<File>, s2: State) {
    in0 != [] && s2 == s.(pointers := s.pointers[level := LargestOf(in0)])
  }

  /** Setting the pointer again when the edit is applied changes nothing. */
  lemma PointedAgain(ps: M.Pointers, level: nat, in0: seq<File>)
    requires in0 != []
    ensures M.Pointed(ps[level := LargestOf(in0)], Pointer(level, in0)) == M.Pointed(ps, Pointer(level, in0))
  {
    var k := LargestOf(in0);
    assert [(level, k)][..0] == [];
    assert M.Pointed(ps, [(level, k)]) == M.Pointed(ps, [])[level := k];
  }

  /** Finds and replays the logs the manifest does not cover. */
  method ReadLogs(logs: map<nat, seq<Batch>>, c: M.Counters, limits: Limits, ghost s: State)
      returns (ns: seq<nat>, r: Replay)
    requires LogsOk(s) && CountersOk(s) && Ascending(LiveBatches(s)) && logs == s.logs && c == LastCounters(s)
    ensures LiveLogNames(s, ns) && Concat(s.logs, ns) == LiveBatches(s)
    ensures Replayed(r, c.nextFile + 1, LiveBatches(s)) && r.mem == None && forall n :: n in ns ==> n < r.next
  {
    ns := LiveLogs(logs.Keys, c.logNumber);
    LiveLogsAre(s, ns);
    r := ReplayLogs(logs, ns, limits, c.nextFile + 1);
  }

  lemma ReplayedStack(r: Replay, low: nat, done: seq<Batch>)
    requires Replayed(r, low, done)
    ensures Stack(r.added, low, r.next)
  {
  }

  method InstallRecovered(v0: Version, ps: M.Pointers, files: seq<File>, number: nat, max: nat, ghost low: nat)
    returns (v: Version, ps2: M.Pointers)
    requires AllOrdered(v0) && NumbersOk(v0, low) && Stack(files, low, number)
    ensures Applied(v0, RecoveryEdit(files, number, max), v) && ps2 == ps
  {
    StackFits(v0, files, low, number, M.Counters(number, 0, number + 1, max));
    v, ps2 := ApplyEdit(v0, ps, RecoveryEdit(files, number, max), low, number + 1);
  }

  // ---------------------------------------------------------------- lemmas

  /** What the disk alone determines: version, live logs, replayed tables, sequence number, new version. */
  ghost predicate Recovered(s: State, v0: Version, ns: seq<nat>, r: Replay, max: nat, v: Version) {
    && CountersOk(s) && ManifestGives(s.manifest, v0) && LiveLogNames(s, ns)
    && var c := LastCounters(s);
       && Replayed(r, c.nextFile + 1, Concat(s.logs, ns)) && r.mem == None && (forall n :: n in ns ==> n < r.next)
       && max == Max(c.lastSequence, r.maxSequence) && Applied(v0, RecoveryEdit(r.added, r.next, max), v)
  }

  lemma RecoverStepParts(s: State, v0: Version, ns: seq<nat>, r: Replay, max: nat, v: Version, s2: State)
    requires Recovered(s, v0, ns, r, max, v) && PointsTo(s.manifest, s.pointers)
    requires s2 == State([], None, v, max, [], r.next + 1, r.next, r.next, s.logs[r.next := []],
                         [SnapshotEdit(v0, s.pointers), RecoveryEdit(r.added, r.next, max)],
                         s.tables + M.Numbers(Files(r.added)), s.pointers)
    ensures RecoverStep(s, v0, ns, r.added, r.next, s2)
  {
    assert Elems<Entry>([]) == {};
  }

  /** What opening the store again relies on. */
  ghost predicate Reopenable(s: State) {
    && CountersOk(s) && LogsOk(s) && M.EditsOk(s.manifest) && Tracks(s.manifest, s.v, s.nextFile)
       && PointsTo(s.manifest, s.pointers)
    && Ascending(LiveBatches(s)) && AllOrdered(s.v) && NumbersOk(s.v, LastCounters(s).nextFile + 1)
    && LastCounters(s).logNumber == s.logNumber && forall n: nat :: Listed?(s.v, n) ==> n in s.tables
  }

  lemma ReadyToReopen(s: State)
    requires Inv(s)
    ensures Reopenable(s)
  {
    NumbersLater(s.v, LastCounters(s).nextFile, LastCounters(s).nextFile + 1);
  }

  /** The table of a memtable with entries has its own size and goes as deep as it may. */
  ghost predicate FlushPlaced(options: Options, s: State, level: nat, size: nat)
    requires s.imm.Some?
  {
    s.imm.value != [] ==>
      var f := TableOf(s.nextFile, size, s.imm.value);
      && size == options.sizes.finished(s.imm.value)
      && LsmSteps.DeepestPlace(s.v, f.smallest.user, f.largest.user, options.maxFileSize, level)
  }

  /** The table for a memtable, if it has entries, and the level for it. */
  method BuildFlushTable(ghost s: State, options: Options, v: Version, number: nat, es: seq<Entry>)
    returns (level: nat, size: nat, added: seq<(nat, File)>)
    requires LayersOk(s) && NumbersOk(s.v, s.nextFile) && s.imm == Some(es) && s.v == v && number == s.nextFile
    ensures level < NUM_LEVELS
    ensures if es == [] then added == []
            else added == [(level, TableOf(number, size, es))] && LsmSteps.FlushOk(v, level, added[0].1)
    ensures FlushPlaced(options, s, level, size)
  {
    level, size, added := 0, 0, [];
    if es != [] {
      size := options.sizes.finished(es);
      var f := TableOf(number, size, es);
      LevelsBounded(s);
      level := LsmSteps.PickLevelForMemTableOutput(v, f.smallest.user, f.largest.user, options.maxFileSize);
      FlushTableOk(s, level, size);
      added := [(level, f)];
    }
  }

  /** The merge: input iterator, then the merge loop. */
  method MergeInputs(options: Options, ghost s: State, v: Version, level: nat, in0: seq<File>, in1: seq<File>,
                     grandparents: seq<File>, smallestSnapshot: nat, number: nat)
    returns (outputs: seq<File>, next: nat)
    requires v == s.v && smallestSnapshot == Oldest(s) && number == s.nextFile
    requires LsmOk(v) && CompactionOk(v, level, in0, in1) && StartOk(level, v.levels[level], in0)
             && smallestSnapshot < MAX_SEQUENCE
    ensures KeepsExactly(v, level, in0, in1, smallestSnapshot, outputs)
    ensures NumberedFrom(outputs, number) && next == number + |outputs|
    ensures outputs == MergedTables(options, s, level, in0, in1, grandparents)
  {
    var input := MakeInputIterator(v, level, in0, in1);
    var c := new Compaction(v, level, grandparents, options.maxFileSize,
                            MaxGrandParentOverlapBytes(options.maxFileSize));
    outputs, next := DoCompactionWork(c, input, smallestSnapshot, options.sizes, number);
    OutputsKeepExactly(v, level, in0, in1, smallestSnapshot, input, outputs);
  }

  lemma ReadyToAppend(s: State, ops: seq<Op>)
    requires LayersOk(s) && LogsOk(s)
    ensures s.logfileNumber in s.logs && Sorted(s.mem)
            && AllLater(BatchSet(Batch(s.lastSequence + 1, ops)), Elems(s.mem))
  {
    NewBatchLater(s, Batch(s.lastSequence + 1, ops));
  }

  lemma GetLayers(s: State, user: UserKey, q: nat)
    requires LayersOk(s)
    ensures Look(Stored(s), user, q)
         == var m := Look(Elems(s.mem), user, q);
            if !m.Absent? then m
            else var i := Look(Elems(Imm(s)), user, q);
                 if !i.Absent? then i else Look(Entries(s.v), user, q)
  {
    VersionGet.RunGetIsScan(s.mem, user, q);
    SortedDistinct(s.mem);
    SortedDistinct(Imm(s));
    AboveDistinct(Elems(s.mem), Elems(Imm(s)));
    EntriesFromDistinct(s.v, 0);
    AboveDistinct(Memory(s), Entries(s.v));
    LookLayers(Elems(s.mem), Elems(Imm(s)), user, q);
    LookLayers(Memory(s), Entries(s.v), user, q);
  }

  lemma NewBatchLater(s: State, b: Batch)
    requires LayersOk(s) && b.sn == s.lastSequence + 1
    ensures AllLater(BatchSet(b), Elems(s.mem)) && Sorted(s.mem)
  {
    BatchRange(b);
    assert Elems(s.mem) <= Stored(s);
  }

  lemma VersionReady(s: State)
    requires Inv(s)
    ensures LsmOk(s.v) && AllOrdered(s.v) && NumbersOk(s.v, s.nextFile)
  {
    NumbersLater(s.v, LastCounters(s).nextFile, s.nextFile);
  }

  lemma OldestBounded(s: State)
    requires LayersOk(s) && SnapshotsOk(s)
    ensures Oldest(s) < MAX_SEQUENCE
  {
    assert s.snapshots != [] ==> s.snapshots[0] in s.snapshots;
  }

  lemma ReadyToCompact(s: State)
    requires Inv(s)
    ensures LsmOk(s.v) && AllOrdered(s.v) && NumbersOk(s.v, s.nextFile) && Oldest(s) < MAX_SEQUENCE
  {
    VersionReady(s);
    OldestBounded(s);
  }

  lemma VersionListed(s: State)
    requires Inv(s)
    ensures |s.v.levels| == NUM_LEVELS
  {
    VersionReady(s);
  }

  lemma LevelsBounded(s: State)
    requires LayersOk(s)
    ensures forall l :: 0 <= l < NUM_LEVELS ==> LsmSteps.SequencesBounded(s.v.levels[l])
  {
    forall l: nat, f | l < NUM_LEVELS && f in s.v.levels[l]
      ensures f.largest.sn <= MAX_SEQUENCE
    {
      assert LevelOk(l, s.v.levels[l]) && FileOk(f);
      var e := f.entries[|f.entries| - 1];
      assert e in FilesEntries(s.v.levels[l]);
      EntryAt(s.v, e);
      assert e in Stored(s);
    }
  }

  /** The level chosen for a flushed table, with the table's number, makes a legal flush. */
  lemma FlushTableOk(s: State, level: nat, size: nat)
    requires LayersOk(s) && NumbersOk(s.v, s.nextFile) && s.imm.Some? && s.imm.value != [] && level < NUM_LEVELS
    requires var f := TableOf(s.nextFile, size, s.imm.value);
             level > 0 ==> forall l :: 0 <= l <= level ==>
                   !LsmSteps.SomeOverlap(s.v.levels[l], f.smallest.user, f.largest.user)
    ensures LsmSteps.FlushOk(s.v, level, TableOf(s.nextFile, size, s.imm.value))
  {
    FlushFileOk(s, size);
    forall g | g in s.v.levels[0]
      ensures g.number < s.nextFile
    {
      assert At(s.v, 0, g.number);
    }
  }

  /** The merge loop's outputs are legal tables holding exactly what the drop rules keep. */
  lemma OutputsKeepExactly(v: Version, level: nat, in0: seq<File>, in1: seq<File>, oldest: nat, input: seq<Entry>,
                           outputs: seq<File>)
    requires Sorted(input) && Elems(input) == InputEntries(in0, in1)
    requires Flat(outputs) == KeptUpTo(input, |input|, oldest, BaseOf(v, level)) && Bounded(outputs)
    ensures KeepsExactly(v, level, in0, in1, oldest, outputs)
  {
    KeptAll(input, oldest, BaseOf(v, level));
    FlatSortedIsLevel(outputs);
    FlatElems(outputs);
  }

  lemma LiveNumbers(v: Version)
    requires |v.levels| == NUM_LEVELS
    ensures forall n: nat :: n in (set p | p in Listed(v, 0) :: p.1.number) <==> Listed?(v, n)
  {
    forall n: nat
      ensures n in (set p | p in Listed(v, 0) :: p.1.number) <==> Listed?(v, n)
    {
      if Listed?(v, n) {
        var l: nat :| At(v, l, n);
        var f :| f in v.levels[l] && f.number == n;
        assert (l, f) in Listed(v, 0);
      }
      if p :| p in Listed(v, 0) && p.1.number == n {
        assert At(v, p.0, n);
      }
    }
  }
}
