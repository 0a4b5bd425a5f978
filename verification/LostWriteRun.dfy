/** A run in which a merge does harm that only a newer write hides, until a crash loses that write. */
module LostWriteRun {
  import opened Wrappers
  import opened Keys
  import opened Lsm
  import opened Compactions
  import opened CompactionWork
  import opened CompactionTheorem
  import opened CompactionInstall
  import opened Edits
  import opened EngineEdits
  import opened WriteBatches
  import opened Db
  import opened Recovery
  import opened Reopen
  import opened TornStates
  import opened Runs
  import opened Histories
  import opened RunReads
  import opened Traces
  import opened CutRun
  import M = Manifest

  // ------------------------------------------------ recovery without records

  /** The store opened after a crash that left no record in the live log. */
  ghost function Reopened(s: State): State
    requires |s.v.levels| == NUM_LEVELS
  {
    var number := s.nextFile + 1;
    State([], None, s.v, s.lastSequence, [], number + 1, number, number, s.logs[number := []],
          [SnapshotEdit(s.v, s.pointers), RecoveryEdit([], number, s.lastSequence)],
          s.tables + M.Numbers(Files([])), s.pointers)
  }

  lemma NothingApplied(v: Version, number: nat, max: nat)
    requires AllOrdered(v)
    ensures Applied(v, RecoveryEdit([], number, max), v)
  {
    forall l: nat | l < NUM_LEVELS
      ensures Files(v.levels[l]) == M.AfterEdit(Files(v.levels[l]), RecoveryEdit([], number, max), l)
    {
    }
  }

  lemma ManifestGivesCurrent(s: State)
    requires LayersOk(s) && DiskOk(s)
    ensures ManifestGives(s.manifest, s.v) && M.ReplayPointers(s.manifest, |s.manifest|) == s.pointers
  {
  }

  lemma OneLiveLog(s: State)
    requires LogsOk(s) && CountersOk(s) && s.imm.None? && s.logs[s.logfileNumber] == []
    ensures var ns := [s.logNumber];
            && s.logNumber in s.logs && LiveLogNames(s, ns) && Concat(s.logs, ns) == [] && s.logNumber <= s.nextFile
            && LastCounters(s).nextFile <= s.nextFile
    ensures LiveBatches(s) == []
  {
    var ns := [s.logNumber];
    LiveLogsAre(s, ns);
  }

  lemma StepParts(s: State, c: M.Counters)
    requires s.manifest != [] && s.manifest[|s.manifest| - 1].counters.Some? && c == LastCounters(s)
             && |s.v.levels| == NUM_LEVELS
    requires ManifestGives(s.manifest, s.v) && M.ReplayPointers(s.manifest, |s.manifest|) == s.pointers
    requires LiveLogNames(s, [s.logNumber]) && s.logNumber in s.logs && Concat(s.logs, [s.logNumber]) == []
    requires s.logNumber <= s.nextFile && c.nextFile <= s.nextFile
             && s.lastSequence == Max(c.lastSequence, MaxSequence([]))
    requires Applied(s.v, RecoveryEdit([], s.nextFile + 1, s.lastSequence), s.v)
    ensures RecoverStep(s, s.v, [s.logNumber], [], s.nextFile + 1, Reopened(s))
  {
    hide ManifestGives, Applied, LiveLogNames, Concat, RecoveryEdit, SnapshotEdit, M.Numbers;
    assert BatchesSet([]) == {} == FilesEntries([]);
    assert Stack([], c.nextFile + 1, s.nextFile + 1);
  }

  lemma EmptyRecovery(s: State)
    requires StructureOk(s) && SequenceOk(s) && s.imm.None? && s.logs[s.logfileNumber] == []
    ensures |s.v.levels| == NUM_LEVELS && RecoverStep(s, s.v, [s.logNumber], [], s.nextFile + 1, Reopened(s))
  {
    hide RecoverStep, Applied, ManifestGives, LiveLogNames, Concat, RecoveryEdit;
    ManifestGivesCurrent(s);
    NothingApplied(s.v, s.nextFile + 1, s.lastSequence);
    OneLiveLog(s);
    StepParts(s, LastCounters(s));
  }

  // ---------------------------------------------------------------- the run

  /** A newer value of key 5 hides the cut. */
  function New(): Entry { Entry(InternalKey(5.0, 6, Value), "new") }

  function NewOps(): seq<Op> { [Put(5.0, "new")] }

  ghost function T14(): State {
    LastStates();
    AfterWrite(S13(), NewOps(), [New()])
  }

  ghost function T15(): State {
    AfterMerge(T14(), [C()], [Upto5()], [Last()], At12([], [Last(), Rest()]))
  }

  lemma LaterStates()
    ensures Looks(T14(), [New()], None, At12([C()], [Upto5(), Rest()]), 6, [], 12, 10)
    ensures Looks(T15(), [New()], None, At12([], [Last(), Rest()]), 6, [], 13, 10)
    ensures T15().logs == T14().logs
  {
    hide S13, AfterWrite, AfterMerge, At12, C, Upto5, Rest, Last, New;
    LastStates();
    WrittenLooks(S13(), NewOps(), [New()]);
    MergedLooks(T14(), [C()], [Upto5()], [Last()], At12([], [Last(), Rest()]));
    SameLogs(T14(), [C()], [Upto5()], [Last()], At12([], [Last(), Rest()]));
  }

  lemma SameLogs(s: State, in0: seq<File>, in1: seq<File>, outputs: seq<File>, v: Version)
    ensures AfterMerge(s, in0, in1, outputs, v).logs == s.logs
  {
  }

  lemma HidingWrite()
    ensures WriteStep(S13(), NewOps(), T14())
  {
    hide S13, C, Upto5, Rest, At12;
    LastStates();
    OneWritten(Batch(6, NewOps()), New(), []);
    WriteIs(S13(), NewOps(), [New()]);
  }

  lemma HarmfulMerge()
    ensures CompactStep(T14(), 1, [C()], [Upto5()], [Last()], T15())
  {
    SecondChosen();
    hide T14, CompactionOk, KeepsExactly, Applied, CompactionEdit, CountersFor, CompactStep, NumberedFrom, At12, C,
         Upto5, Rest, Last;
    LaterStates();
    SecondKeeps(6);
    SecondApplied(CountersFor(T14(), T14().logNumber, 13));
    MergeIs(T14(), [C()], [Upto5()], [Last()], At12([], [Last(), Rest()]));
  }

  lemma LastInv()
    ensures Inv(T14()) && Inv(T15()) && Stored(S13()) == Entries(S13().v)
  {
    hide IsRun, S13, T14, T15, Inv, Next, States, Steps, WriteStep, CompactStep;
    StepsAre();
    RunIsRun();
    RunKeepsInv(States(), Steps(), 13);
    HidingWrite();
    HarmfulMerge();
    Following(S13(), T14(), T15());
    LastStates();
    OnlyVersion(S13());
  }

  lemma Following(s: State, s2: State, s3: State)
    requires Inv(s) && WriteStep(s, NewOps(), s2) && CompactStep(s2, 1, [C()], [Upto5()], [Last()], s3)
    ensures Inv(s2) && Inv(s3)
  {
    hide Inv, WriteStep, CompactStep;
    NextKeepsInv(s, Write(NewOps()), s2);
    NextKeepsInv(s2, Step.Compact(1, [C()], [Upto5()], [Last()]), s3);
  }

  // ------------------------------------------------------ no merge cuts a key

  lemma FirstCutsNothing(above: set<Entry>, oldest: nat, point: nat)
    ensures !SomeKeyCut(At12([B()], [A()]), 1, [B()], [A()], above, oldest, point)
  {
    var v := At12([B()], [A()]);
    assert v.levels[2] == [A()];
    hide A, B, At12;
  }

  lemma OnlyMarker(t: Entry)
    requires t in Upto5().entries && t.key.kind.Deletion?
    ensures t == Marker()
  {
  }

  lemma NewerHides(above: set<Entry>, R: set<Entry>, r: Entry)
    requires New() in above && forall x :: x in above + R && x.key.user == 5.0 && x.key.sn <= 6 ==> x.key.sn <= r.key.sn
    ensures r.key.sn >= 6
  {
    assert New() in above + R;
  }

  /** The newer value hides the marker from every reader. */
  lemma SecondCutsNothing(above: set<Entry>)
    requires New() in above
    ensures !SomeKeyCut(At12([C()], [Upto5(), Rest()]), 1, [C()], [Upto5()], above, 6, 6)
  {
    var v := At12([C()], [Upto5(), Rest()]);
    forall h, g, t, r | CutsKey(v, 1, [C()], [Upto5()], above, 6, 6, h, g, t, r)
      ensures false
    {
      OnlyMarker(t);
      NewerHides(above, RestEntries(v, [C()], [Upto5()]), r);
    }
  }

  // --------------------------------------------------------------- the reads

  /** Without the newer value the old one is readable after the merge, but not before. */
  lemma ReadsWithoutNew()
    ensures Read(Entries(T14().v), 5.0, 6) == None && Read(Entries(T15().v), 5.0, 6) == Some("old")
  {
    hide T14, T15, Inv, CompactStep, C, Upto5, Rest, Last, KeepsExactly, Installs, CompactionOk, LsmOk, CutsKey, At12;
    LaterStates();
    LastInv();
    HarmfulMerge();
    MergeGives(T14(), T15(), 6);
    KeyIsCut(6);
    CutReads(T14().v, T15().v, 6);
  }

  /** A crash that takes the whole live log of a store without an immutable memtable. */
  lemma EmptyCrash(s: State)
    requires Inv(s) && s.imm.None? && LastCounters(s).lastSequence == s.lastSequence
    ensures LogsOk(s) && CountersOk(s)
    ensures var t := Torn(s, 0);
            && |t.v.levels| == NUM_LEVELS && Reopened(t).v == s.v && Reopened(t).lastSequence == s.lastSequence
            && CrashStep(s, 0, t.v, [t.logNumber], [], t.nextFile + 1, Reopened(t))
  {
    TornInv(s, 0);
    SettledIs(s);
    EmptyRecovery(Torn(s, 0));
    hide RecoverStep;
  }

  lemma RecordedMerge(s: State, in0: seq<File>, in1: seq<File>, outputs: seq<File>, s2: State)
    requires Inv(s) && CompactStep(s, 1, in0, in1, outputs, s2) && Inv(s2)
    ensures s2.manifest != [] && s2.manifest[|s2.manifest| - 1].counters.Some?
            && LastCounters(s2).lastSequence == s2.lastSequence
  {
    hide Inv, CompactStep;
    InstallRecords(s, Step.Compact(1, in0, in1, outputs), s2);
  }

  // ------------------------------------------------------------ the theorem

  /** The states of the run; `last` is the store opened after the crash. */
  ghost function AllStates(last: State): seq<State>
    requires |States()| == 15
  {
    States()[..14] + [T14(), T15(), last]
  }

  function AllSteps(crash: Step): seq<Step>
    requires |Steps()| == 14
  {
    Steps()[..13] + [Write(NewOps()), Step.Compact(1, [C()], [Upto5()], [Last()]), crash]
  }

  lemma AllAre(last: State, crash: Step)
    ensures |States()| == |Steps()| + 1 == 15
    ensures var states, steps := AllStates(last), AllSteps(crash);
            && |states| == |steps| + 1 == 17
            && states[13] == S13() && states[14] == T14() && states[15] == T15() && states[16] == last
            && steps[13] == Write(NewOps()) && steps[14] == Step.Compact(1, [C()], [Upto5()], [Last()])
               && steps[15] == crash
            && forall i :: 0 <= i < 13 ==> states[i] == States()[i] && steps[i] == Steps()[i]
  {
    hide States, Steps, S13, T14, T15, C, Upto5, Last;
    StepsAre();
  }

  lemma RunGoesOn(last: State, crash: Step)
    requires Next(T15(), crash, last)
    ensures |States()| == |Steps()| + 1 == 15 && IsRun(AllStates(last), AllSteps(crash))
  {
    hide States, Steps, T14, T15, S13, Next, WriteStep, CompactStep, Initial, C, Upto5, Last;
    StepsAre();
    RunIsRun();
    HidingWrite();
    HarmfulMerge();
    NextIs();
    var states, steps := AllStates(last), AllSteps(crash);
    forall i: nat | i < |steps|
      ensures StepAt(states, steps, Next, i)
    {
      if i < 13 {
        assert StepAt(States(), Steps(), Next, i);
      }
    }
  }

  lemma NextIs()
    ensures WriteStep(S13(), NewOps(), T14()) ==> Next(S13(), Write(NewOps()), T14())
    ensures CompactStep(T14(), 1, [C()], [Upto5()], [Last()], T15())
            ==> Next(T14(), Step.Compact(1, [C()], [Upto5()], [Last()]), T15())
  {
    hide S13, T14, T15, C, Upto5, Last, WriteStep, CompactStep;
  }

  lemma EarlyStepsCutNothing(i: nat)
    requires i < 13
    ensures i < |Steps()| && i < |States()| && CutsNothing(States()[i], Steps()[i])
            && CutsNothingTorn(States()[i], Steps()[i])
  {
    FirstCutsNothing(Memory(S8()), Oldest(S8()), Oldest(S8()));
    FirstCutsNothing(Elems(Imm(S8())), Oldest(S8()), S8().lastSequence);
    MiddleStates();
    hide S1, S2, S3, S4, S5, S6, S7, S8, S9, S10, S11, S12, S13, S14, A, B, C, Upto5, Rest, Last, Ops, Initial,
         SomeKeyCut, Memory, At12;
  }

  lemma MergeCutsNothing()
    ensures CutsNothing(T14(), Step.Compact(1, [C()], [Upto5()], [Last()]))
  {
    hide T14, C, Upto5, Rest, Last, At12, SomeKeyCut;
    LaterStates();
    assert New() in Memory(T14());
    SecondCutsNothing(Memory(T14()));
  }

  lemma StepsCutNothing(last: State, crash: Step)
    requires crash.CrashAndRecover?
    ensures |States()| == |Steps()| + 1 == 15
    ensures var states, steps := AllStates(last), AllSteps(crash);
            && (forall i :: 0 <= i < 16 ==> CutsNothing(states[i], steps[i]))
            && forall i :: 0 <= i < 14 ==> CutsNothingTorn(states[i], steps[i])
  {
    hide States, Steps, AllStates, AllSteps, S13, T14, T15, C, Upto5, Last, SomeKeyCut;
    AllAre(last, crash);
    var states, steps := AllStates(last), AllSteps(crash);
    forall i: nat | i < 16
      ensures CutsNothing(states[i], steps[i]) && (i < 14 ==> CutsNothingTorn(states[i], steps[i]))
    {
      if i < 13 {
        EarlyStepsCutNothing(i);
      } else if i == 14 {
        MergeCutsNothing();
      }
    }
  }

  /** The history after the crash: everything written but the newer value. */
  lemma HistoryReads(s: State, s2: State, H: set<Entry>)
    requires Inv(s) && Survives(s, H) && Read(Entries(s.v), 5.0, s.lastSequence) == None && s.imm.None?
    requires s2.logs == s.logs && s2.logfileNumber == s.logfileNumber
    ensures s2.logfileNumber in s2.logs && Read(H - BatchesSet(Lost(s2, 0)), 5.0, s.lastSequence) == None
  {
    SurvivesBase(s, H);
    TornParts(s, 0);
    SettledBound(s);
    assert s.logs[s.logfileNumber][..0] == [] && BatchesSet([]) == {};
    hide Inv, Survives, Torn, Settled, BatchesSet;
    assert Base(s) == Entries(s.v);
  }

  /**
   * That no merge cuts a key is not enough once a crash may lose writes: in this run none does,
   * and yet after the last step, a crash, key 5 is deleted by what is left of the history and
   * reads as its first value.
   */
  lemma LostWriteShowsCut() returns (states: seq<State>, steps: seq<Step>)
    ensures IsRun(states, steps) && |steps| == 16 && forall i :: 0 <= i < 16 ==> CutsNothing(states[i], steps[i])
    ensures Read(History(states, steps, 16), 5.0, states[16].lastSequence) == None
    ensures Read(Stored(states[16]), 5.0, states[16].lastSequence) == Some("old")
  {
    hide States, Steps, AllStates, AllSteps, S13, T14, T15, C, Upto5, Last, Inv, CutsNothing, CutsNothingTorn,
         Survives, Agrees, IsRun, Next, CrashStep, History, Reopened, Torn, Stored, Entries, Looks;
    StepsAre();
    var crash, last := LastCrash();
    states, steps := AllStates(last), AllSteps(crash);
    AllAre(last, crash);
    RunGoesOn(last, crash);
    StepsCutNothing(last, crash);
    BeforeMerge(states, steps);
    LastHistory(states, steps);
  }

  lemma LaterFields()
    ensures T14().imm.None? && T15().imm.None? && T14().lastSequence == T15().lastSequence == 6
    ensures T15().logs == T14().logs && T15().logfileNumber == T14().logfileNumber && T15().logfileNumber in T15().logs
  {
    hide T14, T15, At12, C, Upto5, Rest, Last, New;
    LaterStates();
  }

  lemma MergeRecorded()
    ensures T15().manifest != [] && T15().manifest[|T15().manifest| - 1].counters.Some?
    ensures LastCounters(T15()).lastSequence == T15().lastSequence
  {
    hide T14, T15, Inv, CompactStep, C, Upto5, Last;
    LastInv();
    HarmfulMerge();
    RecordedMerge(T14(), [C()], [Upto5()], [Last()], T15());
  }

  /** The crash that loses the newer value, and what the store opened after it reads. */
  lemma LastCrash() returns (crash: Step, last: State)
    ensures crash.CrashAndRecover? && crash.kept == 0 && Next(T15(), crash, last)
    ensures last.lastSequence == 6 && Read(Stored(last), 5.0, 6) == Some("old")
  {
    hide T14, T15, S13, Inv, LogsOk, CountersOk, Next, CrashStep, Reopened, Torn, Stored, Entries;
    LaterFields();
    LastInv();
    MergeRecorded();
    EmptyCrash(T15());
    var t := Torn(T15(), 0);
    crash, last := Step.CrashAndRecover(0, t.v, [t.logNumber], [], t.nextFile + 1), Reopened(t);
    CrashIs(T15(), crash, last);
    OnlyTablesLeft(t, last);
    ReadsWithoutNew();
  }

  /** Up to the second merge every crash would have been survived, so the history left deletes key 5. */
  lemma BeforeMerge(states: seq<State>, steps: seq<Step>)
    requires IsRun(states, steps) && |steps| == 16 && states[14] == T14() && states[15] == T15()
    requires forall i :: 0 <= i < 14 ==> CutsNothing(states[i], steps[i]) && CutsNothingTorn(states[i], steps[i])
    ensures T15().logfileNumber in T15().logs
    ensures Read(History(states, steps, 14) - BatchesSet(Lost(T15(), 0)), 5.0, 6) == None
  {
    hide T14, T15, S13, Inv, CutsNothing, CutsNothingTorn, Survives, Agrees, IsRun, History, Torn, Stored, Entries;
    RunLength(states, steps);
    LaterFields();
    LastInv();
    RunSurvivesIff(states, steps, 14);
    assert Survives(T14(), History(states, steps, 14));
    ReadsWithoutNew();
    HistoryReads(T14(), T15(), History(states, steps, 14));
  }

  lemma CrashIs(s: State, a: Step, s2: State)
    requires a.CrashAndRecover? && CrashStep(s, a.kept, a.v0, a.ns, a.files, a.number, s2)
    ensures Next(s, a, s2)
  {
  }

  lemma LastHistory(states: seq<State>, steps: seq<Step>)
    requires IsRun(states, steps) && |steps| == 16 && steps[14].Compact? && steps[15].CrashAndRecover?
             && steps[15].kept == 0
    requires states[15].logfileNumber in states[15].logs
    ensures |states| == 17 && History(states, steps, 16) == History(states, steps, 14) - BatchesSet(Lost(states[15], 0))
  {
    LastStep(states, steps, 15);
    LastStep(states, steps, 16);
  }

  lemma OnlyTablesLeft(t: State, last: State)
    requires |t.v.levels| == NUM_LEVELS && last == Reopened(t)
    ensures Stored(last) == Entries(last.v)
  {
    OnlyVersion(last);
  }
}
