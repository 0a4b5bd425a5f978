/** A run from a new store that ends with a merge bringing a deleted value back. */
module CutRun {
  import opened Wrappers
  import opened Keys
  import opened Lsm
  import opened InputSelection
  import opened Compactions
  import opened CompactionReads
  import opened CompactionWork
  import opened CompactionInstall
  import opened CompactionTheorem
  import opened Edits
  import opened EngineEdits
  import opened WriteBatches
  import opened Db
  import opened Runs
  import opened Histories
  import opened RunReads
  import opened Traces
  import CutExample
  import LsmSteps
  import M = Manifest

  // ------------------------------------------------- entries, tables, versions

  function Old(): Entry { Entry(InternalKey(5.0, 1, Value), "old") }

  function Other(): Entry { Entry(InternalKey(1.0, 2, Value), "b") }

  function Marker(): Entry { Entry(InternalKey(5.0, 3, Deletion), "") }

  function Two(): Entry { Entry(InternalKey(2.0, 4, Value), "a") }

  function TwoAgain(): Entry { Entry(InternalKey(2.0, 5, Value), "c") }

  /** The first flush: both versions of key 5 together. */
  function A(): File { TableOf(5, 1, [Other(), Marker(), Old()]) }

  function B(): File { TableOf(7, 1, [Two()]) }

  /** The first merge cuts its output between the two versions of key 5. */
  function Upto5(): File { TableOf(8, 1, [Other(), Two(), Marker()]) }

  function Rest(): File { TableOf(9, 1, [Old()]) }

  function C(): File { TableOf(11, 1, [TwoAgain()]) }

  /** What the second merge keeps. */
  function Last(): File { TableOf(12, 1, [Other(), TwoAgain()]) }

  /** A version with files at levels 1 and 2 only. */
  function At12(one: seq<File>, two: seq<File>): Version {
    Version([[], one, two, [], [], [], []])
  }

  // ------------------------------------------------------------ step effects

  function AfterWrite(s: State, ops: seq<Op>, mem: seq<Entry>): State
    requires s.logfileNumber in s.logs
  {
    s.(mem := mem, lastSequence := s.lastSequence + |ops|,
       logs := s.logs[s.logfileNumber := s.logs[s.logfileNumber] + [Batch(s.lastSequence + 1, ops)]])
  }

  function AfterSwitch(s: State): State {
    s.(imm := Some(s.mem), mem := [], logfileNumber := s.nextFile, nextFile := s.nextFile + 1,
       logs := s.logs[s.nextFile := []])
  }

  function AfterFlush(s: State, level: nat, v: Version): State
    requires s.imm.Some? && s.imm.value != []
  {
    var e := FlushEdit(level, TableOf(s.nextFile, 1, s.imm.value), CountersFor(s, s.logfileNumber, s.nextFile + 1));
    s.(imm := None, v := v, nextFile := s.nextFile + 1, logNumber := s.logfileNumber, manifest := s.manifest + [e],
       tables := s.tables + {s.nextFile}, pointers := M.Pointed(s.pointers, e.pointers))
  }

  ghost function AfterMerge(s: State, in0: seq<File>, in1: seq<File>, outputs: seq<File>, v: Version): State {
    var e := CompactionEdit(1, in0, in1, outputs, CountersFor(s, s.logNumber, s.nextFile + |outputs|));
    s.(v := v, nextFile := s.nextFile + |outputs|, manifest := s.manifest + [e],
       tables := s.tables + M.Numbers(Files(outputs)), pointers := M.Pointed(s.pointers, e.pointers))
  }

  // --------------------------------------------------------------- the run

  function Ops(i: nat): seq<Op> {
    if i == 0 then [Put(5.0, "old")]
    else if i == 1 then [Put(1.0, "b"), Delete(5.0)]
    else if i == 2 then [Put(2.0, "a")]
    else [Put(2.0, "c")]
  }

  function S1(): State { AfterWrite(Initial(), Ops(0), [Old()]) }

  function S2(): State { S1().(snapshots := S1().snapshots + [S1().lastSequence]) }

  function S3(): State { AfterWrite(S2(), Ops(1), [Other(), Marker(), Old()]) }

  function S4(): State { AfterSwitch(S3()) }

  function S5(): State { AfterFlush(S4(), 2, At12([], [A()])) }

  function S6(): State { AfterWrite(S5(), Ops(2), [Two()]) }

  function S7(): State { AfterSwitch(S6()) }

  function S8(): State { AfterFlush(S7(), 1, At12([B()], [A()])) }

  ghost function S9(): State { AfterMerge(S8(), [B()], [A()], [Upto5(), Rest()], At12([], [Upto5(), Rest()])) }

  ghost function S10(): State { S9().(snapshots := []) }

  ghost function S11(): State { AfterWrite(S10(), Ops(3), [TwoAgain()]) }

  ghost function S12(): State { AfterSwitch(S11()) }

  ghost function S13(): State { AfterFlush(S12(), 1, At12([C()], [Upto5(), Rest()])) }

  ghost function S14(): State { AfterMerge(S13(), [C()], [Upto5()], [Last()], At12([], [Last(), Rest()])) }

  ghost function States(): seq<State> {
    [Initial(), S1(), S2(), S3(), S4(), S5(), S6(), S7(), S8(), S9(), S10(), S11(), S12(), S13(), S14()]
  }

  function Steps(): seq<Step> {
    [Write(Ops(0)), Step.GetSnapshot, Write(Ops(1)), Step.Switch, Step.Flush(2, 1),
     Write(Ops(2)), Step.Switch, Step.Flush(1, 1), Step.Compact(1, [B()], [A()], [Upto5(), Rest()]),
     Step.ReleaseSnapshot(0), Write(Ops(3)), Step.Switch, Step.Flush(1, 1),
     Step.Compact(1, [C()], [Upto5()], [Last()])]
  }

  // ---------------------------------------------------- effects are steps

  lemma WriteIs(s: State, ops: seq<Op>, mem: seq<Entry>)
    requires s.logfileNumber in s.logs && s.lastSequence + |ops| < MAX_SEQUENCE
    requires Sorted(mem) && Elems(mem) == Elems(s.mem) + BatchSet(Batch(s.lastSequence + 1, ops))
    ensures WriteStep(s, ops, AfterWrite(s, ops, mem))
  {
  }

  lemma EntriesAre(one: seq<File>, two: seq<File>)
    ensures Entries(At12(one, two)) == FilesEntries(one) + FilesEntries(two)
  {
    var v := At12(one, two);
    forall e
      ensures e in Entries(v) <==> e in FilesEntries(one) + FilesEntries(two)
    {
      EntryAt(v, e);
      assert v.levels[1] == one && v.levels[2] == two;
      assert forall l :: 0 <= l < NUM_LEVELS && l != 1 && l != 2 ==> v.levels[l] == [];
    }
  }

  lemma AppliedAt12(one: seq<File>, two: seq<File>, e: M.Edit, one2: seq<File>, two2: seq<File>)
    requires M.Ordered(one2) && M.Ordered(two2)
    requires Files(one2) == M.AfterEdit(Files(one), e, 1) && Files(two2) == M.AfterEdit(Files(two), e, 2)
    requires forall l :: 0 <= l < NUM_LEVELS && l != 1 && l != 2 ==> M.AddedAt(e, l) == {}
    ensures Applied(At12(one, two), e, At12(one2, two2))
  {
    var v, v2 := At12(one, two), At12(one2, two2);
    forall l: nat | l < NUM_LEVELS
      ensures M.Ordered(v2.levels[l]) && Files(v2.levels[l]) == M.AfterEdit(Files(v.levels[l]), e, l)
    {
      if l == 1 {
        assert v.levels[l] == one && v2.levels[l] == one2;
      } else if l == 2 {
        assert v.levels[l] == two && v2.levels[l] == two2;
      } else {
        assert v.levels[l] == [] && v2.levels[l] == [];
      }
    }
  }

  lemma FlushApplied(level: nat, f: File, c: M.Counters, one: seq<File>, two: seq<File>, one2: seq<File>,
                     two2: seq<File>)
    requires M.Ordered(one) && M.Ordered(two)
    requires level == 1 && one == [] ==> one2 == [f] && two2 == two
    requires level == 2 && two == [] ==> one2 == one && two2 == [f]
    requires (level == 1 && one == []) || (level == 2 && two == [])
    ensures Applied(At12(one, two), FlushEdit(level, f, c), At12(one2, two2))
  {
    var e := FlushEdit(level, f, c);
    assert (level, f) in e.added;
    forall l: nat
      ensures M.AddedAt(e, l) == (if l == level then {f} else {}) && M.DeletedAt(e, l) == {}
    {
    }
    AppliedAt12(one, two, e, one2, two2);
  }

  lemma FlushIs(s: State, level: nat, v2: Version)
    requires s.imm.Some? && s.imm.value != [] && LsmSteps.FlushOk(s.v, level, TableOf(s.nextFile, 1, s.imm.value))
    requires Applied(s.v, FlushEdit(level, TableOf(s.nextFile, 1, s.imm.value),
                                    CountersFor(s, s.logfileNumber, s.nextFile + 1)), v2)
    ensures FlushStep(s, level, 1, AfterFlush(s, level, v2))
  {
  }

  // --------------------------------------------------- the states in between

  /** The fields of a state that the steps look at. */
  ghost predicate Looks(s: State, mem: seq<Entry>, imm: Option<seq<Entry>>, v: Version, last: nat, snapshots: seq<nat>,
                        next: nat, log: nat)
  {
    && s.mem == mem && s.imm == imm && s.v == v && s.lastSequence == last && s.snapshots == snapshots
    && s.nextFile == next && s.logfileNumber == log && log in s.logs
  }

  lemma WrittenLooks(s: State, ops: seq<Op>, mem: seq<Entry>)
    requires s.logfileNumber in s.logs
    ensures Looks(AfterWrite(s, ops, mem), mem, s.imm, s.v, s.lastSequence + |ops|, s.snapshots, s.nextFile,
                  s.logfileNumber)
  {
  }

  lemma SwitchedLooks(s: State)
    ensures Looks(AfterSwitch(s), [], Some(s.mem), s.v, s.lastSequence, s.snapshots, s.nextFile + 1, s.nextFile)
  {
  }

  lemma FlushedLooks(s: State, level: nat, v: Version)
    requires s.imm.Some? && s.imm.value != [] && s.logfileNumber in s.logs
    ensures Looks(AfterFlush(s, level, v), s.mem, None, v, s.lastSequence, s.snapshots, s.nextFile + 1, s.logfileNumber)
  {
  }

  lemma MergedLooks(s: State, in0: seq<File>, in1: seq<File>, outputs: seq<File>, v: Version)
    requires s.logfileNumber in s.logs
    ensures Looks(AfterMerge(s, in0, in1, outputs, v), s.mem, s.imm, v, s.lastSequence, s.snapshots,
                  s.nextFile + |outputs|, s.logfileNumber)
  {
  }

  lemma FirstStates()
    ensures Looks(Initial(), [], None, At12([], []), 0, [], 4, 3)
    ensures Looks(S1(), [Old()], None, At12([], []), 1, [], 4, 3)
    ensures Looks(S2(), [Old()], None, At12([], []), 1, [1], 4, 3)
    ensures Looks(S3(), [Other(), Marker(), Old()], None, At12([], []), 3, [1], 4, 3)
    ensures Looks(S4(), [], Some([Other(), Marker(), Old()]), At12([], []), 3, [1], 5, 4)
  {
    hide AfterWrite, AfterSwitch, Old, Other, Marker;
    assert EmptyVersion().levels == At12([], []).levels;
    WrittenLooks(Initial(), Ops(0), [Old()]);
    WrittenLooks(S2(), Ops(1), [Other(), Marker(), Old()]);
    SwitchedLooks(S3());
  }

  lemma MiddleStates()
    ensures Looks(S4(), [], Some([Other(), Marker(), Old()]), At12([], []), 3, [1], 5, 4)
    ensures Looks(S5(), [], None, At12([], [A()]), 3, [1], 6, 4)
    ensures Looks(S6(), [Two()], None, At12([], [A()]), 4, [1], 6, 4)
    ensures Looks(S7(), [], Some([Two()]), At12([], [A()]), 4, [1], 7, 6)
    ensures Looks(S8(), [], None, At12([B()], [A()]), 4, [1], 8, 6)
  {
    hide S4, AfterWrite, AfterSwitch, AfterFlush, At12, A, B, Old, Other, Marker, Two;
    FirstStates();
    FlushedLooks(S4(), 2, At12([], [A()]));
    WrittenLooks(S5(), Ops(2), [Two()]);
    SwitchedLooks(S6());
    FlushedLooks(S7(), 1, At12([B()], [A()]));
  }

  lemma LastStates()
    ensures Looks(S8(), [], None, At12([B()], [A()]), 4, [1], 8, 6)
    ensures Looks(S9(), [], None, At12([], [Upto5(), Rest()]), 4, [1], 10, 6)
    ensures Looks(S10(), [], None, At12([], [Upto5(), Rest()]), 4, [], 10, 6)
    ensures Looks(S11(), [TwoAgain()], None, At12([], [Upto5(), Rest()]), 5, [], 10, 6)
    ensures Looks(S12(), [], Some([TwoAgain()]), At12([], [Upto5(), Rest()]), 5, [], 11, 10)
    ensures Looks(S13(), [], None, At12([C()], [Upto5(), Rest()]), 5, [], 12, 10)
    ensures Looks(S14(), [], None, At12([], [Last(), Rest()]), 5, [], 13, 10)
  {
    hide S8, AfterWrite, AfterSwitch, AfterFlush, AfterMerge, At12, A, B, C, Upto5, Rest, Last, TwoAgain;
    MiddleStates();
    MergedLooks(S8(), [B()], [A()], [Upto5(), Rest()], At12([], [Upto5(), Rest()]));
    WrittenLooks(S10(), Ops(3), [TwoAgain()]);
    SwitchedLooks(S11());
    FlushedLooks(S12(), 1, At12([C()], [Upto5(), Rest()]));
    MergedLooks(S13(), [C()], [Upto5()], [Last()], At12([], [Last(), Rest()]));
  }

  // ------------------------------------------------------ writes and switches

  lemma OneWritten(b: Batch, e: Entry, mem: seq<Entry>)
    requires |b.ops| == 1 && e == OpEntry(b.ops[0], b.sn) && mem == []
    ensures Sorted([e]) && Elems([e]) == Elems(mem) + BatchSet(b)
  {
    assert BatchEntries(b) == [e];
  }

  lemma TwoWritten()
    ensures var mem := [Other(), Marker(), Old()];
            Sorted(mem)
            && Elems(mem) == Elems([Old()]) + BatchSet(Batch(2, Ops(1)))
  {
    assert BatchEntries(Batch(2, Ops(1))) == [Other(), Marker()];
    assert Elems([Other(), Marker(), Old()]) == {Old(), Other(), Marker()}
           == Elems([Old()]) + Elems([Other(), Marker()]);
  }

  lemma FirstWrite()
    ensures WriteStep(Initial(), Ops(0), S1())
  {
    FirstStates();
    var b := Batch(1, Ops(0));
    assert BatchEntries(b) == [Old()];
    WriteIs(Initial(), Ops(0), [Old()]);
  }

  lemma SecondWrite()
    ensures WriteStep(S2(), Ops(1), S3())
  {
    TwoWritten();
    hide S1, S2, S4, At12, Other, Marker, Old, Sorted, BatchSet, Elems;
    FirstStates();
    WriteIs(S2(), Ops(1), [Other(), Marker(), Old()]);
  }

  lemma ThirdWrite()
    ensures WriteStep(S5(), Ops(2), S6())
  {
    hide S4, S5, S7, S8, At12;
    MiddleStates();
    OneWritten(Batch(4, Ops(2)), Two(), []);
    WriteIs(S5(), Ops(2), [Two()]);
  }

  lemma FourthWrite()
    ensures WriteStep(S10(), Ops(3), S11())
  {
    hide S8, S9, S10, S12, S13, At12;
    LastStates();
    OneWritten(Batch(5, Ops(3)), TwoAgain(), []);
    WriteIs(S10(), Ops(3), [TwoAgain()]);
  }

  lemma Switches()
    ensures SwitchStep(S3(), S4()) && SwitchStep(S6(), S7()) && SwitchStep(S11(), S12())
    ensures GetSnapshotStep(S1(), S2()) && ReleaseSnapshotStep(S9(), 0, S10())
  {
    hide S1, S3, S6, S9, S11;
    FirstStates();
    MiddleStates();
    LastStates();
    assert S9().snapshots[..0] + S9().snapshots[1..] == [];
  }

  // ---------------------------------------------------------------- flushes

  /** A table may go to a level when it is newer than all entries and nothing down to there overlaps it. */
  lemma MayFlush(level: nat, f: File, one: seq<File>, two: seq<File>)
    requires 1 <= level <= 2 && FileOk(f)
    requires Above(Elems(f.entries), FilesEntries(one) + FilesEntries(two))
    requires one == [] && (level == 2 ==> two == [])
    ensures LsmSteps.FlushOk(At12(one, two), level, f)
  {
    EntriesAre(one, two);
    var v := At12(one, two);
    assert v.levels[0] == [] && v.levels[1] == one && v.levels[2] == two;
  }

  lemma FirstFlush()
    ensures FlushStep(S4(), 2, 1, S5())
  {
    MiddleStates();
    hide S4, LsmSteps.FlushOk, Applied, FlushEdit, CountersFor, At12;
    var es := [Other(), Marker(), Old()];
    assert TableOf(5, 1, es) == A() && FileOk(A());
    MayFlush(2, A(), [], []);
    FlushApplied(2, A(), CountersFor(S4(), 4, 6), [], [], [], [A()]);
    FlushIs(S4(), 2, At12([], [A()]));
  }

  lemma BMayFlush()
    ensures FileOk(B()) && LsmSteps.FlushOk(At12([], [A()]), 1, B())
  {
    assert forall e :: e in FilesEntries([A()]) ==> e in A().entries;
    MayFlush(1, B(), [], [A()]);
  }

  lemma SecondFlush()
    ensures FlushStep(S7(), 1, 1, S8())
  {
    MiddleStates();
    hide S7, LsmSteps.FlushOk, Applied, FlushEdit, CountersFor, At12, A, FlushStep;
    assert TableOf(7, 1, [Two()]) == B();
    BMayFlush();
    hide B, TableOf, AfterFlush;
    FlushApplied(1, B(), CountersFor(S7(), 6, 8), [], [A()], [B()], [A()]);
    FlushIs(S7(), 1, At12([B()], [A()]));
  }

  lemma CMayFlush()
    ensures FileOk(C()) && LsmSteps.FlushOk(At12([], [Upto5(), Rest()]), 1, C())
  {
    MergedEntries();
    MayFlush(1, C(), [], [Upto5(), Rest()]);
  }

  lemma ThirdFlush()
    ensures FlushStep(S12(), 1, 1, S13())
  {
    LastStates();
    MergedOrdered();
    hide S12, LsmSteps.FlushOk, Applied, FlushEdit, CountersFor, At12, Upto5, Rest, FlushStep;
    assert TableOf(11, 1, [TwoAgain()]) == C();
    CMayFlush();
    FlushApplied(1, C(), CountersFor(S12(), 10, 12), [], [Upto5(), Rest()], [C()], [Upto5(), Rest()]);
    FlushIs(S12(), 1, At12([C()], [Upto5(), Rest()]));
  }

  lemma MergedEntries()
    ensures FilesEntries([Upto5(), Rest()]) == {Other(), Two(), Marker(), Old()}
  {
    assert Upto5() in [Upto5(), Rest()] && Rest() in [Upto5(), Rest()];
    assert Other() in Upto5().entries && Two() in Upto5().entries && Marker() in Upto5().entries
           && Old() in Rest().entries;
  }

  lemma MergedOrdered()
    ensures M.Ordered([Upto5(), Rest()]) && Disjoint([Upto5(), Rest()]) && FilesOk([Upto5(), Rest()])
  {
  }

  // ----------------------------------------------------------------- merges

  /** All of level 1 and some of level 2 replaced by the outputs. */
  lemma MergeApplied(one: seq<File>, two: seq<File>, in1: seq<File>, outputs: seq<File>, c: M.Counters, two2: seq<File>)
    requires UniqueNumbers(Files(one)) && UniqueNumbers(Files(two)) && forall f :: f in in1 ==> f in two
    requires forall f, g :: f in outputs && g in in1 ==> f.number != g.number
    requires M.Ordered(two2) && Files(two2) == Files(two) - Files(in1) + Files(outputs)
    ensures Applied(At12(one, two), CompactionEdit(1, one, in1, outputs, c), At12([], two2))
  {
    var e := CompactionEdit(1, one, in1, outputs, c);
    forall l: nat
      ensures M.AddedAt(e, l) == if l == 2 then Files(outputs) else {}
    {
      TaggedAdds(2, outputs, l);
    }
    forall l: nat, n: nat
      ensures n in M.DeletedAt(e, l) <==>
                (l == 1 && exists f :: f in one && f.number == n)
                || (l == 2 && exists f :: f in in1 && f.number == n)
    {
      CompactionRemovals(1, one, in1, outputs, c, l, n);
    }
    ReplacedFiles(one, one, M.DeletedAt(e, 1), {});
    ReplacedFiles(two, in1, M.DeletedAt(e, 2), Files(outputs));
    AppliedAt12(one, two, e, [], two2);
  }

  lemma OneOverlaps(two: seq<File>, in1: File, rest: seq<File>, at: UserKey)
    requires two == [in1] + rest && |rest| <= 1 && Spans(in1, at) && forall f :: f in rest ==> !Spans(f, at)
    ensures Overlapping(two, Some(at), Some(at)) == [in1]
  {
    var first := [in1];
    assert first[..0] == [] && Overlapping(first, Some(at), Some(at)) == first;
    if rest == [] {
      assert two == first;
    } else {
      assert two[1] == rest[0] && rest[0] in rest && two[..1] == first;
    }
  }

  lemma OneFileRange(f: File)
    requires f.smallest.user == f.largest.user
    ensures RangeLo([f]) == RangeHi([f]) == f.smallest.user
  {
    assert f in [f];
  }

  lemma FileChosen(f: File, two: seq<File>, in1: File, rest: seq<File>)
    requires two == [in1] + rest && |rest| <= 1 && f.smallest.user == f.largest.user
    requires Spans(in1, f.smallest.user) && forall g :: g in rest ==> !Spans(g, f.smallest.user)
    ensures CompactionOk(At12([f], two), 1, [f], [in1])
  {
    var v, up := At12([f], two), [f];
    OneFileRange(f);
    OneOverlaps(two, in1, rest, f.smallest.user);
    hide Overlapping, RangeLo, RangeHi, Spans, Newer;
    assert v.levels[1] == up && v.levels[2] == two;
  }

  lemma InputsHave(f: File, g: File)
    ensures InputEntries([f], [g]) == Elems(f.entries) + Elems(g.entries)
  {
    assert f in [f] && g in [g];
    assert FilesEntries([f]) == Elems(f.entries) && FilesEntries([g]) == Elems(g.entries);
  }

  lemma NothingDeeper(one: seq<File>, two: seq<File>, user: UserKey)
    ensures BaseOf(At12(one, two), 1)(user)
  {
    var v := At12(one, two);
    assert forall l :: 3 <= l < NUM_LEVELS ==> v.levels[l] == [];
    assert BaseLevel(v, 1, user);
  }

  /** The first merge keeps everything: the snapshot still needs the old value, and the marker is newer than it. */
  lemma FirstKeeps()
    ensures KeepsExactly(At12([B()], [A()]), 1, [B()], [A()], 1, [Upto5(), Rest()])
  {
    MergedEntries();
    MergedOrdered();
    InputsHave(B(), A());
    var S, base := InputEntries([B()], [A()]), BaseOf(At12([B()], [A()]), 1);
    assert S == {Two(), Other(), Marker(), Old()};
    assert KeptSet(S, 1, base) == S;
  }

  /** The second merge drops the marker and the overwritten value of key 2. */
  lemma SecondKept(base: UserKey -> bool, oldest: nat)
    requires base(5.0) && oldest >= 5
    ensures KeptSet({TwoAgain(), Other(), Two(), Marker()}, oldest, base) == {Other(), TwoAgain()}
  {
    var S := {TwoAgain(), Other(), Two(), Marker()};
    assert TwoAgain() in S && Hidden(S, oldest, Two()) && Obsolete(oldest, base, Marker());
    assert Kept(S, oldest, base, Other()) && Kept(S, oldest, base, TwoAgain());
  }

  lemma LastIsOk()
    ensures FilesOk([Last()]) && Disjoint([Last()]) && FilesEntries([Last()]) == {Other(), TwoAgain()}
  {
    assert Last() in [Last()] && Other() in Last().entries && TwoAgain() in Last().entries;
  }

  lemma SecondKeeps(oldest: nat)
    requires oldest >= 5
    ensures KeepsExactly(At12([C()], [Upto5(), Rest()]), 1, [C()], [Upto5()], oldest, [Last()])
  {
    InputsHave(C(), Upto5());
    NothingDeeper([C()], [Upto5(), Rest()], 5.0);
    LastIsOk();
    assert InputEntries([C()], [Upto5()]) == {TwoAgain(), Other(), Two(), Marker()};
    SecondKept(BaseOf(At12([C()], [Upto5(), Rest()]), 1), oldest);
  }

  lemma MergeIs(s: State, in0: seq<File>, in1: seq<File>, outputs: seq<File>, v2: Version)
    requires CompactionOk(s.v, 1, in0, in1) && KeepsExactly(s.v, 1, in0, in1, Oldest(s), outputs)
             && NumberedFrom(outputs, s.nextFile)
    requires Applied(s.v, CompactionEdit(1, in0, in1, outputs, CountersFor(s, s.logNumber, s.nextFile + |outputs|)), v2)
    ensures CompactStep(s, 1, in0, in1, outputs, AfterMerge(s, in0, in1, outputs, v2))
  {
  }

  lemma FirstApplied(c: M.Counters)
    ensures Applied(At12([B()], [A()]), CompactionEdit(1, [B()], [A()], [Upto5(), Rest()], c),
                    At12([], [Upto5(), Rest()]))
  {
    MergedOrdered();
    MergeApplied([B()], [A()], [A()], [Upto5(), Rest()], c, [Upto5(), Rest()]);
  }

  lemma FirstChosen()
    ensures CompactionOk(At12([B()], [A()]), 1, [B()], [A()]) && NumberedFrom([Upto5(), Rest()], 8)
  {
    FileChosen(B(), [A()], A(), []);
  }

  lemma SecondChosen()
    ensures CompactionOk(At12([C()], [Upto5(), Rest()]), 1, [C()], [Upto5()]) && NumberedFrom([Last()], 12)
  {
    FileChosen(C(), [Upto5(), Rest()], Upto5(), [Rest()]);
  }

  lemma FirstMerge()
    ensures CompactStep(S8(), 1, [B()], [A()], [Upto5(), Rest()], S9())
  {
    FirstChosen();
    hide S4, S5, S6, S7, S8, CompactionOk, KeepsExactly, Applied, CompactionEdit, CountersFor, CompactStep,
         NumberedFrom, At12, A, B, Upto5, Rest;
    MiddleStates();
    FirstKeeps();
    FirstApplied(CountersFor(S8(), S8().logNumber, 10));
    MergeIs(S8(), [B()], [A()], [Upto5(), Rest()], At12([], [Upto5(), Rest()]));
  }

  lemma SecondApplied(c: M.Counters)
    ensures Applied(At12([C()], [Upto5(), Rest()]), CompactionEdit(1, [C()], [Upto5()], [Last()], c),
                    At12([], [Last(), Rest()]))
  {
    var two, two2 := [Upto5(), Rest()], [Last(), Rest()];
    assert Files(two) == {Upto5(), Rest()} && Files([Upto5()]) == {Upto5()};
    assert Files([Last()]) == {Last()} && Files(two2) == {Last(), Rest()};
    MergeApplied([C()], two, [Upto5()], [Last()], c, two2);
  }

  lemma SecondMerge()
    ensures CompactStep(S13(), 1, [C()], [Upto5()], [Last()], S14())
  {
    SecondChosen();
    hide S8, S9, S10, S11, S12, S13, CompactionOk, KeepsExactly, Applied, CompactionEdit, CountersFor, CompactStep,
         NumberedFrom, At12, C, Upto5, Rest, Last;
    LastStates();
    SecondKeeps(5);
    SecondApplied(CountersFor(S13(), S13().logNumber, 13));
    MergeIs(S13(), [C()], [Upto5()], [Last()], At12([], [Last(), Rest()]));
  }

  // ------------------------------------------------------------ the theorem

  lemma RunIsRun()
    ensures IsRun(States(), Steps())
  {
    FirstWrite();
    Switches();
    SecondWrite();
    FirstFlush();
    ThirdWrite();
    SecondFlush();
    FirstMerge();
    FourthWrite();
    ThirdFlush();
    SecondMerge();
    var states, steps := States(), Steps();
    hide S1, S2, S3, S4, S5, S6, S7, S8, S9, S10, S11, S12, S13, S14, Ops,
         WriteStep, SwitchStep, FlushStep, CompactStep, GetSnapshotStep, ReleaseSnapshotStep, A, B, C,
         Upto5, Rest, Last, Initial;
    forall i: nat | i < |steps|
      ensures StepAt(states, steps, Next, i)
    {
    }
  }

  lemma RestHas(e: Entry)
    requires e in RestEntries(At12([C()], [Upto5(), Rest()]), [C()], [Upto5()])
    ensures e == Old()
  {
    EntriesAre([C()], [Upto5(), Rest()]);
    MergedEntries();
    InputsHave(C(), Upto5());
    assert FilesEntries([C()]) == Elems(C().entries) by { assert C() in [C()]; }
  }

  /** The second merge cuts key 5: its marker goes, its older value stays in the next table. */
  lemma KeyIsCut(oldest: nat)
    requires oldest >= 5
    ensures CutsKey(At12([C()], [Upto5(), Rest()]), 1, [C()], [Upto5()], {}, oldest, oldest, Upto5(), Rest(), Marker(),
                    Old())
  {
    var v := At12([C()], [Upto5(), Rest()]);
    NothingDeeper([C()], [Upto5(), Rest()], 5.0);
    SecondInputs();
    SecondFiles();
    hide InputEntries, RestEntries, Overlapping, Entries, FilesEntries, BaseLevel, BaseOf, At12, Upto5, Rest, C;
    forall x | x in {} + RestEntries(v, [C()], [Upto5()])
      ensures x.key.sn <= Old().key.sn
    {
      RestHas(x);
    }
  }

  lemma SecondInputs()
    ensures InputEntries([C()], [Upto5()]) == {TwoAgain(), Other(), Two(), Marker()}
  {
    InputsHave(C(), Upto5());
  }

  lemma SecondFiles()
    ensures var v := At12([C()], [Upto5(), Rest()]);
            && 2 < |v.levels| && Rest() in v.levels[2] && Rest() !in [Upto5()] && Upto5() in [Upto5()]
            && Marker() in Upto5().entries && Old() in Rest().entries
  {
    var v := At12([C()], [Upto5(), Rest()]);
    assert v.levels[2] == [Upto5(), Rest()];
    assert v.levels[2][1] == Rest() && Upto5().entries[2] == Marker() && Rest().entries[0] == Old();
  }

  lemma LastStepCuts()
    ensures !CutsNothing(S13(), Steps()[13])
  {
    hide S8, S9, S10, S11, S12, S13, S14, CutsKey, C, Upto5, Rest, Last, A, B, At12;
    LastStates();
    KeyIsCut(5);
    var s := S13();
    assert Memory(s) == {};
    assert SomeKeyCut(s.v, 1, [C()], [Upto5()], Memory(s), Oldest(s), Oldest(s));
  }

  /** Reads around the last merge, from the versions before and after it. */
  lemma CutReads(v: Version, v2: Version, oldest: nat)
    requires LsmOk(v) && CompactionOk(v, 1, [C()], [Upto5()]) && KeepsExactly(v, 1, [C()], [Upto5()], oldest, [Last()])
    requires Installs(v, 1, [C()], [Upto5()], [Last()], v2)
    requires CutsKey(v, 1, [C()], [Upto5()], {}, oldest, oldest, Upto5(), Rest(), Marker(), Old())
    ensures Read(Entries(v), 5.0, oldest) == None && Read(Entries(v2), 5.0, oldest) == Some("old")
  {
    hide LsmOk, CompactionOk, KeepsExactly, Installs, CutsKey, C, Upto5, Rest, Last;
    CutExample.CutReturns(v, 1, [C()], [Upto5()], oldest, oldest, [Last()], v2, Upto5(), Rest(), Marker(), Old());
  }

  lemma MergeGives(s: State, s2: State, oldest: nat)
    requires Inv(s) && CompactStep(s, 1, [C()], [Upto5()], [Last()], s2) && Oldest(s) == oldest
    ensures LsmOk(s.v) && CompactionOk(s.v, 1, [C()], [Upto5()])
            && KeepsExactly(s.v, 1, [C()], [Upto5()], oldest, [Last()])
    ensures Installs(s.v, 1, [C()], [Upto5()], [Last()], s2.v)
  {
    hide C, Upto5, Last, InstallsOutputs, KeepsExactly, Installs, CompactionOk, LsmOk;
    CompactInstalled(s, 1, [C()], [Upto5()], [Last()], s2);
  }

  lemma OnlyVersion(s: State)
    requires s.mem == [] && s.imm == None
    ensures Stored(s) == Entries(s.v)
  {
    assert Memory(s) == {};
  }

  lemma LastMerge()
    ensures var s, s2 := S13(), S14();
            && LsmOk(s.v) && CompactionOk(s.v, 1, [C()], [Upto5()])
               && KeepsExactly(s.v, 1, [C()], [Upto5()], 5, [Last()])
            && Installs(s.v, 1, [C()], [Upto5()], [Last()], s2.v)
            && s.lastSequence == s2.lastSequence == 5 && Stored(s) == Entries(s.v) && Stored(s2) == Entries(s2.v)
  {
    LastStates();
    RunIsRun();
    assert States()[13] == S13();
    RunKeepsInv(States(), Steps(), 13);
    SecondMerge();
    OnlyVersion(S13());
    OnlyVersion(S14());
    hide S13, S14, C, Upto5, Last, CompactStep, KeepsExactly, Installs, CompactionOk, LsmOk, Inv, IsRun, States, Steps;
    MergeGives(S13(), S14(), 5);
  }

  lemma StepsAre()
    ensures |States()| == |Steps()| + 1 == 15 && States()[13] == S13() && States()[14] == S14()
    ensures Steps()[13] == Step.Compact(1, [C()], [Upto5()], [Last()])
    ensures forall i :: 0 <= i < 14 ==> LosesNothing(States()[i], Steps()[i])
  {
    hide S1, S2, S3, S4, S5, S6, S7, S8, S9, S10, S11, S12, S13, S14, Ops, A, B, C, Upto5, Rest, Last, Initial;
  }

  /**
   * The store can break its promise: a run of ordinary steps from a new store after which key 5,
   * deleted and read as deleted before the last merge, reads as its old value.
   */
  lemma DeletedValueReturnsInRun()
    ensures IsRun(States(), Steps()) && !CutsNothing(States()[13], Steps()[13])
    ensures Read(Stored(States()[13]), 5.0, States()[13].lastSequence) == None
    ensures Read(Stored(States()[14]), 5.0, States()[14].lastSequence) == Some("old")
  {
    hide S13, S14, States, Steps, IsRun, CutsNothing, C, Upto5, Last, KeepsExactly, Installs, CompactionOk, LsmOk,
         CutsKey;
    StepsAre();
    RunIsRun();
    LastStepCuts();
    LastStates();
    KeyIsCut(5);
    LastMerge();
    CutReads(S13().v, S14().v, 5);
  }

  lemma CutDisagrees(states: seq<State>, steps: seq<Step>, j: nat)
    requires IsRun(states, steps) && j < |steps| && !CutsNothing(states[j], steps[j])
    requires forall i :: 0 <= i < |steps| ==> LosesNothing(states[i], steps[i])
    ensures exists i :: 0 <= i <= |steps| && !Agrees(states[i], History(states, steps, i))
  {
    hide IsRun, CutsNothing, LosesNothing, Agrees;
    RunReadsIff(states, steps, |steps|);
  }

  /** So reads do not agree with the history of writes in every run. */
  lemma SomeRunDisagrees()
    ensures exists states, steps, i ::
              IsRun(states, steps) && 0 <= i <= |steps|
              && !Agrees(states[i], History(states, steps, i))
  {
    hide IsRun, CutsNothing, LosesNothing, Agrees, States, Steps;
    StepsAre();
    DeletedValueReturnsInRun();
    CutDisagrees(States(), Steps(), 13);
  }
}
