/** The merges of the run that brings a deleted value back are the ones the store picks by itself. */
module AutomaticRun {
  import opened Wrappers
  import opened Keys
  import opened Lsm
  import opened InputSelection
  import opened Compactions
  import opened CompactionReads
  import opened CompactionWork
  import opened CompactionInstall
  import opened SortedRuns
  import opened Db
  import opened Runs
  import opened RunReads
  import opened Engine
  import opened DbImpl
  import opened CutRun

  /** Tables are cut after three entries. */
  function Sizing(): Sizes {
    Sizes((es: seq<Entry>) => |es|, (es: seq<Entry>) => 1)
  }

  function Configured(): Options {
    Options(1, 3, (es: seq<Entry>) => |es|, Sizing())
  }

  function Cut3(): Cutting {
    CuttingFor(Configured(), [])
  }

  // ------------------------------------------------------------- the inputs

  lemma InputIs(v: Version, in0: seq<File>, in1: seq<File>, input: seq<Entry>)
    requires LsmOk(v) && CompactionOk(v, 1, in0, in1) && StartOk(1, v.levels[1], in0)
    requires Sorted(input) && Elems(input) == InputEntries(in0, in1)
    ensures InputRun(1, in0, in1) == input
  {
    InputRunsOk(v, 1, in0, in1);
    hide LsmOk, CompactionOk, StartOk, LevelRuns;
    MergedSorted(LevelRuns(1, in0) + LevelRuns(2, in1));
    SortedUnique(InputRun(1, in0, in1), input);
  }

  // ------------------------------------------------------------- the tables

  /** With nothing two levels down to overlap, one more entry. */
  lemma PlainStep(p: Progress, e: Entry, kept: bool)
    requires p.overlap.index == 0 && p.overlap.bytes == 0
    ensures Advanced(p, e, kept, Cut3())
         == Progress(if !kept then p.o
                     else if |Added(p.o, e).b.entries| >= 3 then Finished(Added(p.o, e), Sizing()) else Added(p.o, e),
                     Overlap(0, true, 0))
  {
    hide Finished, Added;
  }

  /** Four input entries, each kept or not as told. */
  ghost function Four(k: seq<bool>, es: seq<Entry>, first: nat): Progress
    requires |k| == |es| == 4
  {
    var p0 := Progress(Outputs([], Closed, first), Overlap(0, false, 0));
    var p2 := Advanced(Advanced(p0, es[0], k[0], Cut3()), es[1], k[1], Cut3());
    Advanced(Advanced(p2, es[2], k[2], Cut3()), es[3], k[3], Cut3())
  }

  lemma FourIs(es: seq<Entry>, k: seq<bool>, oldest: nat, base: UserKey -> bool, first: nat)
    requires |es| == |k| == 4 && forall i :: 0 <= i < 4 ==> k[i] == Kept(Elems(es), oldest, base, es[i])
    ensures TablesOf(es, oldest, base, Cut3(), first) == Finished(Four(k, es, first).o, Sizing()).files
  {
    hide Advanced, Kept, Finished;
    var p1 := ProgressAt(es, 1, oldest, base, Cut3(), first);
    var p2 := ProgressAt(es, 2, oldest, base, Cut3(), first);
    var p3 := ProgressAt(es, 3, oldest, base, Cut3(), first);
    var p0 := ProgressAt(es, 0, oldest, base, Cut3(), first);
    assert p1 == Advanced(p0, es[0], k[0], Cut3()) && p2 == Advanced(p1, es[1], k[1], Cut3());
    assert p3 == Advanced(p2, es[2], k[2], Cut3());
    assert ProgressAt(es, 4, oldest, base, Cut3(), first) == Advanced(p3, es[3], k[3], Cut3());
  }

  lemma Opens(files: seq<File>, next: nat, seen: bool, e: Entry)
    ensures Advanced(Progress(Outputs(files, Closed, next), Overlap(0, seen, 0)), e, true, Cut3())
         == Progress(Outputs(files, Open(next, e.key, e.key, [e]), next + 1), Overlap(0, true, 0))
  {
    PlainStep(Progress(Outputs(files, Closed, next), Overlap(0, seen, 0)), e, true);
    hide Advanced;
  }

  lemma Grows(files: seq<File>, n: nat, next: nat, a: Entry, b: Entry)
    ensures Advanced(Progress(Outputs(files, Open(n, a.key, a.key, [a]), next), Overlap(0, true, 0)), b, true, Cut3())
         == Progress(Outputs(files, Open(n, a.key, b.key, [a, b]), next), Overlap(0, true, 0))
  {
    PlainStep(Progress(Outputs(files, Open(n, a.key, a.key, [a]), next), Overlap(0, true, 0)), b, true);
    hide Advanced;
    assert [a] + [b] == [a, b];
  }

  lemma Fills(n: nat, next: nat, a: Entry, b: Entry, c: Entry)
    ensures Advanced(Progress(Outputs([], Open(n, a.key, b.key, [a, b]), next), Overlap(0, true, 0)), c, true, Cut3())
         == Progress(Outputs([TableOf(n, 1, [a, b, c])], Closed, next), Overlap(0, true, 0))
  {
    PlainStep(Progress(Outputs([], Open(n, a.key, b.key, [a, b]), next), Overlap(0, true, 0)), c, true);
    hide Advanced;
    assert [a, b] + [c] == [a, b, c] && [] + [TableOf(n, 1, [a, b, c])] == [TableOf(n, 1, [a, b, c])];
  }

  lemma Drops(o: Outputs, e: Entry)
    ensures Advanced(Progress(o, Overlap(0, true, 0)), e, false, Cut3()) == Progress(o, Overlap(0, true, 0))
  {
    PlainStep(Progress(o, Overlap(0, true, 0)), e, false);
    hide Advanced;
  }

  /** All four kept: three entries, then one. */
  lemma AllKept(a: Entry, b: Entry, c: Entry, d: Entry, first: nat)
    ensures Finished(Four([true, true, true, true], [a, b, c, d], first).o, Sizing()).files
         == [TableOf(first, 1, [a, b, c]), TableOf(first + 1, 1, [d])]
  {
    hide Advanced;
    Opens([], first, false, a);
    Grows([], first, first + 1, a, b);
    Fills(first, first + 1, a, b, c);
    var one, two := TableOf(first, 1, [a, b, c]), TableOf(first + 1, 1, [d]);
    Opens([one], first + 1, true, d);
    assert [one] + [two] == [one, two];
  }

  /** The first two kept: one table. */
  lemma TwoKept(a: Entry, b: Entry, c: Entry, d: Entry, first: nat)
    ensures Finished(Four([true, true, false, false], [a, b, c, d], first).o, Sizing()).files
            == [TableOf(first, 1, [a, b])]
  {
    hide Advanced;
    Opens([], first, false, a);
    Grows([], first, first + 1, a, b);
    var o := Outputs([], Open(first, a.key, b.key, [a, b]), first + 1);
    Drops(o, c);
    Drops(o, d);
    assert [] + [TableOf(first, 1, [a, b])] == [TableOf(first, 1, [a, b])];
  }

  // ------------------------------------------------------------ the selection

  lemma OneFileStart(f: File, pointer: Option<InternalKey>)
    ensures PickedStart(1, [f], pointer, [f])
  {
    assert IsPicked([f], pointer, 0) && StartsFrom(1, [f], 0, [f]);
  }

  lemma NothingContinues(f: File)
    requires f.smallest == f.largest
    ensures BoundaryAdded([f], [f], [f])
  {
    assert f in [f];
  }

  lemma OneFileGrown(f: File, in1: seq<File>)
    requires f.smallest == f.largest
    ensures IsGrown(1, [f], [f], in1, [f])
  {
    var lo, hi := RangeLo([f] + in1), RangeHi([f] + in1);
    assert f in [f] + in1 && lo <= f.smallest.user && f.largest.user <= hi;
    var all := Overlapping([f], Some(lo), Some(hi));
    assert [f][..0] == [] && Overlapping([], Some(lo), Some(hi)) == [] && Overlaps(f, Some(lo), Some(hi));
    assert all == [f];
    assert RangeFor(1, [f], Some(lo), Some(hi), Some(lo), Some(hi));
    NothingContinues(f);
  }

  lemma OneFileSelected(f: File, two: seq<File>, in1: File, rest: seq<File>)
    requires two == [in1] + rest && |rest| <= 1 && f.smallest == f.largest
    requires Spans(in1, f.smallest.user) && forall g :: g in rest ==> !Spans(g, f.smallest.user)
    ensures Selected(1, [f], two, [f], 3, [f], [in1])
  {
    NothingContinues(f);
    OneFileGrown(f, [in1]);
    OneFileRange(f);
    OneOverlaps(two, in1, rest, f.smallest.user);
    hide BoundaryAdded, IsGrown, Overlapping, RangeLo, RangeHi;
    assert SelectedBy(1, [f], two, [f], 3, [f], [f], [f], [in1]);
  }

  // --------------------------------------------------------------- the merges

  lemma NoGrandparents(one: seq<File>, two: seq<File>, in0: seq<File>, in1: seq<File>)
    requires in0 != []
    ensures Grandparents(At12(one, two), 1, in0, in1) == []
  {
    assert At12(one, two).levels[3] == [];
  }

  lemma InvLevels(s: State)
    requires Inv(s)
    ensures LsmOk(s.v) && |s.v.levels| == NUM_LEVELS
  {
  }

  lemma LevelsOf(v: Version, f: File, two: seq<File>)
    requires v == At12([f], two)
    ensures |v.levels| == NUM_LEVELS && v.levels[1] == [f] && v.levels[2] == two && StartOk(1, v.levels[1], [f])
  {
    assert v.levels[1][0..1] == [f];
  }

  /** A merge of one file with the next level's, written as these tables, is the one the store picks. */
  lemma IsAutomatic(s: State, f: File, two: seq<File>, in1: File, rest: seq<File>, input: seq<Entry>,
                    outputs: seq<File>)
    requires Inv(s) && s.v == At12([f], two) && CompactionOk(s.v, 1, [f], [in1])
    requires two == [in1] + rest && |rest| <= 1 && f.smallest == f.largest
    requires Spans(in1, f.smallest.user) && forall g :: g in rest ==> !Spans(g, f.smallest.user)
    requires Sorted(input) && Elems(input) == InputEntries([f], [in1])
    requires outputs == TablesOf(input, Oldest(s), BaseOf(s.v, 1), Cut3(), s.nextFile)
    ensures AutomaticCompaction(Configured(), s, 1, [f], Step.Compact(1, [f], [in1], outputs))
  {
    hide Inv, LsmOk, CompactionOk, StartOk, Selected, PickedStart, InputRun, InputEntries, TablesOf, BaseOf, At12,
         Spans, Grandparents, Sorted;
    InvLevels(s);
    LevelsOf(s.v, f, two);
    OneFileStart(f, if 1 in s.pointers then Some(s.pointers[1]) else None);
    OneFileSelected(f, two, in1, rest);
    NoGrandparents([f], two, [f], [in1]);
    InputIs(s.v, [f], [in1], input);
    assert SelectedRun(Configured(), s, 1, [f], false, [f], [in1], Step.Compact(1, [f], [in1], outputs));
  }

  lemma FirstInput()
    ensures var es := [Other(), Two(), Marker(), Old()]; Sorted(es) && Elems(es) == InputEntries([B()], [A()])
  {
    CutRun.InputsHave(B(), A());
  }

  lemma FirstTables()
    ensures TablesOf([Other(), Two(), Marker(), Old()], 1, BaseOf(At12([B()], [A()]), 1), Cut3(), 8)
            == [Upto5(), Rest()]
  {
    hide TablesOf, BaseOf, At12, Kept, Other, Two, Marker, Old;
    var es, base := [Other(), Two(), Marker(), Old()], BaseOf(At12([B()], [A()]), 1);
    FirstInput();
    FirstKeeps();
    MergedEntries();
    forall i | 0 <= i < 4
      ensures Kept(Elems(es), 1, base, es[i])
    {
      assert es[i] in KeptSet(Elems(es), 1, base);
    }
    FourIs(es, [true, true, true, true], 1, base, 8);
    AllKept(Other(), Two(), Marker(), Old(), 8);
  }

  lemma SecondInput()
    ensures var es := [Other(), TwoAgain(), Two(), Marker()]; Sorted(es) && Elems(es) == InputEntries([C()], [Upto5()])
  {
    SecondInputs();
  }

  lemma SecondTables()
    ensures TablesOf([Other(), TwoAgain(), Two(), Marker()], 5, BaseOf(At12([C()], [Upto5(), Rest()]), 1), Cut3(), 12)
            == [Last()]
  {
    var es, base := [Other(), TwoAgain(), Two(), Marker()], BaseOf(At12([C()], [Upto5(), Rest()]), 1);
    NothingDeeper([C()], [Upto5(), Rest()], 5.0);
    SecondKept(base, 5);
    SecondInput();
    SecondInputs();
    hide TablesOf, BaseOf, At12, Kept;
    var k := [true, true, false, false];
    forall i | 0 <= i < 4
      ensures k[i] == Kept(Elems(es), 5, base, es[i])
    {
      assert es[i] in KeptSet(Elems(es), 5, base) <==> Kept(Elems(es), 5, base, es[i]);
    }
    FourIs(es, k, 5, base, 12);
    TwoKept(Other(), TwoAgain(), Two(), Marker(), 12);
  }

  lemma StateInv(n: nat)
    requires n <= 14
    ensures n < |States()| && Inv(States()[n])
  {
    hide RunReads.IsRun, States, Steps, Inv;
    StepsAre();
    RunIsRun();
    RunKeepsInv(States(), Steps(), n);
  }

  lemma MergeStates()
    ensures |States()| == 15 && States()[8] == S8() && States()[13] == S13() && |Steps()| == 14
    ensures Steps()[8] == Step.Compact(1, [B()], [A()], [Upto5(), Rest()])
            && Steps()[13] == Step.Compact(1, [C()], [Upto5()], [Last()])
  {
    hide S1, S2, S3, S4, S5, S6, S7, S8, S9, S10, S11, S12, S13, S14, Ops, A, B, C, Upto5, Rest, Last, Initial;
  }

  lemma FirstState()
    ensures Inv(S8()) && S8().v == At12([B()], [A()]) && Oldest(S8()) == 1 && S8().nextFile == 8
  {
    hide States, Steps, S8, Inv, A, B, At12;
    MergeStates();
    StateInv(8);
    MiddleStates();
  }

  lemma SecondState()
    ensures Inv(S13()) && S13().v == At12([C()], [Upto5(), Rest()]) && Oldest(S13()) == 5 && S13().nextFile == 12
  {
    hide States, Steps, S13, Inv, C, Upto5, Rest, At12;
    MergeStates();
    StateInv(13);
    LastStates();
  }

  lemma FirstAutomatic()
    ensures AutomaticCompaction(Configured(), S8(), 1, [B()], Step.Compact(1, [B()], [A()], [Upto5(), Rest()]))
  {
    hide S8, Inv, AutomaticCompaction, CompactionOk, A, B, Upto5, Rest, Other, Two, Marker, Old, At12, TablesOf,
         Sorted, InputEntries, Spans;
    FirstState();
    FirstChosen();
    FirstInput();
    FirstTables();
    OneKeyFiles();
    IsAutomatic(S8(), B(), [A()], A(), [], [Other(), Two(), Marker(), Old()], [Upto5(), Rest()]);
  }

  lemma SecondAutomatic()
    ensures AutomaticCompaction(Configured(), S13(), 1, [C()], Step.Compact(1, [C()], [Upto5()], [Last()]))
  {
    hide S13, Inv, AutomaticCompaction, CompactionOk, C, Upto5, Rest, Last, Other, Two, TwoAgain, Marker, At12,
         TablesOf, Sorted, InputEntries, Spans;
    SecondState();
    SecondChosen();
    SecondInput();
    SecondTables();
    OneKeyFiles();
    IsAutomatic(S13(), C(), [Upto5(), Rest()], Upto5(), [Rest()], [Other(), TwoAgain(), Two(), Marker()], [Last()]);
  }

  lemma OneKeyFiles()
    ensures B().smallest == B().largest && C().smallest == C().largest
    ensures Spans(A(), B().smallest.user) && Spans(Upto5(), C().smallest.user) && !Spans(Rest(), C().smallest.user)
  {
  }

  /**
   * Both merges of the run are what the store does by itself when it compacts level 1 with a
   * table size of three entries: same inputs, and tables cut at the same places.
   */
  lemma MergesAreAutomatic()
    ensures |States()| == |Steps()| + 1 == 15
    ensures AutomaticCompaction(Configured(), States()[8], 1, [B()], Steps()[8])
    ensures AutomaticCompaction(Configured(), States()[13], 1, [C()], Steps()[13])
  {
    hide States, Steps, S8, S13, AutomaticCompaction, A, B, C, Upto5, Rest, Last;
    MergeStates();
    FirstAutomatic();
    SecondAutomatic();
  }
}
