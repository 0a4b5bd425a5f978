/** A concrete compaction that brings a deleted value back. */
module CutExample {
  import opened Wrappers
  import opened Keys
  import opened Lsm
  import opened InputSelection
  import opened Compactions
  import opened CompactionReads
  import opened CompactionWork
  import opened CompactionInstall
  import opened CompactionTheorem

  const OLDEST: nat := 20

  function Marker(): Entry { Entry(InternalKey(5.0, 9, Deletion), "") }

  function OldValue(): Entry { Entry(InternalKey(5.0, 3, Value), "old") }

  function Single(number: nat, e: Entry): File {
    File(number, 100, e.key, e.key, [e])
  }

  /** The file to compact, at level 1. */
  function Upper(): File {
    Single(10, Entry(InternalKey(2.0, 10, Value), "a"))
  }

  /** Overlaps `Upper` and ends with the deletion marker. */
  function WithMarker(): File {
    var first := Entry(InternalKey(1.0, 8, Value), "b");
    File(8, 100, first.key, Marker().key, [first, Marker()])
  }

  /** Holds the older value the marker deletes; starts past everything in `Upper`. */
  function WithOldValue(): File {
    Single(9, OldValue())
  }

  function Levels(): seq<seq<File>> {
    [[], [Upper()], [WithMarker(), WithOldValue()], [], [], [], []]
  }

  lemma EachLevelOk(l: nat)
    requires l < NUM_LEVELS
    ensures LevelOk(l, Levels()[l])
  {
    assert FileOk(Upper()) && FileOk(WithMarker()) && FileOk(WithOldValue());
  }

  lemma LevelsAreOk()
    ensures LsmOk(Version(Levels()))
  {
    var v := Version(Levels());
    forall l: nat | l < NUM_LEVELS
      ensures LevelOk(l, v.levels[l])
    {
      EachLevelOk(l);
    }
    forall l: nat, m: nat | l < m < NUM_LEVELS
      ensures LevelNewer(v.levels[l], v.levels[m])
    {
      EachPairOk(l, m);
    }
  }

  lemma EachPairOk(l: nat, m: nat)
    requires l < m < NUM_LEVELS
    ensures LevelNewer(Levels()[l], Levels()[m])
  {
  }

  lemma InputsAreChosen()
    ensures CompactionOk(Version(Levels()), 1, [Upper()], [WithMarker()])
  {
    var below := Levels()[2];
    var up := [Upper()];
    assert Upper() in up;
    assert RangeLo(up) == 2.0 && RangeHi(up) == 2.0;
    assert below[..1] == [WithMarker()] && below[..1][..0] == [];
    assert Overlapping(below, Some(2.0), Some(2.0)) == [WithMarker()];
  }

  lemma NothingDeeper()
    ensures BaseLevel(Version(Levels()), 1, 5.0)
  {
  }

  lemma InputsHave()
    ensures forall e :: e in InputEntries([Upper()], [WithMarker()]) <==>
              e in Upper().entries || e in WithMarker().entries
  {
    assert Upper() in [Upper()] && WithMarker() in [WithMarker()];
  }

  lemma RestHas(e: Entry)
    requires e in RestEntries(Version(Levels()), [Upper()], [WithMarker()])
    ensures e == OldValue()
  {
    InputsHave();
    EntryAt(Version(Levels()), e);
  }

  lemma KeyIsCut()
    ensures CutsKey(Version(Levels()), 1, [Upper()], [WithMarker()], {}, OLDEST, OLDEST, WithMarker(), WithOldValue(),
                    Marker(), OldValue())
  {
    NothingDeeper();
    InputsHave();
    assert WithOldValue() in Levels()[2];
    hide InputEntries, RestEntries, Entries, FilesEntries, BaseLevel;
    forall x | x in {} + RestEntries(Version(Levels()), [Upper()], [WithMarker()])
      ensures x.key.sn <= OldValue().key.sn
    {
      RestHas(x);
    }
  }

  /** Any cut key reads as not found before the compaction and as its old value after. */
  lemma CutReturns(v: Version, level: nat, in0: seq<File>, in1: seq<File>, oldest: nat, point: nat,
                   outputs: seq<File>, v2: Version, h: File, g: File, t: Entry, r: Entry)
    requires LsmOk(v) && CompactionOk(v, level, in0, in1) && CutsKey(v, level, in0, in1, {}, oldest, point, h, g, t, r)
    requires KeepsExactly(v, level, in0, in1, oldest, outputs) && Installs(v, level, in0, in1, outputs, v2)
             && oldest <= point
    ensures Read(Entries(v), t.key.user, point) == None
    ensures Read(Entries(v2), t.key.user, point) == Some(r.value)
  {
    hide CompactionOk, LsmOk, Installs, Uncovers;
    CutUncovers(v, level, in0, in1, {}, oldest, point, h, g, t, r);
    var S, R, base := InputEntries(in0, in1), RestEntries(v, in0, in1), BaseOf(v, level);
    assert {} + R == R;
    InputsInVersion(v, level, in0, in1);
    EntriesFromDistinct(v, 0);
    assert S + R == Entries(v);
    InstalledEntries(v, level, in0, in1, outputs, v2);
    UncoveredReadChanges(S, R, oldest, point, base, t.key.user, t, r);
  }

  /** The one output table: the marker is dropped, the other two inputs are kept. */
  function Out(): File {
    File(11, 200, WithMarker().smallest, Upper().largest, [WithMarker().entries[0], Upper().entries[0]])
  }

  function After(): Version {
    Version([[], [], [Out(), WithOldValue()], [], [], [], []])
  }

  lemma OutputsAreKept()
    ensures KeepsExactly(Version(Levels()), 1, [Upper()], [WithMarker()], OLDEST, [Out()])
  {
    var S, base := InputEntries([Upper()], [WithMarker()]), BaseOf(Version(Levels()), 1);
    InputsHave();
    NothingDeeper();
    assert Marker() in S && Obsolete(OLDEST, base, Marker());
    var outputs := [Out()];
    assert FileOk(Out()) && forall e :: e in FilesEntries(outputs) <==> e in Out().entries;
    forall e | e in S
      ensures e in KeptSet(S, OLDEST, base) <==> e in Out().entries
    {
    }
  }

  lemma MergeInstalls()
    ensures Installs(Version(Levels()), 1, [Upper()], [WithMarker()], [Out()], After())
  {
    var fs, fs2 := Levels()[2], After().levels[2];
    assert WithMarker() in fs && WithOldValue() in fs && Out() in fs2 && WithOldValue() in fs2;
    assert Upper() in Levels()[1];
  }

  /**
   * A legal store, the inputs the code chooses and the tables it writes: key 5 reads as not found
   * before the compaction, and its old value is back after.
   */
  lemma DeletedValueReturns()
    ensures LsmOk(Version(Levels())) && CompactionOk(Version(Levels()), 1, [Upper()], [WithMarker()])
    ensures KeepsExactly(Version(Levels()), 1, [Upper()], [WithMarker()], OLDEST, [Out()])
    ensures Installs(Version(Levels()), 1, [Upper()], [WithMarker()], [Out()], After())
    ensures Read(Entries(Version(Levels())), 5.0, OLDEST) == None
    ensures Read(Entries(After()), 5.0, OLDEST) == Some("old")
  {
    LevelsAreOk();
    InputsAreChosen();
    KeyIsCut();
    OutputsAreKept();
    MergeInstalls();
    CutReturns(Version(Levels()), 1, [Upper()], [WithMarker()], OLDEST, OLDEST, [Out()], After(),
               WithMarker(), WithOldValue(), Marker(), OldValue());
  }
}
