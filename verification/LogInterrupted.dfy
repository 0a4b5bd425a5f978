/** A record that its writer never finished, with whole records behind it: it is dropped and reported. */
module LogInterrupted {
  import opened PbVarints
  import opened LogLayout
  import opened LogFormat
  import opened LogReader
  import opened LogRoundTrip

  // ------------------------------------------- earlier reports do not matter

  lemma ParseAfterReport(sums: Sums, s: Input)
    requires |s.buffer| >= HEADER_SIZE
    ensures Parse(sums, Count(s)) == (Count(Parse(sums, s).0), Parse(sums, s).1)
  {
    hide LengthIn;
  }

  lemma {:induction false} PhysicalAfterReport(sums: Sums, file: seq<byte>, s: Input)
    requires s.filePos <= |file|
    ensures var p := ReadPhysical(sums, file, s); ReadPhysical(sums, file, Count(s)) == (Count(p.0), p.1)
    decreases |file| - s.filePos, !s.eof
  {
    hide Parse;
    if |s.buffer| >= HEADER_SIZE {
      ParseAfterReport(sums, s);
    } else if !s.eof {
      PhysicalAfterReport(sums, file, Refill(file, s));
    }
  }

  lemma AfterFragmentShifts(s: Input, f: Fragment, inFragment: bool, scratch: seq<byte>)
    ensures var a := AfterFragment(s, f, inFragment, scratch);
            AfterFragment(Count(s), f, inFragment, scratch) == a.(input := Count(a.input))
  {
  }

  lemma {:induction false} LogicalAfterReport(sums: Sums, file: seq<byte>, s: Input, inFragment: bool,
                                              scratch: seq<byte>)
    requires s.filePos <= |file|
    ensures var r := ReadLogical(sums, file, s, inFragment, scratch);
            ReadLogical(sums, file, Count(s), inFragment, scratch) == (Count(r.0), r.1)
    decreases Unread(file, s)
  {
    hide ReadPhysical, AfterFragment;
    PhysicalAfterReport(sums, file, s);
    var p := ReadPhysical(sums, file, s);
    AfterFragmentShifts(p.0, p.1, inFragment, scratch);
    var a := AfterFragment(p.0, p.1, inFragment, scratch);
    if a.More? {
      LogicalAfterReport(sums, file, a.input, a.inFragment, a.scratch);
    }
  }

  lemma {:induction false} AllAfterReport(sums: Sums, file: seq<byte>, s: Input)
    requires s.filePos <= |file|
    ensures ReadAll(sums, file, Count(s)) == (ReadAll(sums, file, s).0, ReadAll(sums, file, s).1 + 1)
    decreases Unread(file, s)
  {
    hide ReadLogical;
    LogicalAfterReport(sums, file, s, false, []);
    var r := ReadLogical(sums, file, s, false, []);
    if r.1.Record? {
      AllAfterReport(sums, file, r.0);
    }
  }

  // ----------------------------------------------------------------- the log

  /** Whole records, a beginning of one, and whole records again, all in the file. */
  datatype Log = Log(sums: Sums, before: seq<seq<Frag>>, first: seq<seq<byte>>, part: seq<Frag>,
                     behind: seq<seq<Frag>>, second: seq<seq<byte>>)

  ghost function Frags(l: Log): seq<Frag> {
    AllFrags(l.before) + l.part + AllFrags(l.behind)
  }

  /** First and middle fragments, but no last one. */
  ghost predicate Unfinished(part: seq<Frag>) {
    part != [] && forall i :: 0 <= i < |part| ==> part[i].ty == if i == 0 then FIRST_TYPE else MIDDLE_TYPE
  }

  ghost predicate LogOk(l: Log) {
    && SumsOk(l.sums) && Groups(l.before, l.first) && Groups(l.behind, l.second) && l.behind != []
    && Unfinished(l.part) && FragsOk(Frags(l)) && AllFit(Physicals(l.sums, Frags(l)))
  }

  ghost function LogFile(l: Log): seq<byte>
    requires LogOk(l)
  {
    File(Physicals(l.sums, Frags(l)))
  }

  ghost predicate Standing(l: Log, k: nat, s: Input)
    requires LogOk(l)
  {
    ReaderAt(l.sums, Frags(l), LogFile(l), k, s)
  }

  lemma FragmentRead(l: Log, k: nat, s: Input)
    requires LogOk(l) && Standing(l, k, s) && k < |Frags(l)|
    ensures s.filePos <= |LogFile(l)|
    ensures var p := ReadPhysical(l.sums, LogFile(l), s); var f := Frags(l)[k];
            p.1 == Fragment(f.ty, f.data) && Standing(l, k + 1, p.0) && p.0.drops == s.drops
  {
    PhysicalReads(l.sums, Frags(l), LogFile(l), k, s);
    RecordAt(Physicals(l.sums, Frags(l)), k);
  }

  lemma EndRead(l: Log, s: Input)
    requires LogOk(l) && Standing(l, |Frags(l)|, s)
    ensures s.filePos <= |LogFile(l)| && ReadAll(l.sums, LogFile(l), s) == ([], s.drops)
  {
    PhysicalReads(l.sums, Frags(l), LogFile(l), |Frags(l)|, s);
  }

  lemma InFile(l: Log, k: nat, s: Input)
    requires LogOk(l) && Standing(l, k, s)
    ensures s.filePos <= |LogFile(l)|
  {
  }

  ghost function Logical(l: Log, s: Input, inFragment: bool, scratch: seq<byte>): (Input, LogicalResult)
    requires LogOk(l) && s.filePos <= |LogFile(l)|
  {
    ReadLogical(l.sums, LogFile(l), s, inFragment, scratch)
  }

  /** From fragment `j` of a record that is all there. */
  lemma {:induction false} WholeRecord(l: Log, at: nat, g: seq<Frag>, data: seq<byte>, j: nat, s: Input)
      returns (s2: Input)
    requires LogOk(l) && IsRecord(g, data) && Follows(Frags(l), at, g) && j < |g| && Standing(l, at + j, s)
    ensures s.filePos <= |LogFile(l)| && Standing(l, at + |g|, s2) && s2.drops == s.drops
    ensures Logical(l, s, j > 0, Joined(g[..j])) == (s2, Record(data))
    decreases |g| - j
  {
    hide LogOk, LogFile, Standing, Frags, Joined, ReadLogical, ReadPhysical;
    assert Frags(l)[at..at + |g|][j] == g[j];
    FragmentRead(l, at + j, s);
    LogicalStep(l.sums, LogFile(l), s, g, data, j);
    s2 := ReadPhysical(l.sums, LogFile(l), s).0;
    if j + 1 < |g| {
      assert at + (j + 1) == at + j + 1;
      s2 := WholeRecord(l, at, g, data, j + 1, s2);
    } else {
      assert g[..j + 1] == g;
    }
  }

  /** The fragments of some records are together in the file from `at` on. */
  ghost predicate RunAt(l: Log, at: nat, groups: seq<seq<Frag>>) {
    at + |AllFrags(groups)| <= |Frags(l)| && Frags(l)[at..at + |AllFrags(groups)|] == AllFrags(groups)
  }

  lemma SliceOfSlice<T>(s: seq<T>, at: nat, size: nat, k: nat, n: nat)
    requires at + size <= |s| && k + n <= size
    ensures s[at + k..at + k + n] == s[at..at + size][k..k + n]
  {
    var a, b := s[at + k..at + k + n], s[at..at + size][k..k + n];
    forall i | 0 <= i < n
      ensures a[i] == b[i]
    {
      assert b[i] == s[at..at + size][k + i] == s[at + (k + i)];
    }
  }

  lemma GroupAt(l: Log, at: nat, groups: seq<seq<Frag>>, records: seq<seq<byte>>, r: nat)
    requires Groups(groups, records) && RunAt(l, at, groups) && r < |groups|
    ensures |records| == |groups| && groups[r] != [] && IsRecord(groups[r], records[r])
    ensures Follows(Frags(l), at + |FragsTo(groups, r)|, groups[r]) && Joined(groups[r][..0]) == []
    ensures |FragsTo(groups, r + 1)| == |FragsTo(groups, r)| + |groups[r]|
  {
    hide Joined, Frags, FragsTo, FragOk, TypeOf;
    GroupFollows(groups, r);
    assert IsRecord(groups[r], records[r]);
    JoinedFirst(groups[r]);
    SliceOfSlice(Frags(l), at, |AllFrags(groups)|, |FragsTo(groups, r)|, |groups[r]|);
  }

  /** A run of records is returned, in order. */
  lemma {:induction false} RunRead(l: Log, at: nat, groups: seq<seq<Frag>>, records: seq<seq<byte>>, r: nat, s: Input)
      returns (s2: Input)
    requires LogOk(l) && Groups(groups, records) && RunAt(l, at, groups) && r <= |groups|
    requires Standing(l, at + |FragsTo(groups, r)|, s)
    ensures s.filePos <= |LogFile(l)| && s2.filePos <= |LogFile(l)|
    ensures Standing(l, at + |AllFrags(groups)|, s2) && s2.drops == s.drops && |records| == |groups|
    ensures ReadAll(l.sums, LogFile(l), s).0 == records[r..] + ReadAll(l.sums, LogFile(l), s2).0
    ensures ReadAll(l.sums, LogFile(l), s).1 == ReadAll(l.sums, LogFile(l), s2).1
    decreases |groups| - r
  {
    hide LogOk, LogFile, Standing, RunAt, Groups, Joined, IsRecord, Follows, ReadLogical, FragsTo;
    InFile(l, at + |FragsTo(groups, r)|, s);
    SameLength(groups, records);
    s2 := s;
    if r == |groups| {
      assert records[r..] + ReadAll(l.sums, LogFile(l), s2).0 == ReadAll(l.sums, LogFile(l), s2).0;
    } else {
      GroupAt(l, at, groups, records, r);
      var s1 := WholeRecord(l, at + |FragsTo(groups, r)|, groups[r], records[r], 0, s);
      s2 := RunRead(l, at, groups, records, r + 1, s1);
      assert [records[r]] + (records[r + 1..] + ReadAll(l.sums, LogFile(l), s2).0)
          == records[r..] + ReadAll(l.sums, LogFile(l), s2).0;
    }
  }

  lemma SameLength(groups: seq<seq<Frag>>, records: seq<seq<byte>>)
    requires Groups(groups, records)
    ensures |groups| == |records|
  {
  }

  // ------------------------------------------------------ the unfinished record

  /** The unfinished record is put together as far as it goes. */
  lemma {:induction false} PartRead(l: Log, j: nat, s: Input) returns (s2: Input)
    requires LogOk(l) && j <= |l.part| && Standing(l, |AllFrags(l.before)| + j, s)
    ensures s.filePos <= |LogFile(l)| && s2.filePos <= |LogFile(l)|
    ensures Standing(l, |AllFrags(l.before)| + |l.part|, s2) && s2.drops == s.drops
    ensures Logical(l, s, j > 0, Joined(l.part[..j])) == Logical(l, s2, true, Joined(l.part))
    decreases |l.part| - j
  {
    hide LogFile, Standing, Groups, ReadPhysical, AllFit;
    var k := |AllFrags(l.before)| + j;
    InFile(l, k, s);
    s2 := s;
    if j == |l.part| {
      assert l.part[..j] == l.part;
    } else {
      FragmentRead(l, k, s);
      assert Frags(l)[k] == l.part[j];
      JoinedSnoc(l.part, j);
      JoinedNone(l.part);
      assert [] + l.part[j].data == l.part[j].data;
      s2 := PartRead(l, j + 1, ReadPhysical(l.sums, LogFile(l), s).0);
    }
  }

  /** A first or only fragment where more of another record is due: a report, unless nothing is lost. */
  lemma NewRecordBegins(l: Log, k: nat, s: Input, scratch: seq<byte>)
    requires LogOk(l) && k < |Frags(l)| && Standing(l, k, s)
    requires Frags(l)[k].ty == FULL_TYPE || Frags(l)[k].ty == FIRST_TYPE
    ensures s.filePos <= |LogFile(l)|
    ensures Logical(l, s, true, scratch) == Logical(l, if scratch == [] then s else Count(s), false, [])
  {
    hide LogFile, Standing, LogOk, ReadPhysical, Frags;
    FragmentRead(l, k, s);
    PhysicalAfterReport(l.sums, LogFile(l), s);
  }

  lemma PartsOfLog(l: Log)
    requires LogOk(l)
    ensures RunAt(l, 0, l.before) && RunAt(l, |AllFrags(l.before)| + |l.part|, l.behind)
    ensures var n := |AllFrags(l.before)| + |l.part|;
            n < |Frags(l)| && (Frags(l)[n].ty == FULL_TYPE || Frags(l)[n].ty == FIRST_TYPE)
    ensures |Frags(l)| == |AllFrags(l.before)| + |l.part| + |AllFrags(l.behind)|
    ensures FragsTo(l.before, 0) == [] && FragsTo(l.behind, 0) == []
  {
    var n := |AllFrags(l.before)| + |l.part|;
    assert IsRecord(l.behind[0], l.second[0]);
    GroupFollows(l.behind, 0);
    FragsPrefix(l.behind, 1, |l.behind|);
    assert AllFrags(l.behind)[0] == l.behind[0][0];
    assert Frags(l)[n] == AllFrags(l.behind)[0];
  }

  lemma AllSame(l: Log, s: Input, s2: Input)
    requires LogOk(l) && s.filePos <= |LogFile(l)| && s2.filePos <= |LogFile(l)|
    requires Logical(l, s, false, []) == Logical(l, s2, false, [])
    ensures ReadAll(l.sums, LogFile(l), s) == ReadAll(l.sums, LogFile(l), s2)
  {
    hide LogOk, LogFile, ReadLogical;
  }

  /** From the unfinished record on: a report if it had any data, and the records behind it. */
  lemma PartThenRest(l: Log, s: Input)
    requires LogOk(l) && Standing(l, |AllFrags(l.before)|, s)
    ensures s.filePos <= |LogFile(l)|
    ensures ReadAll(l.sums, LogFile(l), s) == (l.second, s.drops + if Joined(l.part) == [] then 0 else 1)
  {
    hide LogFile, Standing, Groups, AllFit, RunAt, Joined, ReadLogical, ReadAll, Frags, AllFrags, FragsTo;
    var n := |AllFrags(l.before)| + |l.part|;
    PartsOfLog(l);
    JoinedNone(l.part);
    var s1 := PartRead(l, 0, s);
    NewRecordBegins(l, n, s1, Joined(l.part));
    AllSame(l, s, if Joined(l.part) == [] then s1 else Count(s1));
    AllAfterReport(l.sums, LogFile(l), s1);
    var s2 := RunRead(l, n, l.behind, l.second, 0, s1);
    EndRead(l, s2);
    assert l.second[0..] + [] == l.second;
  }

  lemma JoinedNone(part: seq<Frag>)
    ensures Joined(part[..0]) == []
  {
    assert part[..0] == [];
  }

  lemma StandsAtStart(l: Log)
    requires LogOk(l)
    ensures Standing(l, 0, Input(0, [], false, 0))
  {
  }

  lemma LogParts(l: Log)
    requires LogOk(l)
    ensures Groups(l.before, l.first)
  {
  }

  /**
   * A record that lacks its end, with other records behind it: all whole records are returned in
   * order, and one report is made if any of its data is lost.
   */
  lemma UnfinishedIsReported(l: Log)
    requires LogOk(l)
    ensures ReadAll(l.sums, LogFile(l), Input(0, [], false, 0))
         == (l.first + l.second, if Joined(l.part) == [] then 0 else 1)
  {
    hide LogOk, LogFile, Standing, RunAt, Joined, ReadAll, AllFrags;
    var s := Input(0, [], false, 0);
    LogParts(l);
    PartsOfLog(l);
    StandsAtStart(l);
    var s2 := RunRead(l, 0, l.before, l.first, 0, s);
    PartThenRest(l, s2);
    assert l.first[0..] == l.first;
  }
}
