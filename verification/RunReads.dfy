/** What reads return over whole runs of the store, and the ways they can go wrong. */
module RunReads {
  import opened Keys
  import opened Lsm
  import opened CompactionReads
  import opened CompactionInstall
  import opened CompactionTheorem
  import opened WriteBatches
  import opened Db
  import opened TornStates
  import opened Runs
  import opened Histories
  import opened Traces

  /** No user key is cut by the step's compaction, if it is one. */
  ghost predicate CutsNothing(s: State, a: Step) {
    a.Compact? ==> !SomeKeyCut(s.v, a.level, a.in0, a.in1, Memory(s), Oldest(s), Oldest(s))
  }

  /** Nor would one be, for a reader at the last sequence number, if the live log and its memtable were lost. */
  ghost predicate CutsNothingTorn(s: State, a: Step) {
    a.Compact? ==> !SomeKeyCut(s.v, a.level, a.in0, a.in1, Elems(Imm(s)), Oldest(s), s.lastSequence)
  }

  /** The store answers every live read from the write history. */
  ghost predicate Agrees(s: State, H: set<Entry>) {
    HistoryOk(s, H) && ReadsAgree(s, H)
  }

  /** Whatever a crash leaves of the live log, the store answers from the history less the writes lost. */
  ghost predicate Survives(s: State, H: set<Entry>) {
    && LogsOk(s) && CountersOk(s)
    && forall k: nat :: k <= |s.logs[s.logfileNumber]| ==> ReadsAgree(Torn(s, k), H - BatchesSet(Lost(s, k)))
  }

  // ------------------------------------------------- without the live memtable

  /** What the store holds outside the live memtable. */
  ghost function Base(s: State): set<Entry> {
    Elems(Imm(s)) + Entries(s.v)
  }

  /** It answers reads past the settled sequence numbers from the history outside the live log. */
  ghost predicate BaseAgrees(s: State, H: set<Entry>) {
    SetsAgree(Base(s), H - Elems(s.mem), Settled(s))
  }

  ghost predicate SetsAgree(A: set<Entry>, B: set<Entry>, point: int) {
    forall user, q: nat :: point <= q ==> Read(A, user, q) == Read(B, user, q)
  }

  lemma StoredDistinct(s: State)
    requires LayersOk(s)
    ensures Distinct(Memory(s)) && Distinct(Stored(s))
  {
    SortedDistinct(s.mem);
    SortedDistinct(Imm(s));
    AboveDistinct(Elems(s.mem), Elems(Imm(s)));
    EntriesFromDistinct(s.v, 0);
    AboveDistinct(Memory(s), Entries(s.v));
  }

  /** Adding the same newer entries on both sides keeps two read results equal. */
  lemma SameOnTop(W: set<Entry>, A: set<Entry>, B: set<Entry>, user: UserKey, q: nat)
    requires Distinct(W) && Distinct(A) && Distinct(B) && Above(W, A) && Above(W, B)
    requires Read(A, user, q) == Read(B, user, q)
    ensures Read(W + A, user, q) == Read(W + B, user, q)
  {
    AboveDistinct(W, A);
    AboveDistinct(W, B);
    LookLayers(W, A, user, q);
    LookLayers(W, B, user, q);
  }

  lemma BaseFacts(s: State)
    requires LayersOk(s)
    ensures Distinct(Base(s)) && Distinct(Elems(s.mem)) && Above(Elems(s.mem), Base(s))
    ensures Stored(s) == Elems(s.mem) + Base(s)
  {
    SortedDistinct(s.mem);
    SortedDistinct(Imm(s));
    EntriesFromDistinct(s.v, 0);
    AboveDistinct(Elems(Imm(s)), Entries(s.v));
  }

  /** A torn store holds what is left of the live log, on top of everything else. */
  lemma TornHolds(s: State, k: nat)
    requires Inv(s) && k <= |s.logs[s.logfileNumber]|
    ensures Stored(Torn(s, k)) == BatchesSet(s.logs[s.logfileNumber][..k]) + Base(s)
    ensures Oldest(Torn(s, k)) == Torn(s, k).lastSequence
  {
    TornParts(s, k);
    assert Elems(Torn(s, k).mem) == BatchesSet(s.logs[s.logfileNumber][..k]);
  }

  lemma LayersOnTop(P: set<Entry>, A: set<Entry>, B: set<Entry>, low: int, point: int)
    requires Distinct(P) && Distinct(A) && Distinct(B) && Above(P, A) && Above(P, B)
    requires SetsAgree(A, B, low) && low <= point
    ensures SetsAgree(P + A, P + B, point)
  {
    forall user, q: nat | point <= q
      ensures Read(P + A, user, q) == Read(P + B, user, q)
    {
      SameOnTop(P, A, B, user, q);
    }
  }

  lemma HistoryParts(H: set<Entry>, live: set<Entry>, P: set<Entry>, L: set<Entry>)
    requires live <= H && live == P + L && P !! L
    ensures H - L == P + (H - live)
  {
  }

  lemma BaseSurvivesAt(s: State, H: set<Entry>, k: nat)
    requires Inv(s) && Fits(s, H) && BaseAgrees(s, H) && k <= |s.logs[s.logfileNumber]|
    ensures ReadsAgree(Torn(s, k), H - BatchesSet(Lost(s, k)))
  {
    var live, P, L := Elems(s.mem), BatchesSet(s.logs[s.logfileNumber][..k]), BatchesSet(Lost(s, k));
    BaseFacts(s);
    TornParts(s, k);
    TornHolds(s, k);
    TornRises(s, k);
    HistoryParts(H, live, P, L);
    hide Inv, Torn, Stored, Base, Settled, BatchesSet, Lost;
    LayersOnTop(P, Base(s), H - live, Settled(s), Torn(s, k).lastSequence);
  }

  lemma SurvivesBase(s: State, H: set<Entry>)
    requires Inv(s) && Survives(s, H)
    ensures BaseAgrees(s, H)
  {
    TornParts(s, 0);
    TornHolds(s, 0);
    SettledIs(s);
    assert s.logs[s.logfileNumber][..0] == [];
    assert BatchesSet([]) == {} && BatchesSet(Lost(s, 0)) == Elems(s.mem);
    assert ReadsAgree(Torn(s, 0), H - Elems(s.mem));
    hide Inv, Torn, Settled, BatchesSet, Lost;
    assert Stored(Torn(s, 0)) == Base(s);
  }

  /** It is enough to look at the loss of the whole live log. */
  lemma SurvivesIffBase(s: State, H: set<Entry>)
    requires Inv(s) && Fits(s, H)
    ensures Survives(s, H) <==> BaseAgrees(s, H)
  {
    if Survives(s, H) {
      SurvivesBase(s, H);
    }
    if BaseAgrees(s, H) {
      forall k: nat | k <= |s.logs[s.logfileNumber]|
        ensures ReadsAgree(Torn(s, k), H - BatchesSet(Lost(s, k)))
      {
        BaseSurvivesAt(s, H, k);
      }
    }
  }

  // ------------------------------------------------------------- live reads

  lemma WriteKeepsReads(s: State, H: set<Entry>, ops: seq<Op>, s2: State)
    requires Inv(s) && Fits(s, H) && ReadsAgree(s, H) && WriteStep(s, ops, s2)
    ensures ReadsAgree(s2, H + Wrote(s, Write(ops))) && Base(s2) == Base(s)
  {
    var W := Wrote(s, Write(ops));
    WriteLater(s, H, ops);
    WriteLater(s, Stored(s), ops);
    StoredDistinct(s);
    WriteStored(s, ops, s2);
    hide Inv, WriteStep, Stored, Wrote;
    LayersOnTop(W, Stored(s), H, Oldest(s), Oldest(s2));
    assert W + H == H + W;
  }

  lemma WriteStored(s: State, ops: seq<Op>, s2: State)
    requires WriteStep(s, ops, s2)
    ensures Stored(s2) == Wrote(s, Write(ops)) + Stored(s) && Base(s2) == Base(s)
    ensures Oldest(s) <= Oldest(s2)
  {
  }

  lemma CompactInstalled(s: State, level: nat, in0: seq<File>, in1: seq<File>, outputs: seq<File>, s2: State)
    requires LayersOk(s) && DiskOk(s) && CompactStep(s, level, in0, in1, outputs, s2)
    ensures Installs(s.v, level, in0, in1, outputs, s2.v)
    ensures Stored(s2) == Memory(s) + Entries(s2.v)
  {
    CompactInstalls(s, level, in0, in1, outputs, s2);
  }

  /** A compaction step keeps every read from the oldest snapshot on exactly when it cuts no key. */
  lemma CompactStepReadsIff(s: State, level: nat, in0: seq<File>, in1: seq<File>, outputs: seq<File>, s2: State)
    requires Inv(s) && CompactStep(s, level, in0, in1, outputs, s2)
    ensures ReadsKept(Stored(s), Stored(s2), Oldest(s))
            <==> !SomeKeyCut(s.v, level, in0, in1, Memory(s), Oldest(s), Oldest(s))
  {
    CompactInstalled(s, level, in0, in1, outputs, s2);
    StoredDistinct(s);
    CompactionKeepsReadsIff(s.v, level, in0, in1, Memory(s), Oldest(s), Oldest(s), outputs, s2.v);
  }

  lemma CompactKeepsOldest(s: State, level: nat, in0: seq<File>, in1: seq<File>, outputs: seq<File>, s2: State)
    requires CompactStep(s, level, in0, in1, outputs, s2)
    ensures s2.lastSequence == s.lastSequence && Oldest(s) == Oldest(s2)
  {
  }

  /**
   * What is left without the live memtable reads the same from the last sequence number on exactly
   * when no key is cut there.
   */
  lemma CompactBaseIff(s: State, level: nat, in0: seq<File>, in1: seq<File>, outputs: seq<File>, s2: State)
    requires Inv(s) && CompactStep(s, level, in0, in1, outputs, s2)
    ensures ReadsKept(Base(s), Base(s2), s.lastSequence)
       <==> !SomeKeyCut(s.v, level, in0, in1, Elems(Imm(s)), Oldest(s), s.lastSequence)
  {
    CompactInstalled(s, level, in0, in1, outputs, s2);
    CompactKeepsOldest(s, level, in0, in1, outputs, s2);
    SortedDistinct(Imm(s));
    OldestBound(s);
    CompactionKeepsReadsIff(s.v, level, in0, in1, Elems(Imm(s)), Oldest(s), s.lastSequence, outputs, s2.v);
  }

  lemma OldestBound(s: State)
    requires SnapshotsOk(s)
    ensures Oldest(s) <= s.lastSequence
  {
    assert s.snapshots != [] ==> s.snapshots[0] in s.snapshots;
  }

  /** Flushes, switches, moves, snapshots and file deletions keep every entry. */
  lemma SameStored(s: State, a: Step, s2: State)
    requires Inv(s) && Next(s, a, s2) && !a.Write? && !a.Compact? && !a.CrashAndRecover?
    ensures Stored(s2) == Stored(s) && Oldest(s) <= Oldest(s2)
  {
    if a.Switch? {
      SwitchKeepsInv(s, s2);
    } else if a.Flush? {
      FlushKeepsInv(s, a.flushLevel, a.size, s2);
    } else if a.Move? {
      MoveKeepsInv(s, a.moveLevel, a.file, s2);
    } else if a.RemoveObsolete? {
      RemoveObsoleteKeepsInv(s, a.pinned, s2);
    } else {
      SnapshotStepsKeepInv(s, a, s2);
    }
  }

  /** After a crash the store holds what was left of the torn one, and its readers start anew. */
  lemma CrashHolds(s: State, a: Step, s2: State)
    requires Inv(s) && a.CrashAndRecover? && Next(s, a, s2)
    ensures a.kept <= |s.logs[s.logfileNumber]| && Stored(s2) == Stored(Torn(s, a.kept)) == Base(s2)
    ensures Oldest(s2) == s2.lastSequence == Oldest(Torn(s, a.kept))
  {
    CrashLooks(s, a, s2);
    CrashKeeps(s, a.kept, a.v0, a.ns, a.files, a.number, s2);
    OnlyTables(s2);
    hide Inv, Next, Stored, Base, CrashStep;
  }

  lemma OnlyTables(s: State)
    requires s.mem == [] && s.imm.None?
    ensures Stored(s) == Base(s)
  {
    assert Elems(s.mem) == {};
  }

  /** A crash that loses nothing keeps every entry. */
  lemma WholeHolds(s: State, H: set<Entry>, a: Step, s2: State)
    requires Inv(s) && a.CrashAndRecover? && Next(s, a, s2) && LosesNothing(s, a)
    ensures Stored(s2) == Stored(s) && Oldest(s) <= Oldest(s2) && s2.lastSequence == s.lastSequence
            && After(s, a, H) == H
  {
    CrashLooks(s, a, s2);
    WholeCrashKeeps(s, a.v0, a.ns, a.files, a.number, s2);
    OldestBound(s);
    assert Lost(s, a.kept) == [] && BatchesSet([]) == {};
  }

  lemma SameReads(s: State, s2: State, H: set<Entry>)
    requires ReadsAgree(s, H) && Stored(s2) == Stored(s) && Oldest(s) <= Oldest(s2)
    ensures ReadsAgree(s2, H)
  {
  }

  lemma ReadsAgreeIffKept(A: set<Entry>, A2: set<Entry>, H: set<Entry>, low: int, point: nat)
    requires SetsAgree(A, H, low) && low <= point
    ensures SetsAgree(A2, H, point) <==> ReadsKept(A, A2, point)
  {
    forall user, q: nat | point <= q
      ensures Read(A2, user, q) == Read(H, user, q) <==> Read(A2, user, q) == Read(A, user, q)
    {
      assert Read(A, user, q) == Read(H, user, q);
    }
  }

  lemma IsCompactStep(s: State, a: Step, s2: State)
    requires a.Compact? && Next(s, a, s2)
    ensures CompactStep(s, a.level, a.in0, a.in1, a.outputs, s2)
  {
  }

  lemma AgreeAsSets(s: State, H: set<Entry>)
    ensures ReadsAgree(s, H) <==> SetsAgree(Stored(s), H, Oldest(s))
    ensures BaseAgrees(s, H) <==> SetsAgree(Base(s), H - Elems(s.mem), Settled(s))
  {
  }

  /** A merge step keeps agreement exactly when it cuts no key. */
  lemma CompactAgreesIff(s: State, H: set<Entry>, a: Step, s2: State)
    requires Inv(s) && ReadsAgree(s, H) && a.Compact? && Next(s, a, s2)
    ensures CutsNothing(s, a) <==> ReadsAgree(s2, H)
  {
    hide Inv, Next, CompactStep, Stored, SomeKeyCut, ReadsKept, ReadsAgree, SetsAgree;
    IsCompactStep(s, a, s2);
    CompactKeepsOldest(s, a.level, a.in0, a.in1, a.outputs, s2);
    CompactStepReadsIff(s, a.level, a.in0, a.in1, a.outputs, s2);
    AgreeAsSets(s, H);
    AgreeAsSets(s2, H);
    ReadsAgreeIffKept(Stored(s), Stored(s2), H, Oldest(s), Oldest(s));
  }

  /** A step that loses no record keeps all live reads equal to the write history exactly when it cuts no key. */
  lemma AgreesIffCutsNothing(s: State, H: set<Entry>, a: Step, s2: State)
    requires Inv(s) && Fits(s, H) && ReadsAgree(s, H) && Next(s, a, s2) && LosesNothing(s, a)
    ensures CutsNothing(s, a) <==> ReadsAgree(s2, After(s, a, H))
  {
    if a.Write? {
      WriteKeepsReads(s, H, a.ops, s2);
    } else if a.Compact? {
      CompactAgreesIff(s, H, a, s2);
    } else if a.CrashAndRecover? {
      WholeHolds(s, H, a, s2);
      hide Inv, Next, Stored, After, LosesNothing;
      SameReads(s, s2, H);
    } else {
      SameStored(s, a, s2);
      hide Inv, Next, Stored;
      SameReads(s, s2, H);
    }
  }

  // ------------------------------------------------------- reads after a crash

  lemma SameBase(s: State, H: set<Entry>, s2: State)
    requires BaseAgrees(s, H) && Base(s2) == Base(s) && s2.mem == s.mem && Settled(s) <= Settled(s2)
    ensures BaseAgrees(s2, H)
  {
  }

  /** A store with an empty memtable, all of whose sequence numbers are settled. */
  lemma OnlyBase(s2: State, H: set<Entry>)
    requires ReadsAgree(s2, H) && s2.mem == [] && Base(s2) == Stored(s2) && Oldest(s2) <= s2.lastSequence == Settled(s2)
    ensures BaseAgrees(s2, H)
  {
    assert H - Elems(s2.mem) == H;
  }

  lemma CompactBaseAgreesIff(s: State, H: set<Entry>, a: Step, s2: State)
    requires Inv(s) && Inv(s2) && Fits(s, H) && BaseAgrees(s, H) && a.Compact? && Next(s, a, s2)
    ensures CutsNothingTorn(s, a) <==> BaseAgrees(s2, H)
  {
    hide Inv, Fits, Next, CompactStep, Base, SomeKeyCut, Settled, ReadsKept, SetsAgree, BaseAgrees;
    IsCompactStep(s, a, s2);
    CompactBaseIff(s, a.level, a.in0, a.in1, a.outputs, s2);
    InstallFits(s, H, a, s2);
    SettledBound(s);
    AgreeAsSets(s, H);
    AgreeAsSets(s2, H);
    ReadsAgreeIffKept(Base(s), Base(s2), H - Elems(s.mem), Settled(s), s.lastSequence);
  }

  lemma SettledBound(s: State)
    requires Inv(s)
    ensures Settled(s) <= s.lastSequence
  {
    SettledIs(s);
  }

  lemma FlushedBase(s: State, s2: State)
    requires s.imm.Some? && s2.imm.None? && Entries(s2.v) == Entries(s.v) + Elems(s.imm.value)
    ensures Base(s2) == Base(s)
  {
    hide Entries;
    assert Elems(Imm(s2)) == {};
  }

  lemma FlushBase(s: State, a: Step, s2: State)
    requires Inv(s) && Next(s, a, s2) && (a.Flush? || a.Move?)
    ensures Base(s2) == Base(s)
  {
    hide Base, Entries, LsmOk;
    if a.Flush? {
      FlushVersion(s, a.flushLevel, a.size, s2);
      FlushedBase(s, s2);
    } else {
      MoveKeeps(s, a.moveLevel, a.file, s2);
      MovedBase(s, s2);
    }
  }

  lemma MovedBase(s: State, s2: State)
    requires s2.imm == s.imm && Entries(s2.v) == Entries(s.v)
    ensures Base(s2) == Base(s)
  {
  }

  lemma SwitchBase(s: State, s2: State)
    requires Inv(s) && SwitchStep(s, s2)
    ensures Base(s2) == Stored(s) == Stored(s2) && s2.snapshots == s.snapshots && s2.lastSequence == s.lastSequence
  {
    assert Elems<Entry>([]) == {};
  }

  lemma CrashAgrees(s: State, H: set<Entry>, a: Step, s2: State)
    requires Inv(s) && Inv(s2) && Fits(s, H) && BaseAgrees(s, H) && a.CrashAndRecover? && Next(s, a, s2)
    ensures ReadsAgree(s2, After(s, a, H)) && BaseAgrees(s2, After(s, a, H))
  {
    CrashHolds(s, a, s2);
    BaseSurvivesAt(s, H, a.kept);
    CrashFits(s, H, a, s2);
    hide Inv, Next, Stored, Base, Torn, Settled, BatchesSet, Lost;
    SameReads(Torn(s, a.kept), s2, After(s, a, H));
    OnlyBase(s2, After(s, a, H));
  }

  lemma WriteAgrees(s: State, H: set<Entry>, a: Step, s2: State)
    requires Inv(s) && Inv(s2) && Fits(s, H) && BaseAgrees(s, H) && a.Write? && Next(s, a, s2)
    ensures BaseAgrees(s2, After(s, a, H))
  {
    WriteStored(s, a.ops, s2);
    WriteLooks(s, a.ops, s2);
    WriteFits(s, H, a.ops, s2);
    hide Inv, WriteStep, Base, Settled, Wrote;
  }

  lemma SwitchAgrees(s: State, H: set<Entry>, a: Step, s2: State)
    requires Inv(s) && Inv(s2) && Fits(s, H) && ReadsAgree(s, H) && a.Switch? && Next(s, a, s2)
    ensures BaseAgrees(s2, H)
  {
    SwitchBase(s, s2);
    SwitchFits(s, H, s2);
    OldestBound(s);
    hide Inv, SwitchStep, Base, Settled, Stored;
    SameReads(s, s2, H);
    OnlyBase(s2, H);
  }

  lemma FlushAgrees(s: State, H: set<Entry>, a: Step, s2: State)
    requires Inv(s) && Inv(s2) && Fits(s, H) && BaseAgrees(s, H) && (a.Flush? || a.Move?) && Next(s, a, s2)
    ensures BaseAgrees(s2, H)
  {
    hide Inv, Next, Base, Settled;
    FlushBase(s, a, s2);
    InstallFits(s, H, a, s2);
    SettledBound(s);
    SameBase(s, H, s2);
  }

  lemma OtherAgrees(s: State, H: set<Entry>, a: Step, s2: State)
    requires Fits(s, H) && BaseAgrees(s, H) && (a.GetSnapshot? || a.ReleaseSnapshot? || a.RemoveObsolete?)
             && Next(s, a, s2)
    ensures BaseAgrees(s2, H)
  {
    OtherFits(s, H, a, s2);
    hide Next, Settled;
    SameBase(s, H, s2);
  }

  /** Without the live memtable, agreement is lost by merges only, and exactly when they cut a key there. */
  lemma BaseAgreesIff(s: State, H: set<Entry>, a: Step, s2: State)
    requires Inv(s) && Inv(s2) && Fits(s, H) && ReadsAgree(s, H) && BaseAgrees(s, H) && Next(s, a, s2)
    ensures CutsNothingTorn(s, a) <==> BaseAgrees(s2, After(s, a, H))
  {
    hide Inv, Fits, ReadsAgree, BaseAgrees, Next, SomeKeyCut;
    if a.Write? {
      WriteAgrees(s, H, a, s2);
    } else if a.Compact? {
      CompactBaseAgreesIff(s, H, a, s2);
    } else if a.CrashAndRecover? {
      CrashAgrees(s, H, a, s2);
    } else if a.Switch? {
      SwitchAgrees(s, H, a, s2);
    } else if a.Flush? || a.Move? {
      FlushAgrees(s, H, a, s2);
    } else {
      OtherAgrees(s, H, a, s2);
    }
  }

  /**
   * A step keeps agreement, now and after any crash, exactly when it cuts no key, neither
   * with the memory there is nor with what would be left without the live log.
   */
  lemma SurvivesIffCutsNothing(s: State, H: set<Entry>, a: Step, s2: State)
    requires Inv(s) && Fits(s, H) && Agrees(s, H) && Survives(s, H) && Next(s, a, s2)
    ensures CutsNothing(s, a) && CutsNothingTorn(s, a) <==> Agrees(s2, After(s, a, H)) && Survives(s2, After(s, a, H))
  {
    var H2 := After(s, a, H);
    NextFits(s, H, a, s2);
    SurvivesIffBase(s, H);
    SurvivesIffBase(s2, H2);
    BaseAgreesIff(s, H, a, s2);
    hide Inv, BaseAgrees, ReadsAgree, Survives, After;
    if a.CrashAndRecover? {
      CrashAgrees(s, H, a, s2);
    } else {
      AgreesIffCutsNothing(s, H, a, s2);
    }
  }

  // ------------------------------------------------------------- whole runs

  /** A run from a newly created store: `states[i + 1]` follows from `states[i]` by `steps[i]`. */
  ghost predicate IsRun(states: seq<State>, steps: seq<Step>) {
    Trace(states, steps, Next) && states[0] == Initial()
  }

  /** Everything written in the first `n` steps and not lost in a crash. */
  ghost function History(states: seq<State>, steps: seq<Step>, n: nat): set<Entry>
    requires |states| == |steps| + 1 && n <= |steps|
  {
    Folded(states, steps, After, n)
  }

  ghost predicate InvFits(s: State, H: set<Entry>) {
    Inv(s) && Fits(s, H)
  }

  lemma InvIsKept()
    ensures forall s, a, s2 :: Inv(s) && Next(s, a, s2) ==> Inv(s2)
    ensures forall s, a, s2, H :: InvFits(s, H) && Next(s, a, s2) ==> InvFits(s2, After(s, a, H))
  {
    forall s, a, s2 | Inv(s) && Next(s, a, s2)
      ensures Inv(s2)
    {
      NextKeepsInv(s, a, s2);
    }
    forall s, a, s2, H | InvFits(s, H) && Next(s, a, s2)
      ensures InvFits(s2, After(s, a, H))
    {
      NextFits(s, H, a, s2);
    }
  }

  /** Every state of every run satisfies the invariants; nothing is assumed about the compactions' inputs. */
  lemma RunKeepsInv(states: seq<State>, steps: seq<Step>, n: nat)
    requires IsRun(states, steps) && n <= |steps|
    ensures Inv(states[n])
  {
    InitialInv();
    InvIsKept();
    Induct(states, steps, Next, Inv, n);
  }

  lemma InitialReads()
    ensures Agrees(Initial(), {}) && Survives(Initial(), {})
  {
    InitialFits();
    EmptyIsOk();
    var s := Initial();
    assert Stored(s) == {} && Base(s) == {} && Elems(s.mem) == {};
    hide Inv;
    SurvivesIffBase(s, {});
  }

  lemma StepsAgreeIff()
    ensures forall s, a, s2, H :: InvFits(s, H) && Agrees(s, H) && Next(s, a, s2) && LosesNothing(s, a)
              ==> (CutsNothing(s, a) <==> Agrees(s2, After(s, a, H)))
  {
    forall s, a, s2, H | InvFits(s, H) && Agrees(s, H) && Next(s, a, s2) && LosesNothing(s, a)
      ensures CutsNothing(s, a) <==> Agrees(s2, After(s, a, H))
    {
      NextFits(s, H, a, s2);
      AgreesIffCutsNothing(s, H, a, s2);
    }
  }

  /**
   * In any run in which no crash loses a record of a log, through writes, flushes, moves,
   * compactions, snapshots and crashes: all states up to `n` answer every live read from
   * the write history exactly when no compaction up to `n` cuts a key.
   */
  lemma RunReadsIff(states: seq<State>, steps: seq<Step>, n: nat)
    requires IsRun(states, steps) && n <= |steps| && forall i :: 0 <= i < n ==> LosesNothing(states[i], steps[i])
    ensures (forall i :: 0 <= i < n ==> CutsNothing(states[i], steps[i]))
       <==> forall i :: 0 <= i <= n ==> Agrees(states[i], History(states, steps, i))
  {
    InitialFits();
    InitialReads();
    InvIsKept();
    StepsAgreeIff();
    assert InvFits(Initial(), {});
    hide Inv, Fits, InvFits, Agrees, CutsNothing, LosesNothing, Next, After, Initial;
    AgreeIffFine(states, steps, Next, InvFits, LosesNothing, After, Agrees, CutsNothing, n);
  }

  ghost predicate AgreesAlways(s: State, H: set<Entry>) {
    Agrees(s, H) && Survives(s, H)
  }

  ghost predicate CutsNothingEver(s: State, a: Step) {
    CutsNothing(s, a) && CutsNothingTorn(s, a)
  }

  ghost predicate Anything(s: State, a: Step) {
    true
  }

  lemma StepsSurviveIff()
    ensures forall s, a, s2, H :: InvFits(s, H) && AgreesAlways(s, H) && Next(s, a, s2) && Anything(s, a)
              ==> (CutsNothingEver(s, a) <==> AgreesAlways(s2, After(s, a, H)))
  {
    forall s, a, s2, H | InvFits(s, H) && AgreesAlways(s, H) && Next(s, a, s2) && Anything(s, a)
      ensures CutsNothingEver(s, a) <==> AgreesAlways(s2, After(s, a, H))
    {
      SurvivesIffCutsNothing(s, H, a, s2);
    }
  }

  /**
   * In any run, whatever its crashes lose: all states up to `n`, and whatever a crash could
   * leave of each, answer every live read from the history of the writes not lost exactly
   * when no compaction up to `n` cuts a key, neither with the memory there is nor with what
   * would be left without the live log.
   */
  lemma RunSurvivesIff(states: seq<State>, steps: seq<Step>, n: nat)
    requires IsRun(states, steps) && n <= |steps|
    ensures (forall i :: 0 <= i < n ==> CutsNothing(states[i], steps[i]) && CutsNothingTorn(states[i], steps[i]))
       <==> forall i :: 0 <= i <= n ==>
              Agrees(states[i], History(states, steps, i)) && Survives(states[i], History(states, steps, i))
  {
    InitialFits();
    InitialReads();
    InvIsKept();
    StepsSurviveIff();
    assert InvFits(Initial(), {});
    hide Inv, Fits, InvFits, Agrees, Survives, CutsNothing, CutsNothingTorn, Next, After, Initial;
    AgreeIffFine(states, steps, Next, InvFits, Anything, After, AgreesAlways, CutsNothingEver, n);
    assert AllFine(states, steps, CutsNothingEver, n)
      <==> forall i :: 0 <= i < n ==> CutsNothing(states[i], steps[i]) && CutsNothingTorn(states[i], steps[i]);
    assert AllAgree(states, steps, After, AgreesAlways, n)
      <==> forall i :: 0 <= i <= n ==>
            Agrees(states[i], History(states, steps, i))
            && Survives(states[i], History(states, steps, i));
  }

  /** No merge in the run cuts a key, and none that a crash would show if there is one that loses writes. */
  ghost predicate Sound(states: seq<State>, steps: seq<Step>, n: nat)
    requires |states| == |steps| + 1 && n <= |steps|
  {
    && (forall i :: 0 <= i < n ==> CutsNothing(states[i], steps[i]))
    && ((forall i :: 0 <= i < n ==> LosesNothing(states[i], steps[i]))
        || forall i :: 0 <= i < n ==> CutsNothingTorn(states[i], steps[i]))
  }

  lemma SoundAgrees(states: seq<State>, steps: seq<Step>, n: nat)
    requires IsRun(states, steps) && n <= |steps| && Sound(states, steps, n)
    ensures forall i :: 0 <= i <= n ==> Agrees(states[i], History(states, steps, i))
  {
    assert |states| == |steps| + 1;
    hide IsRun, Agrees, Survives, CutsNothing, CutsNothingTorn, LosesNothing, History;
    if forall i :: 0 <= i < n ==> LosesNothing(states[i], steps[i]) {
      RunReadsIff(states, steps, n);
    } else {
      RunSurvivesIff(states, steps, n);
    }
  }

  // ------------------------------------------------------- stable snapshots

  /** `H2` adds to `H` only what is newer than `mark`. */
  ghost predicate Grown(H: set<Entry>, H2: set<Entry>, mark: nat) {
    H <= H2 && forall e :: e in H2 && e !in H ==> e.key.sn > mark
  }

  lemma GrownSame(H: set<Entry>, mark: nat)
    ensures Grown(H, H, mark)
  {
  }

  lemma GrownTwice(H: set<Entry>, H2: set<Entry>, H3: set<Entry>, mark: nat, mark2: nat)
    requires Grown(H, H2, mark) && Grown(H2, H3, mark2) && mark <= mark2
    ensures Grown(H, H3, mark)
  {
  }

  lemma AddedLater(s: State, H: set<Entry>, a: Step, s2: State)
    requires InvFits(s, H) && Next(s, a, s2) && LosesNothing(s, a)
    ensures s.lastSequence <= s2.lastSequence && Grown(H, After(s, a, H), s.lastSequence)
  {
    if a.Write? {
      BatchRange(Batch(s.lastSequence + 1, a.ops));
    } else if a.CrashAndRecover? {
      WholeHolds(s, H, a, s2);
    } else {
      SequenceStays(s, a, s2);
    }
  }

  lemma SequenceStays(s: State, a: Step, s2: State)
    requires Next(s, a, s2) && !a.Write? && !a.CrashAndRecover?
    ensures s2.lastSequence == s.lastSequence
  {
  }

  lemma RunKeepsFits(states: seq<State>, steps: seq<Step>, n: nat)
    requires IsRun(states, steps) && n <= |steps|
    ensures InvFits(states[n], History(states, steps, n))
  {
    InitialFits();
    InvIsKept();
    assert InvFits(Initial(), {});
    hide Inv, Fits, InvFits, Next, After, Initial;
    InductFolded(states, steps, Next, InvFits, After, n);
  }

  lemma RunLength(states: seq<State>, steps: seq<Step>)
    requires IsRun(states, steps)
    ensures |states| == |steps| + 1
  {
  }

  lemma LastStep(states: seq<State>, steps: seq<Step>, n: nat)
    requires IsRun(states, steps) && 0 < n <= |steps|
    ensures Next(states[n - 1], steps[n - 1], states[n])
    ensures History(states, steps, n) == After(states[n - 1], steps[n - 1], History(states, steps, n - 1))
  {
    assert StepAt(states, steps, Next, n - 1);
    hide Next, After;
  }

  /** While no crash loses a record, the history only grows. */
  lemma {:induction false} HistoryGrows(states: seq<State>, steps: seq<Step>, m: nat, n: nat)
    requires IsRun(states, steps) && m <= n <= |steps| && forall i :: m <= i < n ==> LosesNothing(states[i], steps[i])
    ensures states[m].lastSequence <= states[n].lastSequence
    ensures Grown(History(states, steps, m), History(states, steps, n), states[m].lastSequence)
    decreases n
  {
    hide IsRun, InvFits, Next, After, LosesNothing, History, Grown;
    RunLength(states, steps);
    GrownSame(History(states, steps, m), states[m].lastSequence);
    if m < n {
      RunKeepsFits(states, steps, n - 1);
      LastStep(states, steps, n);
      HistoryGrows(states, steps, m, n - 1);
      var H := History(states, steps, n - 1);
      AddedLater(states[n - 1], H, steps[n - 1], states[n]);
      GrownTwice(History(states, steps, m), H, History(states, steps, n), states[m].lastSequence,
                 states[n - 1].lastSequence);
    }
  }

  /**
   * A snapshot still protected at the end of a run reads the same there as when it was taken,
   * if no crash in between loses a write.
   */
  lemma SnapshotStable(states: seq<State>, steps: seq<Step>, m: nat, n: nat, user: UserKey, q: nat)
    requires IsRun(states, steps) && m <= n <= |steps| && Sound(states, steps, n)
    requires forall i :: m <= i < n ==> LosesNothing(states[i], steps[i])
    requires Oldest(states[m]) <= q <= states[m].lastSequence && Oldest(states[n]) <= q
    ensures Read(Stored(states[n]), user, q) == Read(Stored(states[m]), user, q)
  {
    SoundAgrees(states, steps, n);
    assert Agrees(states[m], History(states, steps, m)) && Agrees(states[n], History(states, steps, n));
    HistoryGrows(states, steps, m, n);
    OlderReadSame(History(states, steps, m), History(states, steps, n), user, q);
  }

  lemma OlderReadSame(H: set<Entry>, H2: set<Entry>, user: UserKey, q: nat)
    requires Distinct(H2) && H <= H2 && forall e :: e in H2 && e !in H ==> e.key.sn > q
    ensures Read(H2, user, q) == Read(H, user, q)
  {
    var W := H2 - H;
    assert H2 == W + H;
    if x :| x in H && x.key.user == user && x.key.sn <= q {
      var e := NewestExists(H, user, q, x);
      assert Newest(H2, user, q, e);
      LookIs(H2, user, q, e);
      assert Distinct(H);
      LookIs(H, user, q, e);
    } else {
      LookAbsent(H, user, q);
      LookAbsent(H2, user, q);
    }
  }
}
