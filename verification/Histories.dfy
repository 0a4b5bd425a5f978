/** The history of writes that goes with a run, and what a crash may take from it. */
module Histories {
  import opened Keys
  import opened Lsm
  import opened WriteBatches
  import opened Db
  import opened Recovery
  import opened TornStates
  import opened Runs

  /** The write history after a step: a write adds its entries, a crash takes those of the lost records away. */
  ghost function After(s: State, a: Step, H: set<Entry>): set<Entry> {
    if a.Write? then H + Wrote(s, a)
    else if a.CrashAndRecover? && s.logfileNumber in s.logs && a.kept <= |s.logs[s.logfileNumber]|
    then H - BatchesSet(Lost(s, a.kept))
    else H
  }

  /** The entries a step adds to the write history. */
  ghost function Wrote(s: State, a: Step): set<Entry> {
    if a.Write? then BatchSet(Batch(s.lastSequence + 1, a.ops)) else {}
  }

  /** A crash, if the step is one, leaves every record of the live log. */
  ghost predicate LosesNothing(s: State, a: Step) {
    a.CrashAndRecover? ==> s.logfileNumber in s.logs && a.kept == |s.logs[s.logfileNumber]|
  }

  /** `H` is a set of writes no newer than the store. */
  ghost predicate HistoryOk(s: State, H: set<Entry>) {
    Distinct(H) && forall e :: e in H ==> e.key.sn <= s.lastSequence
  }

  /** The records of the immutable memtable's log. */
  function ImmBatches(s: State): seq<Batch> {
    if s.imm.Some? && s.logNumber in s.logs then s.logs[s.logNumber] else []
  }

  /** The last sequence number if all of the live log were lost. */
  function Settled(s: State): int {
    if s.manifest != [] && s.manifest[|s.manifest| - 1].counters.Some?
    then Max(LastCounters(s).lastSequence, MaxSequence(ImmBatches(s))) else 0
  }

  /** `H` holds the writes of the live log, above older ones that do not depend on that log. */
  ghost predicate Fits(s: State, H: set<Entry>) {
    && HistoryOk(s, H) && Elems(s.mem) <= H && Above(Elems(s.mem), H - Elems(s.mem))
    && forall e :: e in H - Elems(s.mem) ==> e.key.sn <= Settled(s)
  }

  // --------------------------------------------------------- what is settled

  lemma SettledIs(s: State)
    requires LogsOk(s) && CountersOk(s)
    ensures Settled(s) == Torn(s, 0).lastSequence
    ensures LastCounters(s).lastSequence <= Settled(s) <= s.lastSequence
  {
    TornBound(s, 0);
    assert TornBatches(s, 0) == ImmBatches(s);
  }

  /** Once the last sequence number is in the manifest, nothing but the live log's writes can be lost. */
  lemma SettledRecorded(s2: State)
    requires LogsOk(s2) && CountersOk(s2) && LastCounters(s2).lastSequence == s2.lastSequence
    ensures Settled(s2) == s2.lastSequence
  {
    SettledIs(s2);
  }

  lemma SettledSwitch(s: State, s2: State)
    requires Inv(s) && SwitchStep(s, s2)
    ensures Settled(s2) == s2.lastSequence
  {
    assert ImmBatches(s2) == LiveBatches(s);
  }

  lemma {:induction false} MaxSequencePrefix(bs: seq<Batch>, n: nat)
    requires n <= |bs|
    ensures MaxSequence(bs[..n]) <= MaxSequence(bs)
  {
    if n < |bs| {
      MaxSequencePrefix(bs[..|bs| - 1], n);
      assert bs[..|bs| - 1][..n] == bs[..n];
    } else {
      assert bs[..n] == bs;
    }
  }

  lemma TornPrefix(s: State, k: nat)
    requires LogsOk(s) && k <= |s.logs[s.logfileNumber]|
    ensures MaxSequence(ImmBatches(s)) <= MaxSequence(TornBatches(s, k))
  {
    MaxSequencePrefix(TornBatches(s, k), |ImmBatches(s)|);
    assert TornBatches(s, k)[..|ImmBatches(s)|] == ImmBatches(s);
  }

  /** The more of the live log is left, the larger the last sequence number found. */
  lemma TornRises(s: State, k: nat)
    requires LogsOk(s) && CountersOk(s) && k <= |s.logs[s.logfileNumber]|
    ensures Settled(s) <= Torn(s, k).lastSequence <= s.lastSequence
  {
    TornBound(s, k);
    TornPrefix(s, k);
    hide MaxSequence, TornBatches, ImmBatches;
  }

  // ------------------------------------------------- the history keeps fitting

  lemma OldFits(s: State, H: set<Entry>, s2: State)
    requires Fits(s, H) && s2.mem == s.mem
    requires s2.lastSequence == s.lastSequence && Settled(s) <= Settled(s2)
    ensures Fits(s2, H)
  {
  }

  lemma EmptyFits(s2: State, H: set<Entry>)
    requires HistoryOk(s2, H) && s2.mem == [] && Settled(s2) == s2.lastSequence
    ensures Fits(s2, H)
  {
    assert Elems(s2.mem) == {};
  }

  lemma GrowHistory(H: set<Entry>, W: set<Entry>, n: nat, m: nat)
    requires Distinct(H) && Distinct(W) && AllLater(W, H) && n <= m
    requires (forall e :: e in H ==> e.key.sn <= n) && forall e :: e in W ==> e.key.sn <= m
    ensures Distinct(H + W) && forall e :: e in H + W ==> e.key.sn <= m
  {
  }

  lemma WriteLater(s: State, H: set<Entry>, ops: seq<Op>)
    requires forall e :: e in H ==> e.key.sn <= s.lastSequence
    ensures var W := Wrote(s, Write(ops));
            Distinct(W) && AllLater(W, H) && forall e :: e in W ==> e.key.sn <= s.lastSequence + |ops|
  {
    hide BatchSet, Distinct;
    BatchRange(Batch(s.lastSequence + 1, ops));
  }

  lemma WriteLooks(s: State, ops: seq<Op>, s2: State)
    requires LogsOk(s) && CountersOk(s) && LogsOk(s2) && CountersOk(s2) && WriteStep(s, ops, s2)
    ensures Elems(s2.mem) == Elems(s.mem) + Wrote(s, Write(ops)) && s2.imm == s.imm && s2.v == s.v
    ensures s2.lastSequence == s.lastSequence + |ops| && s2.snapshots == s.snapshots && Settled(s2) == Settled(s)
  {
    assert ImmBatches(s2) == ImmBatches(s);
  }

  /** New writes on top of the live ones. */
  lemma FitsOnTop(H: set<Entry>, live: set<Entry>, W: set<Entry>)
    requires live <= H && Above(live, H - live) && AllLater(W, H)
    ensures H + W - (live + W) == H - live && Above(live + W, H - live) && live + W <= H + W
  {
  }

  lemma WriteFits(s: State, H: set<Entry>, ops: seq<Op>, s2: State)
    requires Inv(s) && Fits(s, H) && WriteStep(s, ops, s2) && Inv(s2)
    ensures Fits(s2, H + Wrote(s, Write(ops)))
    ensures H + Wrote(s, Write(ops)) - Elems(s2.mem) == H - Elems(s.mem)
  {
    var W := Wrote(s, Write(ops));
    WriteLooks(s, ops, s2);
    WriteLater(s, H, ops);
    GrowHistory(H, W, s.lastSequence, s2.lastSequence);
    FitsOnTop(H, Elems(s.mem), W);
    hide Inv, WriteStep, Settled, Wrote, Above, Distinct, AllLater;
  }

  /** What is left of the live log's entries, and what is lost of them. */
  lemma TornParts(s: State, k: nat)
    requires Inv(s) && k <= |s.logs[s.logfileNumber]|
    ensures var P, L := BatchesSet(s.logs[s.logfileNumber][..k]), BatchesSet(Lost(s, k));
            Elems(s.mem) == P + L && P !! L && Elems(Torn(s, k).mem) == P
  {
    TornMemory(s, k);
    TornStored(s, k);
    PrefixSet(s.logs[s.logfileNumber], k);
  }

  lemma LessHistory(H: set<Entry>, live: set<Entry>, P: set<Entry>, L: set<Entry>, low: nat, top: nat)
    requires Distinct(H) && live == P + L && low <= top
    requires (forall e :: e in H - live ==> e.key.sn <= low) && forall e :: e in P ==> e.key.sn <= top
    ensures Distinct(H - L) && forall e :: e in H - L ==> e.key.sn <= top
  {
  }

  lemma MemoryBound(s: State)
    requires LayersOk(s)
    ensures forall e :: e in Elems(s.mem) ==> e.key.sn <= s.lastSequence
  {
    assert Elems(s.mem) <= Stored(s);
  }

  /** What is left of the history is no newer than the last sequence number recovered. */
  lemma TornHistory(s: State, H: set<Entry>, k: nat)
    requires Inv(s) && Fits(s, H) && k <= |s.logs[s.logfileNumber]|
    ensures HistoryOk(Torn(s, k), H - BatchesSet(Lost(s, k)))
  {
    TornRises(s, k);
    TornParts(s, k);
    TornInv(s, k);
    MemoryBound(Torn(s, k));
    LessHistory(H, Elems(s.mem), Elems(Torn(s, k).mem), BatchesSet(Lost(s, k)), Settled(s), Torn(s, k).lastSequence);
  }

  lemma CrashLooks(s: State, a: Step, s2: State)
    requires a.CrashAndRecover? && Next(s, a, s2)
    ensures LogsOk(s) && CountersOk(s) && a.kept <= |s.logs[s.logfileNumber]|
    ensures s2.mem == [] && s2.imm.None? && s2.snapshots == []
    ensures s2.manifest != [] && s2.manifest[|s2.manifest| - 1].counters.Some?
            && LastCounters(s2).lastSequence == s2.lastSequence
  {
  }

  lemma CrashFits(s: State, H: set<Entry>, a: Step, s2: State)
    requires Inv(s) && Fits(s, H) && a.CrashAndRecover? && Next(s, a, s2) && Inv(s2)
    ensures Fits(s2, After(s, a, H)) && s2.mem == [] && s2.imm.None? && Settled(s2) == s2.lastSequence
  {
    CrashLooks(s, a, s2);
    CrashKeeps(s, a.kept, a.v0, a.ns, a.files, a.number, s2);
    TornHistory(s, H, a.kept);
    SettledRecorded(s2);
    hide Inv, Next, CrashStep, Torn, Settled, Stored, Fits, BatchesSet, Lost;
    EmptyFits(s2, After(s, a, H));
  }

  lemma SwitchFits(s: State, H: set<Entry>, s2: State)
    requires Inv(s) && Fits(s, H) && SwitchStep(s, s2) && Inv(s2)
    ensures Fits(s2, H) && s2.mem == [] && Settled(s2) == s2.lastSequence
  {
    SettledSwitch(s, s2);
    EmptyFits(s2, H);
  }

  /** Flushes, moves and merges record the last sequence number in the manifest. */
  lemma InstallFits(s: State, H: set<Entry>, a: Step, s2: State)
    requires Inv(s) && Fits(s, H) && (a.Flush? || a.Move? || a.Compact?) && Next(s, a, s2) && Inv(s2)
    ensures Fits(s2, H) && s2.mem == s.mem && s2.lastSequence == s.lastSequence && Settled(s2) == s2.lastSequence
  {
    SettledIs(s);
    InstallRecords(s, a, s2);
    SettledRecorded(s2);
    hide Inv, Next, Settled, Fits;
    OldFits(s, H, s2);
  }

  lemma InstallRecords(s: State, a: Step, s2: State)
    requires (a.Flush? || a.Move? || a.Compact?) && Next(s, a, s2)
    ensures s2.mem == s.mem && s2.lastSequence == s.lastSequence
    ensures s2.manifest != [] && s2.manifest[|s2.manifest| - 1].counters.Some?
            && LastCounters(s2).lastSequence == s2.lastSequence
  {
  }

  lemma OtherLooks(s: State, a: Step, s2: State)
    requires (a.GetSnapshot? || a.ReleaseSnapshot? || a.RemoveObsolete?) && Next(s, a, s2)
    ensures s2.mem == s.mem && s2.imm == s.imm && s2.v == s.v && s2.lastSequence == s.lastSequence
    ensures s2.manifest == s.manifest && ImmBatches(s2) == ImmBatches(s)
  {
  }

  lemma OtherFits(s: State, H: set<Entry>, a: Step, s2: State)
    requires Fits(s, H) && (a.GetSnapshot? || a.ReleaseSnapshot? || a.RemoveObsolete?) && Next(s, a, s2)
    ensures Fits(s2, H) && s2.mem == s.mem && s2.imm == s.imm && s2.v == s.v
    ensures s2.lastSequence == s.lastSequence && Settled(s2) == Settled(s)
  {
    OtherLooks(s, a, s2);
    hide Next, ImmBatches;
    OldFits(s, H, s2);
  }

  lemma NextFits(s: State, H: set<Entry>, a: Step, s2: State)
    requires Inv(s) && Fits(s, H) && Next(s, a, s2)
    ensures Inv(s2) && Fits(s2, After(s, a, H))
  {
    NextKeepsInv(s, a, s2);
    if a.Write? {
      WriteFits(s, H, a.ops, s2);
    } else if a.CrashAndRecover? {
      CrashFits(s, H, a, s2);
    } else if a.Switch? {
      SwitchFits(s, H, s2);
    } else if a.Flush? || a.Move? || a.Compact? {
      InstallFits(s, H, a, s2);
    } else {
      OtherFits(s, H, a, s2);
    }
  }

  lemma InitialFits()
    ensures Inv(Initial()) && Fits(Initial(), {})
  {
    InitialInv();
    assert Elems(Initial().mem) == {};
  }
}
