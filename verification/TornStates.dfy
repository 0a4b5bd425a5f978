/** What a crash that tears the live log leaves of the store, and the recovery after it. */
module TornStates {
  import opened Keys
  import opened Lsm
  import opened WriteBatches
  import opened Db
  import opened Recovery
  import opened Reopen

  // ------------------------------------------------- what a torn log leaves

  /** The entries of a run that are in `S`, in order. */
  ghost function Restrict(es: seq<Entry>, S: set<Entry>): (r: seq<Entry>)
    ensures Elems(r) == Elems(es) * S
  {
    if es == [] then []
    else
      var init, last := es[..|es| - 1], es[|es| - 1];
      var rest := Restrict(init, S);
      assert es == init + [last] && Elems(es) == Elems(init) + {last};
      assert Elems(rest + [last]) == Elems(rest) + {last};
      if last in S then rest + [last] else rest
  }

  lemma {:induction false} RestrictSorted(es: seq<Entry>, S: set<Entry>)
    requires Sorted(es)
    ensures Sorted(Restrict(es, S))
  {
    if es != [] {
      var init, last := es[..|es| - 1], es[|es| - 1];
      RestrictSorted(init, S);
      var r := Restrict(init, S);
      forall i | 0 <= i < |r|
        ensures Before(r[i].key, last.key)
      {
        assert r[i] in Elems(r);
        var j :| 0 <= j < |init| && init[j] == r[i];
        assert Before(es[j].key, es[|es| - 1].key);
      }
    }
  }

  /** The live log after losing all but its first `k` records. */
  function TornLogs(s: State, k: nat): map<nat, seq<Batch>>
    requires s.logfileNumber in s.logs && k <= |s.logs[s.logfileNumber]|
  {
    s.logs[s.logfileNumber := s.logs[s.logfileNumber][..k]]
  }

  /** The store whose disk this is: the writes of the lost records never happened. */
  ghost function Torn(s: State, k: nat): State
    requires LogsOk(s) && CountersOk(s) && k <= |s.logs[s.logfileNumber]|
  {
    var kept := s.logs[s.logfileNumber][..k];
    s.(mem := Restrict(s.mem, BatchesSet(kept)), logs := TornLogs(s, k), snapshots := [],
       lastSequence := Max(LastCounters(s).lastSequence, MaxSequence(TornBatches(s, k))))
  }

  function TornBatches(s: State, k: nat): seq<Batch>
    requires s.logfileNumber in s.logs && s.logNumber in s.logs && k <= |s.logs[s.logfileNumber]|
  {
    LiveBatches(s)[..|LiveBatches(s)| - |s.logs[s.logfileNumber]| + k]
  }

  /** The batches lost. */
  function Lost(s: State, k: nat): seq<Batch>
    requires s.logfileNumber in s.logs && k <= |s.logs[s.logfileNumber]|
  {
    s.logs[s.logfileNumber][k..]
  }

  lemma {:induction false} MaxSequenceCovers(bs: seq<Batch>)
    ensures 0 <= MaxSequence(bs) && forall b :: b in bs ==> LastOf(b) <= MaxSequence(bs)
  {
    if bs != [] {
      MaxSequenceCovers(bs[..|bs| - 1]);
      assert bs == bs[..|bs| - 1] + [bs[|bs| - 1]];
    }
  }

  lemma TornBound(s: State, k: nat)
    requires LogsOk(s) && CountersOk(s) && k <= |s.logs[s.logfileNumber]|
    ensures var bs, n := TornBatches(s, k), MaxSequence(TornBatches(s, k));
            && 0 <= n <= s.lastSequence && (forall b :: b in bs ==> b.sn + |b.ops| <= n + 1)
            && forall e :: e in BatchesSet(bs) ==> e.key.sn <= n
  {
    var bs := TornBatches(s, k);
    forall b | b in bs
      ensures LastOf(b) <= s.lastSequence
    {
      assert b in LiveBatches(s);
    }
    MaxSequenceBound(bs, s.lastSequence);
    MaxSequenceCovers(bs);
  }

  lemma PrefixAscends(bs: seq<Batch>, n: nat)
    requires Ascending(bs) && n <= |bs|
    ensures Ascending(bs[..n])
  {
  }

  lemma TornLive(s: State, k: nat)
    requires LogsOk(s) && CountersOk(s) && k <= |s.logs[s.logfileNumber]|
    ensures LiveBatches(Torn(s, k)) == TornBatches(s, k)
  {
    if s.imm.Some? {
      var old0, live := s.logs[s.logNumber], s.logs[s.logfileNumber];
      assert (old0 + live)[..|old0| + k] == old0 + live[..k];
    }
  }

  lemma PrefixSet(bs: seq<Batch>, k: nat)
    requires k <= |bs|
    ensures BatchesSet(bs) == BatchesSet(bs[..k]) + BatchesSet(bs[k..])
  {
    assert bs == bs[..k] + bs[k..];
    BatchesConcat(bs[..k], bs[k..]);
  }

  lemma TornMemory(s: State, k: nat)
    requires LogsOk(s) && CountersOk(s) && k <= |s.logs[s.logfileNumber]|
    ensures Elems(Torn(s, k).mem) == BatchesSet(s.logs[s.logfileNumber][..k]) <= Elems(s.mem)
  {
    PrefixSet(s.logs[s.logfileNumber], k);
  }

  lemma TornLogsOk(s: State, k: nat)
    requires LogsOk(s) && CountersOk(s) && k <= |s.logs[s.logfileNumber]|
    ensures LogsOk(Torn(s, k))
  {
    var t := Torn(s, k);
    TornLive(s, k);
    TornMemory(s, k);
    TornBound(s, k);
    PrefixAscends(LiveBatches(s), |TornBatches(s, k)|);
    hide Restrict, BatchesSet, Ascending;
    assert t.logs[t.logfileNumber] == s.logs[s.logfileNumber][..k];
  }

  lemma TornMemoryIs(s: State, k: nat)
    requires LogsOk(s) && CountersOk(s) && k <= |s.logs[s.logfileNumber]|
    ensures Memory(Torn(s, k)) == BatchesSet(TornBatches(s, k))
  {
    TornLogsOk(s, k);
    TornLive(s, k);
    LiveIsMemory(Torn(s, k));
  }

  lemma TornLayersOk(s: State, k: nat)
    requires LayersOk(s) && LogsOk(s) && CountersOk(s) && k <= |s.logs[s.logfileNumber]|
    ensures LayersOk(Torn(s, k)) && SnapshotsOk(Torn(s, k))
  {
    TornMemory(s, k);
    TornMemoryIs(s, k);
    TornBound(s, k);
    RestrictSorted(s.mem, BatchesSet(s.logs[s.logfileNumber][..k]));
    hide Restrict, BatchesSet, TornBatches, Ascending, LsmOk, LogsOk;
    FewerLayers(s, Torn(s, k));
  }

  lemma FewerLayers(s: State, t: State)
    requires LayersOk(s) && t.v == s.v && t.imm == s.imm && Elems(t.mem) <= Elems(s.mem) && Sorted(t.mem)
    requires t.lastSequence <= s.lastSequence && t.snapshots == []
    requires forall e :: e in Memory(t) + Entries(t.v) ==> e.key.sn <= t.lastSequence
    ensures LayersOk(t) && SnapshotsOk(t)
  {
  }

  lemma TornDiskOk(s: State, k: nat)
    requires LogsOk(s) && DiskOk(s) && k <= |s.logs[s.logfileNumber]|
    ensures LogsOk(Torn(s, k)) && DiskOk(Torn(s, k)) && SequenceOk(Torn(s, k))
  {
    TornLogsOk(s, k);
    TornLive(s, k);
    TornBound(s, k);
    SameDisk(s, Torn(s, k));
  }

  lemma SameDisk(s: State, t: State)
    requires DiskOk(s) && t.v == s.v && t.manifest == s.manifest && t.pointers == s.pointers && t.tables == s.tables
    requires t.nextFile == s.nextFile && t.logNumber == s.logNumber && LastCounters(s).lastSequence <= t.lastSequence
    ensures DiskOk(t) && LastCounters(t) == LastCounters(s)
  {
  }

  /** A store whose live log lost its last records satisfies every invariant, as if they had never been written. */
  lemma TornInv(s: State, k: nat)
    requires StructureOk(s) && SequenceOk(s) && k <= |s.logs[s.logfileNumber]|
    ensures StructureOk(Torn(s, k)) && SequenceOk(Torn(s, k))
  {
    TornLogsOk(s, k);
    TornLayersOk(s, k);
    TornDiskOk(s, k);
  }

  lemma LaterBatches(bs: seq<Batch>, k: nat)
    requires Ascending(bs) && k <= |bs|
    ensures AllLater(BatchesSet(bs[k..]), BatchesSet(bs[..k]))
  {
    forall a, x | a in BatchesSet(bs[k..]) && x in BatchesSet(bs[..k])
      ensures a.key.sn > x.key.sn
    {
      var i :| 0 <= i < |bs[k..]| && a in BatchEntries(bs[k..][i]);
      var j :| 0 <= j < k && x in BatchEntries(bs[..k][j]);
      BatchRange(bs[k + i]);
      BatchRange(bs[j]);
      assert a in BatchSet(bs[k + i]) && x in BatchSet(bs[j]);
    }
  }

  /** It holds everything but the lost writes, which are newer than all other writes in the log. */
  lemma TornStored(s: State, k: nat)
    requires LogsOk(s) && CountersOk(s) && k <= |s.logs[s.logfileNumber]|
    ensures Stored(s) == Stored(Torn(s, k)) + BatchesSet(Lost(s, k))
    ensures AllLater(BatchesSet(Lost(s, k)), BatchesSet(s.logs[s.logfileNumber][..k]))
  {
    var live := s.logs[s.logfileNumber];
    TornMemory(s, k);
    PrefixSet(live, k);
    AscendingSuffix(if s.imm.Some? then s.logs[s.logNumber] else [], live);
    LaterBatches(live, k);
    hide Restrict, BatchesSet, Ascending, Entries;
  }

  // ------------------------------------------------------ crash and recovery

  /** A crash that leaves `kept` records of the live log, and the recovery after it. */
  ghost predicate CrashStep(s: State, kept: nat, v0: Version, ns: seq<nat>, files: seq<File>, number: nat, s2: State) {
    && LogsOk(s) && CountersOk(s) && kept <= |s.logs[s.logfileNumber]|
    && RecoverStep(Torn(s, kept), v0, ns, files, number, s2)
  }

  /** It keeps every invariant, and every entry but the lost writes. */
  lemma CrashKeeps(s: State, kept: nat, v0: Version, ns: seq<nat>, files: seq<File>, number: nat, s2: State)
    requires StructureOk(s) && SequenceOk(s) && CrashStep(s, kept, v0, ns, files, number, s2)
    ensures StructureOk(s2) && SequenceOk(s2) && s2.pointers == s.pointers
    ensures Stored(s2) == Stored(Torn(s, kept)) && s2.lastSequence == Torn(s, kept).lastSequence <= s.lastSequence
    ensures Stored(s) == Stored(s2) + BatchesSet(Lost(s, kept))
  {
    TornInv(s, kept);
    TornBound(s, kept);
    TornStored(s, kept);
    hide StructureOk, SequenceOk, RecoverStep, Stored;
    RecoverKeeps(Torn(s, kept), v0, ns, files, number, s2);
  }

  lemma WholeTorn(s: State)
    requires LogsOk(s) && CountersOk(s) && SequenceOk(s)
    ensures var t := Torn(s, |s.logs[s.logfileNumber]|);
            Stored(t) == Stored(s) && t.lastSequence == s.lastSequence && Lost(s, |s.logs[s.logfileNumber]|) == []
  {
    var live := s.logs[s.logfileNumber];
    TornStored(s, |live|);
    assert BatchesSet([]) == {};
    assert TornBatches(s, |live|) == LiveBatches(s);
  }

  /** A crash that loses no record of the live log loses no entry. */
  lemma WholeCrashKeeps(s: State, v0: Version, ns: seq<nat>, files: seq<File>, number: nat, s2: State)
    requires StructureOk(s) && SequenceOk(s) && CrashStep(s, |s.logs[s.logfileNumber]|, v0, ns, files, number, s2)
    ensures Stored(s2) == Stored(s) && s2.lastSequence == s.lastSequence
  {
    WholeTorn(s);
    CrashKeeps(s, |s.logs[s.logfileNumber]|, v0, ns, files, number, s2);
  }
}
