/** A crash that tears the live log, seen on the bytes of the disk. */
module TornLog {
  import opened Wrappers
  import opened Keys
  import opened WriteBatches
  import opened Db
  import opened TornStates
  import opened Runs
  import opened DiskBytes
  import opened PbVarints
  import E = EditCoding
  import F = LogFormat
  import L = LogRoundTrip
  import M = Manifest

  // ---------------------------------------------------------- from the bytes

  /** What lies on disk after a crash: every file whole, except the live log, of which `whole` was written. */
  ghost predicate OnDisk(c: Codec, name: seq<byte>, tables: nat -> seq<Entry>, s: State, reps: seq<seq<byte>>,
                         manifest: seq<byte>, logs: map<nat, seq<byte>>, whole: seq<byte>)
    requires LogsOk(s)
  {
    && |reps| == |s.manifest| && FileOf(reps, manifest)
    && (forall i :: 0 <= i < |reps| ==>
          EditStored(c, tables, s.manifest[i])
          && IsEditRep(c, name, s.manifest[i], reps[i]))
    && LogsOnDisk(c, s, logs, whole)
  }

  ghost predicate LogsOnDisk(c: Codec, s: State, logs: map<nat, seq<byte>>, whole: seq<byte>)
    requires s.logfileNumber in s.logs
  {
    && logs.Keys == s.logs.Keys && (forall n, b :: n in s.logs && b in s.logs[n] ==> BatchFits(c, b))
    && (forall n :: n in logs && n != s.logfileNumber ==> FileOf(BatchReps(c, s.logs[n]), logs[n]))
    && FileOf(BatchReps(c, s.logs[s.logfileNumber]), whole) && logs[s.logfileNumber] <= whole
  }

  // ---------------------------------------------------------- writing the disk

  /** All batches and manifest records fit their fields, and their keys and values can be coded. */
  ghost predicate DiskFits(c: Codec, name: seq<byte>, tables: nat -> seq<Entry>, s: State) {
    && (forall n, b :: n in s.logs && b in s.logs[n] ==> BatchFits(c, b))
    && forall i :: 0 <= i < |s.manifest| ==>
          EditStored(c, tables, s.manifest[i])
          && E.Encodable(Coded(c, name, s.manifest[i]))
  }

  /** Writes records through the log writer. */
  method WriteFile(records: seq<seq<byte>>) returns (file: seq<byte>)
    ensures FileOf(records, file)
  {
    ghost var groups;
    file, groups := L.WriteAll(F.CrcSums(), records);
  }

  method WriteLogs(c: Codec, logs: map<nat, seq<Batch>>) returns (files: map<nat, seq<byte>>)
    ensures files.Keys == logs.Keys && forall n :: n in logs ==> FileOf(BatchReps(c, logs[n]), files[n])
  {
    hide FileOf, BatchReps;
    files := map[];
    var pending := logs.Keys;
    while pending != {}
      invariant pending <= logs.Keys && files.Keys == logs.Keys - pending
      invariant forall n :: n in files ==> FileOf(BatchReps(c, logs[n]), files[n])
      decreases |pending|
    {
      var n :| n in pending;
      var file := WriteFile(BatchReps(c, logs[n]));
      files, pending := files[n := file], pending - {n};
    }
  }

  method ListDeleted(S: set<(nat, nat)>) returns (ds: seq<(nat, nat)>)
    ensures S == set d | d in ds
  {
    ds := [];
    var pending := S;
    while pending != {}
      invariant pending <= S && S - pending == set d | d in ds
      decreases |pending|
    {
      var d :| d in pending;
      assert (set x | x in ds + [d]) == (set x | x in ds) + {d};
      ds, pending := ds + [d], pending - {d};
    }
  }

  method WriteEdit(c: Codec, name: seq<byte>, e: M.Edit) returns (rep: seq<byte>)
    requires E.Encodable(Coded(c, name, e))
    ensures IsEditRep(c, name, e, rep)
  {
    hide Coded, E.Encodable, E.EditOk, E.FieldsOf, E.PutAll;
    var v := Coded(c, name, e);
    var ds := ListDeleted(v.deleted);
    E.AnyOrderOk(v, ds);
    rep := E.EncodeTo(v, ds);
  }

  method WriteManifest(c: Codec, name: seq<byte>, edits: seq<M.Edit>) returns (reps: seq<seq<byte>>, file: seq<byte>)
    requires forall i :: 0 <= i < |edits| ==> E.Encodable(Coded(c, name, edits[i]))
    ensures |reps| == |edits| && FileOf(reps, file)
    ensures forall i :: 0 <= i < |edits| ==> IsEditRep(c, name, edits[i], reps[i])
  {
    hide FileOf, IsEditRep, Coded, E.Encodable;
    reps := [];
    for i := 0 to |edits|
      invariant |reps| == i && forall k :: 0 <= k < i ==> IsEditRep(c, name, edits[k], reps[k])
    {
      var rep := WriteEdit(c, name, edits[i]);
      reps := reps + [rep];
    }
    file := WriteFile(reps);
  }

  /** The writers put the state on disk; the crash leaves the first `cut` bytes of the live log. */
  method WriteDisk(c: Codec, name: seq<byte>, ghost tables: nat -> seq<Entry>, s: State, cut: nat)
    returns (ghost reps: seq<seq<byte>>, manifest: seq<byte>, logs: map<nat, seq<byte>>, whole: seq<byte>)
    requires LogsOk(s) && DiskFits(c, name, tables, s)
    ensures OnDisk(c, name, tables, s, reps, manifest, logs, whole)
    ensures logs[s.logfileNumber] == if cut <= |whole| then whole[..cut] else whole
  {
    hide FileOf, BatchReps, BatchFits, EditStored, IsEditRep;
    reps, manifest := WriteManifest(c, name, s.manifest);
    logs := WriteLogs(c, s.logs);
    whole := logs[s.logfileNumber];
    logs := logs[s.logfileNumber := if cut <= |whole| then whole[..cut] else whole];
  }

  // ---------------------------------------------------------- reading it back

  /** Every log but the live one reads back whole. */
  lemma OlderLogRead(c: Codec, s: State, logs: map<nat, seq<byte>>, n: nat)
    requires n in s.logs && n in logs && (forall b :: b in s.logs[n] ==> BatchFits(c, b))
    requires FileOf(BatchReps(c, s.logs[n]), logs[n])
    ensures LogIn(c, logs[n]) == Some(s.logs[n])
  {
    hide LogIn, FileOf, BatchFits, BatchReps;
    var m := LogReads(c, s.logs[n], logs[n], logs[n]);
    assert s.logs[n][..m] == s.logs[n];
  }

  /** What reading the logs gives: all of them, the live one up to its first lost record. */
  lemma LogsRead(c: Codec, s: State, logs: map<nat, seq<byte>>, whole: seq<byte>) returns (k: nat)
    requires LogsOk(s) && LogsOnDisk(c, s, logs, whole)
    ensures k <= |s.logs[s.logfileNumber]| && (logs[s.logfileNumber] == whole ==> k == |s.logs[s.logfileNumber]|)
    ensures forall n :: n in logs ==> n in s.logs && LogIn(c, logs[n]) == Some(TornLogs(s, k)[n])
  {
    var live := s.logfileNumber;
    hide LogIn, FileOf, BatchFits, BatchReps;
    k := LogReads(c, s.logs[live], whole, logs[live]);
    forall n | n in logs && n != live
      ensures LogIn(c, logs[n]) == Some(s.logs[n])
    {
      OlderLogRead(c, s, logs, n);
    }
  }

  lemma DiskParts(c: Codec, name: seq<byte>, tables: nat -> seq<Entry>, s: State, reps: seq<seq<byte>>,
                  manifest: seq<byte>, logs: map<nat, seq<byte>>, whole: seq<byte>)
    requires LogsOk(s) && OnDisk(c, name, tables, s, reps, manifest, logs, whole)
    ensures |reps| == |s.manifest| && FileOf(reps, manifest) && LogsOnDisk(c, s, logs, whole)
    ensures s.logfileNumber in logs && forall n :: n in logs ==> n in s.logs
    ensures forall i :: 0 <= i < |reps| ==>
              EditStored(c, tables, s.manifest[i])
              && IsEditRep(c, name, s.manifest[i], reps[i])
  {
    hide FileOf, BatchFits, EditStored, IsEditRep;
  }

  /**
   * A crash may leave any beginning of the live log's bytes. What is read back from the disk is the
   * disk of a store that satisfies every invariant and has lost only the latest writes of that log.
   */
  lemma CrashAnywhere(c: Codec, name: seq<byte>, tables: nat -> seq<Entry>, s: State, reps: seq<seq<byte>>,
                      manifest: seq<byte>, logs: map<nat, seq<byte>>, whole: seq<byte>) returns (k: nat)
    requires Inv(s) && OnDisk(c, name, tables, s, reps, manifest, logs, whole)
    ensures k <= |s.logs[s.logfileNumber]| && (logs[s.logfileNumber] == whole ==> k == |s.logs[s.logfileNumber]|)
    ensures ManifestIn(c, name, tables, manifest) == Some(Torn(s, k).manifest)
    ensures forall n :: n in logs ==> n in Torn(s, k).logs && LogIn(c, logs[n]) == Some(Torn(s, k).logs[n])
    ensures Inv(Torn(s, k)) && Stored(s) == Stored(Torn(s, k)) + BatchesSet(Lost(s, k))
    ensures AllLater(BatchesSet(Lost(s, k)), BatchesSet(s.logs[s.logfileNumber][..k]))
  {
    hide LogIn, FileOf, BatchFits, IsEditRep, EditStored, Stored, ManifestIn, OnDisk, LogsOnDisk, BatchesSet;
    DiskParts(c, name, tables, s, reps, manifest, logs, whole);
    k := LogsRead(c, s, logs, whole);
    ManifestReads(c, name, tables, s.manifest, reps, manifest);
    TornInv(s, k);
    TornStored(s, k);
  }
}
