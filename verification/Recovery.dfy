/** Reopening the store: replay the manifest, then the live logs into level-0 tables. */
module Recovery {
  import opened Wrappers
  import opened Keys
  import opened Lsm
  import opened WriteBatches
  import opened Db
  import SortedRuns

  /** Facts about memory use and table sizes that decide where log replay cuts tables. */
  datatype Limits = Limits(full: seq<Entry> -> bool, size: seq<Entry> -> nat)

  function Max(a: int, b: int): int {
    if a < b then b else a
  }

  /** The sequence number of a record's last operation. */
  function LastOf(b: Batch): int {
    b.sn + |b.ops| - 1
  }

  /** The largest sequence number found while replaying, at least 0. */
  function MaxSequence(bs: seq<Batch>): int {
    if bs == [] then 0 else Max(MaxSequence(bs[..|bs| - 1]), LastOf(bs[|bs| - 1]))
  }

  lemma MaxSequenceSnoc(bs: seq<Batch>, b: Batch)
    ensures MaxSequence(bs + [b]) == Max(MaxSequence(bs), LastOf(b))
  {
    assert (bs + [b])[..|bs|] == bs;
  }

  lemma {:induction false} MaxSequenceBound(bs: seq<Batch>, n: nat)
    requires forall b :: b in bs ==> LastOf(b) <= n
    ensures 0 <= MaxSequence(bs) <= n
    ensures forall e :: e in BatchesSet(bs) ==> e.key.sn <= MaxSequence(bs)
  {
    if bs != [] {
      var init, b := bs[..|bs| - 1], bs[|bs| - 1];
      MaxSequenceBound(init, n);
      assert bs == init + [b];
      BatchesSnoc(init, b);
      BatchRange(b);
    }
  }

  // -------------------------------------------------------- replaying logs

  /** Tables written one after the other: rising numbers, each newer than all before it. */
  ghost predicate Stack(files: seq<File>, low: nat, next: nat) {
    && FilesOk(files) && low <= next
    && (forall i :: 0 <= i < |files| ==> low <= files[i].number < next)
    && (forall i, j :: 0 <= i < j < |files| ==> files[i].number < files[j].number)
    && forall i, j :: 0 <= i < j < |files| ==> Above(Elems(files[j].entries), Elems(files[i].entries))
  }

  /** Replayed records are in the tables written so far or in the memtable above them. */
  ghost predicate ReplayOk(added: seq<File>, low: nat, next: nat, mem: seq<Entry>, done: seq<Batch>) {
    && Stack(added, low, next) && Sorted(mem)
    && FilesEntries(added) + Elems(mem) == BatchesSet(done)
    && Above(Elems(mem), FilesEntries(added))
  }

  lemma FilesSnoc(files: seq<File>, f: File)
    ensures FilesEntries(files + [f]) == FilesEntries(files) + Elems(f.entries)
  {
  }

  lemma PushTable(files: seq<File>, low: nat, f: File)
    requires Stack(files, low, f.number) && FileOk(f) && Above(Elems(f.entries), FilesEntries(files))
    ensures Stack(files + [f], low, f.number + 1)
  {
    forall i | 0 <= i < |files|
      ensures Above(Elems(f.entries), Elems(files[i].entries))
    {
      assert Elems(files[i].entries) <= FilesEntries(files);
    }
  }

  /** The table for a memtable, if it has entries. */
  function TablesFor(mem: seq<Entry>, size: seq<Entry> -> nat, number: nat): seq<File> {
    if mem == [] then [] else [TableOf(number, size(mem), mem)]
  }

  /** WriteLevel0Table without a base version: level 0, and no file for an empty memtable. */
  method WriteLevel0Table(mem: seq<Entry>, size: seq<Entry> -> nat, added: seq<File>, next: nat, ghost low: nat,
                          ghost done: seq<Batch>)
    returns (added2: seq<File>)
    requires ReplayOk(added, low, next, mem, done)
    ensures ReplayOk(added2, low, next + 1, [], done) && added2 == added + TablesFor(mem, size, next)
  {
    if mem == [] {
      return added;
    }
    var f := TableOf(next, size(mem), mem);
    PushTable(added, low, f);
    FilesSnoc(added, f);
    added2 := added + [f];
  }

  lemma ReplayOne(added: seq<File>, low: nat, next: nat, mem: seq<Entry>, all: seq<Batch>, k: nat)
    requires k < |all| && Ascending(all) && ReplayOk(added, low, next, mem, all[..k])
    ensures AllLater(BatchSet(all[k]), Elems(mem))
    ensures Above(Elems(mem) + BatchSet(all[k]), FilesEntries(added))
    ensures BatchesSet(all[..k + 1]) == BatchesSet(all[..k]) + BatchSet(all[k])
  {
    assert all[..k + 1] == all[..k] + [all[k]];
    BatchesSnoc(all[..k], all[k]);
    forall a, x | a in BatchSet(all[k]) && x in BatchesSet(all[..k])
      ensures a.key.sn > x.key.sn
    {
      EarlierRecord(all, k, a, x);
    }
  }

  lemma EarlierRecord(all: seq<Batch>, k: nat, a: Entry, x: Entry)
    requires k < |all| && Ascending(all) && a in BatchSet(all[k]) && x in BatchesSet(all[..k])
    ensures a.key.sn > x.key.sn
  {
    BatchRange(all[k]);
    var j :| 0 <= j < k && x in BatchEntries(all[j]);
    BatchRange(all[j]);
    assert x in BatchSet(all[j]);
  }

  function Entries0(mem: Option<seq<Entry>>): seq<Entry> {
    if mem.Some? then mem.value else []
  }

  /** The state of a replay; `mem` is None until a record arrives. */
  datatype Replay = Replay(added: seq<File>, next: nat, mem: Option<seq<Entry>>, maxSequence: int)

  ghost predicate Replayed(r: Replay, low: nat, done: seq<Batch>) {
    ReplayOk(r.added, low, r.next, Entries0(r.mem), done) && r.maxSequence == MaxSequence(done)
  }

  /** Writes out the memtable, if there is one. */
  method FlushReplay(r: Replay, limits: Limits, ghost low: nat, ghost done: seq<Batch>) returns (r2: Replay)
    requires Replayed(r, low, done)
    ensures Replayed(r2, low, done) && r2.mem == None && r.next <= r2.next
    ensures r2.added == r.added + if r.mem.Some? then TablesFor(r.mem.value, limits.size, r.next) else []
  {
    r2 := r;
    if r.mem.Some? {
      var added := WriteLevel0Table(r.mem.value, limits.size, r.added, r.next, low, done);
      r2 := Replay(added, r.next + 1, None, r.maxSequence);
    }
  }

  /** Inserts one record; a full memtable becomes a table. */
  method ReplayRecord(r: Replay, b: Batch, limits: Limits, ghost low: nat, ghost all: seq<Batch>, ghost k: nat)
      returns (r2: Replay, ghost inserted: seq<Entry>)
    requires k < |all| && Ascending(all) && b == all[k] && Replayed(r, low, all[..k])
    ensures Replayed(r2, low, all[..k + 1]) && r.next <= r2.next
    ensures Sorted(inserted) && Elems(inserted) == Elems(Entries0(r.mem)) + BatchSet(b)
    ensures if limits.full(inserted)
            then r2.mem == None && r2.added == r.added + TablesFor(inserted, limits.size, r.next)
            else r2.mem == Some(inserted) && r2.added == r.added
  {
    ReplayOne(r.added, low, r.next, Entries0(r.mem), all, k);
    var mem := InsertInto(b, Entries0(r.mem));
    inserted := mem;
    assert all[..k + 1] == all[..k] + [b];
    MaxSequenceSnoc(all[..k], b);
    r2 := r.(mem := Some(mem), maxSequence := if LastOf(b) > r.maxSequence then LastOf(b) else r.maxSequence);
    if limits.full(mem) {
      r2 := FlushReplay(r2, limits, low, all[..k + 1]);
    }
  }

  // --------------------------------------------------- where tables are cut

  /** A memtable of exactly these records. */
  ghost predicate HoldsRecords(es: seq<Entry>, bs: seq<Batch>) {
    Sorted(es) && Elems(es) == BatchesSet(bs)
  }

  /** From record `c` on, no memtable was full up to record `d`. */
  ghost predicate NotFull(bs: seq<Batch>, c: nat, d: nat, limits: Limits)
    requires c <= d <= |bs|
  {
    forall m: nat, es {:trigger HoldsRecords(es, bs[c..m])} :: c < m <= d && HoldsRecords(es, bs[c..m]) ==>
      !limits.full(es)
  }

  /** The table holds the records from `c` to `d` of a log: as many as it takes to be full, or all that are left. */
  ghost predicate TableCut(f: File, bs: seq<Batch>, c: nat, d: nat, limits: Limits) {
    && c < d <= |bs| && HoldsRecords(f.entries, bs[c..d]) && f.size == limits.size(f.entries)
    && NotFull(bs, c, d - 1, limits) && (d < |bs| ==> limits.full(f.entries))
  }

  ghost predicate TablesCut(files: seq<File>, bs: seq<Batch>, limits: Limits) {
    forall f :: f in files ==> exists c: nat, d: nat :: TableCut(f, bs, c, d, limits)
  }

  /** The memtable holds the records from `c` to `i` and is not full, or there is none. */
  ghost predicate MemOpen(mem: Option<seq<Entry>>, bs: seq<Batch>, c: nat, i: nat, limits: Limits) {
    && c <= i <= |bs| && HoldsRecords(Entries0(mem), bs[c..i]) && NotFull(bs, c, i, limits)
    && (mem.None? <==> c == i)
  }

  lemma NothingOpen(bs: seq<Batch>, c: nat, limits: Limits)
    requires c <= |bs|
    ensures MemOpen(None, bs, c, c, limits)
  {
    assert Elems<Entry>([]) == {} && bs[c..c] == [];
  }

  lemma OneMoreRecord(mem: Option<seq<Entry>>, bs: seq<Batch>, c: nat, i: nat, limits: Limits, inserted: seq<Entry>)
    requires MemOpen(mem, bs, c, i, limits) && i < |bs|
    requires Sorted(inserted) && Elems(inserted) == Elems(Entries0(mem)) + BatchSet(bs[i])
    ensures HoldsRecords(inserted, bs[c..i + 1])
    ensures !limits.full(inserted) ==> MemOpen(Some(inserted), bs, c, i + 1, limits)
  {
    assert bs[c..i + 1] == bs[c..i] + [bs[i]];
    BatchesSnoc(bs[c..i], bs[i]);
    forall m: nat, es | c < m <= i + 1 && HoldsRecords(es, bs[c..m]) && !limits.full(inserted)
      ensures !limits.full(es)
    {
      if m == i + 1 {
        SortedRuns.SortedUnique(es, inserted);
      }
    }
  }

  lemma OneMoreTable(files: seq<File>, bs: seq<Batch>, c: nat, d: nat, limits: Limits, es: seq<Entry>, number: nat)
    requires TablesCut(files, bs, limits) && c < d <= |bs| && HoldsRecords(es, bs[c..d])
    requires NotFull(bs, c, d - 1, limits) && (d < |bs| ==> limits.full(es))
    ensures TablesCut(files + TablesFor(es, limits.size, number), bs, limits)
  {
    forall f | f in files + TablesFor(es, limits.size, number)
      ensures exists c: nat, d: nat :: TableCut(f, bs, c, d, limits)
    {
      if f !in files {
        assert TableCut(f, bs, c, d, limits);
      }
    }
  }

  lemma LessNotFull(bs: seq<Batch>, c: nat, d: nat, limits: Limits)
    requires c < d <= |bs| && NotFull(bs, c, d, limits)
    ensures NotFull(bs, c, d - 1, limits)
  {
  }

  /**
   * Replays one log, writing a table whenever the memtable is full and at the end. Each table has
   * its own size, was not full before its last record, and is full unless it is the log's last.
   */
  method RecoverLogFile(r: Replay, batches: seq<Batch>, limits: Limits, ghost low: nat, ghost all: seq<Batch>,
                        ghost at: nat)
    returns (r2: Replay, ghost tables: seq<File>)
    requires Ascending(all) && at + |batches| <= |all| && forall i :: 0 <= i < |batches| ==> batches[i] == all[at + i]
    requires Replayed(r, low, all[..at]) && r.mem == None
    ensures Replayed(r2, low, all[..at + |batches|]) && r2.mem == None && r.next <= r2.next
    ensures r2.added == r.added + tables && TablesCut(tables, batches, limits)
  {
    hide Ascending, Replayed, TablesFor, TablesCut, MemOpen, HoldsRecords, NotFull;
    r2, tables := r, [];
    ghost var c := 0;
    NoTables(batches, limits);
    NothingOpen(batches, 0, limits);
    var i := 0;
    while i < |batches|
      invariant i <= |batches| && r.next <= r2.next
      invariant Replayed(r2, low, all[..at + i])
      invariant r2.added == r.added + tables && TablesCut(tables, batches, limits)
      invariant MemOpen(r2.mem, batches, c, i, limits)
    {
      ghost var mem, next := r2.mem, r2.next;
      ghost var inserted;
      r2, inserted := ReplayRecord(r2, batches[i], limits, low, all, at + i);
      OneMoreRecord(mem, batches, c, i, limits, inserted);
      if limits.full(inserted) {
        OpenParts(mem, batches, c, i, limits);
        OneMoreTable(tables, batches, c, i + 1, limits, inserted, next);
        tables := tables + TablesFor(inserted, limits.size, next);
        c := i + 1;
        NothingOpen(batches, c, limits);
      }
      i := i + 1;
    }
    ghost var mem, next := r2.mem, r2.next;
    OpenParts(mem, batches, c, i, limits);
    r2 := FlushReplay(r2, limits, low, all[..at + i]);
    if mem.Some? {
      LessNotFull(batches, c, i, limits);
      OneMoreTable(tables, batches, c, i, limits, mem.value, next);
      tables := tables + TablesFor(mem.value, limits.size, next);
    }
  }

  lemma NoTables(bs: seq<Batch>, limits: Limits)
    ensures TablesCut([], bs, limits)
  {
  }

  lemma OpenParts(mem: Option<seq<Entry>>, bs: seq<Batch>, c: nat, i: nat, limits: Limits)
    requires MemOpen(mem, bs, c, i, limits)
    ensures c <= i <= |bs| && HoldsRecords(Entries0(mem), bs[c..i]) && NotFull(bs, c, i, limits)
    ensures mem.None? <==> c == i
  {
  }

  // ------------------------------------------------------ the live log files

  ghost predicate Rising(ns: seq<nat>) {
    forall i, j :: 0 <= i < j < |ns| ==> ns[i] < ns[j]
  }

  function InsertNumber(ns: seq<nat>, n: nat): (r: seq<nat>)
    ensures forall x :: x in r <==> x in ns || x == n
    ensures Rising(ns) && n !in ns ==> Rising(r)
  {
    if ns == [] || n < ns[0] then [n] + ns
    else
      assert ns == [ns[0]] + ns[1..];
      var rest := InsertNumber(ns[1..], n);
      assert forall i :: 0 <= i < |rest| ==> rest[i] in rest;
      [ns[0]] + rest
  }

  /** Log files not older than the log number, in the order they were written. */
  method LiveLogs(names: set<nat>, minLog: nat) returns (ns: seq<nat>)
    ensures Rising(ns) && forall n :: n in ns <==> n in names && n >= minLog
  {
    ns := [];
    var pending := names;
    while pending != {}
      invariant pending <= names && Rising(ns)
      invariant forall n :: n in ns <==> n in names - pending && n >= minLog
      decreases |pending|
    {
      var n :| n in pending;
      pending := pending - {n};
      if n >= minLog {
        ns := InsertNumber(ns, n);
      }
    }
  }

  /** The records of the first `n` of the logs, end to end. */
  ghost function ConcatTo(logs: map<nat, seq<Batch>>, ns: seq<nat>, n: nat): seq<Batch>
    requires n <= |ns| && forall n :: n in ns ==> n in logs
  {
    if n == 0 then [] else assert ns[n - 1] in ns; ConcatTo(logs, ns, n - 1) + logs[ns[n - 1]]
  }

  /** The records of several logs, end to end. */
  ghost function Concat(logs: map<nat, seq<Batch>>, ns: seq<nat>): seq<Batch>
    requires forall n :: n in ns ==> n in logs
  {
    ConcatTo(logs, ns, |ns|)
  }

  lemma OneNumber(ns: seq<nat>, a: nat)
    requires Rising(ns) && forall n :: n in ns <==> n == a
    ensures ns == [a]
  {
    assert a in ns;
    assert forall i :: 0 <= i < |ns| ==> ns[i] in ns;
    assert ns[|ns| - 1] == ns[0] == a;
  }

  lemma TwoNumbers(ns: seq<nat>, a: nat, b: nat)
    requires Rising(ns) && a < b && forall n :: n in ns <==> n == a || n == b
    ensures ns == [a, b]
  {
    assert a in ns && b in ns;
    assert forall i :: 0 <= i < |ns| ==> ns[i] in ns;
    var i :| 0 <= i < |ns| && ns[i] == a;
    var j :| 0 <= j < |ns| && ns[j] == b;
    assert i < j && ns[0] == a && ns[1] == b && ns[|ns| - 1] == b;
  }

  lemma LiveLogsAre(s: State, ns: seq<nat>)
    requires LogsOk(s) && Rising(ns) && forall n :: n in ns <==> n in s.logs && n >= s.logNumber
    ensures Concat(s.logs, ns) == LiveBatches(s)
  {
    var a, b := s.logNumber, s.logfileNumber;
    assert forall n :: n in ns <==> n == a || n == b;
    if a == b {
      OneNumber(ns, a);
      assert ConcatTo(s.logs, ns, 0) == [] && ConcatTo(s.logs, ns, 1) == s.logs[a];
    } else {
      TwoNumbers(ns, a, b);
      assert ConcatTo(s.logs, ns, 1) == s.logs[a];
    }
  }
}
