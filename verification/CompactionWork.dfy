/** The merge loop of a compaction: drop rules, output splitting and the two forward-only scans. */
module CompactionWork {
  import opened Wrappers
  import opened Keys
  import opened Lsm
  import opened CompactionReads

  // ---------------------------------------------------- sequences of files

  /** The entries of the files, end to end. */
  function Flat(fs: seq<File>): seq<Entry> {
    if fs == [] then [] else Flat(fs[..|fs| - 1]) + fs[|fs| - 1].entries
  }

  lemma FlatSnoc(fs: seq<File>, f: File)
    ensures Flat(fs + [f]) == Flat(fs) + f.entries
  {
    assert (fs + [f])[..|fs|] == fs;
  }

  /** Each file is non-empty and its recorded bounds are its first and last key. */
  ghost predicate Bounded(fs: seq<File>) {
    forall f :: f in fs ==>
          f.entries != [] && f.smallest == f.entries[0].key
          && f.largest == f.entries[|f.entries| - 1].key
  }

  lemma {:induction false} FlatElems(fs: seq<File>)
    ensures Elems(Flat(fs)) == FilesEntries(fs)
  {
    if fs != [] {
      var init, last := fs[..|fs| - 1], fs[|fs| - 1];
      FlatElems(init);
      assert fs == init + [last];
      assert FilesEntries(fs) == FilesEntries(init) + Elems(last.entries);
    }
  }

  /** Where the entries of file `i` sit in the concatenation. */
  lemma {:induction false} FlatAt(fs: seq<File>, i: nat) returns (at: nat)
    requires i < |fs|
    ensures at + |fs[i].entries| <= |Flat(fs)|
    ensures Flat(fs)[at..at + |fs[i].entries|] == fs[i].entries
  {
    var init, last := fs[..|fs| - 1], fs[|fs| - 1];
    if i == |fs| - 1 {
      at := |Flat(init)|;
    } else {
      at := FlatAt(init, i);
      assert Flat(init)[at..at + |fs[i].entries|] == Flat(fs)[at..at + |fs[i].entries|];
    }
  }

  /** A sorted concatenation of bounded files is a legal sorted level. */
  lemma {:induction false} FlatSortedIsLevel(fs: seq<File>)
    requires Bounded(fs) && Sorted(Flat(fs))
    ensures FilesOk(fs) && Disjoint(fs)
  {
    if fs != [] {
      var init, last := fs[..|fs| - 1], fs[|fs| - 1];
      var n := |Flat(init)|;
      assert Flat(fs)[..n] == Flat(init) && Flat(fs)[n..] == last.entries;
      FlatSortedIsLevel(init);
      assert last in fs && Flat(fs)[n] == last.entries[0];
      forall i | 0 <= i < |init|
        ensures Before(fs[i].largest, last.smallest)
      {
        var at := FlatAt(init, i);
        var m := |fs[i].entries|;
        assert fs[i] in fs;
        assert Flat(init)[at..at + m][m - 1] == Flat(init)[at + m - 1] == Flat(fs)[at + m - 1];
      }
    }
  }

  // ------------------------------------------------------- the specification

  /** No file two or more levels down can hold the key. */
  predicate BaseLevel(v: Version, level: nat, user: UserKey) {
    forall lvl, i :: level + 2 <= lvl < |v.levels| && 0 <= i < |v.levels[lvl]| ==> !Spans(v.levels[lvl][i], user)
  }

  predicate Spans(f: File, user: UserKey) {
    f.smallest.user <= user <= f.largest.user
  }

  function BaseOf(v: Version, level: nat): UserKey -> bool {
    (user: UserKey) => BaseLevel(v, level, user)
  }

  /** The surviving entries among the first `n`, in order. */
  ghost function KeptUpTo(input: seq<Entry>, n: nat, oldest: nat, base: UserKey -> bool): seq<Entry>
    requires n <= |input|
  {
    if n == 0 then []
    else KeptUpTo(input, n - 1, oldest, base)
         + if Kept(Elems(input), oldest, base, input[n - 1]) then [input[n - 1]] else []
  }

  /** In a sorted input, rule (A) only has to look one entry back. */
  lemma HiddenByPrevious(input: seq<Entry>, i: nat, oldest: nat)
    requires Sorted(input) && i < |input|
    ensures Hidden(Elems(input), oldest, input[i])
       <==> i > 0 && input[i - 1].key.user == input[i].key.user && input[i - 1].key.sn <= oldest
  {
    var e := input[i];
    if x :| x in Elems(input) && x.key.user == e.key.user && e.key.sn < x.key.sn <= oldest {
      var j :| 0 <= j < |input| && input[j] == x;
      assert j < i;
      assert j == i - 1 || Before(input[j].key, input[i - 1].key);
      assert Before(input[i - 1].key, e.key);
    }
    if i > 0 && input[i - 1].key.user == e.key.user && input[i - 1].key.sn <= oldest {
      assert Before(input[i - 1].key, e.key);
      assert input[i - 1] in Elems(input);
    }
  }

  lemma {:induction false} KeptUpToSorted(input: seq<Entry>, n: nat, oldest: nat, base: UserKey -> bool)
    requires Sorted(input) && n <= |input|
    ensures Sorted(KeptUpTo(input, n, oldest, base))
    ensures forall e :: e in KeptUpTo(input, n, oldest, base) <==>
              e in input[..n] && Kept(Elems(input), oldest, base, e)
  {
    if n > 0 {
      KeptUpToSorted(input, n - 1, oldest, base);
      assert input[..n] == input[..n - 1] + [input[n - 1]];
      var k := KeptUpTo(input, n - 1, oldest, base);
      forall j | 0 <= j < |k|
        ensures Before(k[j].key, input[n - 1].key)
      {
        assert k[j] in input[..n - 1];
      }
    }
  }

  lemma KeptAll(input: seq<Entry>, oldest: nat, base: UserKey -> bool)
    requires Sorted(input)
    ensures Elems(KeptUpTo(input, |input|, oldest, base)) == KeptSet(Elems(input), oldest, base)
    ensures Sorted(KeptUpTo(input, |input|, oldest, base))
  {
    KeptUpToSorted(input, |input|, oldest, base);
    assert input[..|input|] == input;
  }

  // ------------------------------------------------------ grandparent overlap

  /**
   * How far the scan over the grandparents has come, whether a key has been seen, and the bytes
   * passed since the last stop.
   */
  datatype Overlap = Overlap(index: nat, seen: bool, bytes: nat)

  /** The first grandparent from `index` on that does not end before `key`. */
  function FirstNotBefore(gs: seq<File>, index: nat, key: InternalKey): (i: nat)
    requires index <= |gs|
    ensures index <= i <= |gs| && (forall j :: index <= j < i ==> Less(gs[j].largest, key))
    ensures i < |gs| ==> !Less(gs[i].largest, key)
    decreases |gs| - index
  {
    if index < |gs| && Less(gs[index].largest, key) then FirstNotBefore(gs, index + 1, key) else index
  }

  /** Grandparents passed on the way to `key` count once a key has been seen; too many of them stop the output. */
  function Pass(gs: seq<File>, limit: nat, o: Overlap, key: InternalKey): (r: (Overlap, bool))
    requires o.index <= |gs|
    ensures r.0.index <= |gs|
  {
    var i := FirstNotBefore(gs, o.index, key);
    var total := o.bytes + if o.seen then SizeOfRange(gs, o.index, i) else 0;
    (Overlap(i, true, if total > limit then 0 else total), total > limit)
  }

  lemma FirstIs(gs: seq<File>, index: nat, key: InternalKey, i: nat)
    requires index <= i <= |gs| && (forall j :: index <= j < i ==> Less(gs[j].largest, key))
    requires i < |gs| ==> !Less(gs[i].largest, key)
    ensures FirstNotBefore(gs, index, key) == i
  {
  }

  // ------------------------------------------------------ compaction object

  class Compaction {
    const level: nat
    const inputVersion: Version
    const grandparents: seq<File>
    const maxOutputFileSize: nat
    const maxGrandParentOverlap: nat
    const levelPtrs: array<nat>
    var grandparentIndex: nat
    var seenKey: bool
    var overlappedBytes: nat
    // The largest user key asked about so far.
    ghost var asked: Option<UserKey>

    ghost predicate Valid()
      reads this, levelPtrs
    {
      && levelPtrs.Length == NUM_LEVELS == |inputVersion.levels|
      && (forall l :: 1 <= l < NUM_LEVELS ==> LevelOk(l, inputVersion.levels[l]))
      && grandparentIndex <= |grandparents|
      && forall l :: 0 <= l < NUM_LEVELS ==> Passed(l, levelPtrs[l])
    }

    function Overlapped(): Overlap
      reads this`grandparentIndex, this`seenKey, this`overlappedBytes
    {
      Overlap(grandparentIndex, seenKey, overlappedBytes)
    }

    /** Files before the pointer end below every key still to be asked about. */
    ghost predicate Passed(l: nat, ptr: nat)
      requires l < |inputVersion.levels|
      reads this`asked
    {
      && ptr <= |inputVersion.levels[l]|
      && forall i :: 0 <= i < ptr ==> asked.Some? && inputVersion.levels[l][i].largest.user < asked.value
    }

    constructor (v: Version, level: nat, grandparents: seq<File>, maxOutputFileSize: nat, maxGrandParentOverlap: nat)
      requires LsmOk(v)
      ensures Valid() && asked == None && fresh(levelPtrs)
      ensures this.inputVersion == v && this.level == level && this.grandparents == grandparents
      ensures this.maxOutputFileSize == maxOutputFileSize && this.maxGrandParentOverlap == maxGrandParentOverlap
      ensures Overlapped() == Overlap(0, false, 0)
    {
      this.level, inputVersion, this.grandparents := level, v, grandparents;
      this.maxOutputFileSize, this.maxGrandParentOverlap := maxOutputFileSize, maxGrandParentOverlap;
      levelPtrs := new nat[NUM_LEVELS](i => 0);
      grandparentIndex, seenKey, overlappedBytes, asked := 0, false, 0, None;
    }

    /** Advances one level's pointer past files that end before `user`. */
    method AdvanceLevel(lvl: nat, user: UserKey) returns (spanned: bool)
      requires Valid() && 1 <= lvl < NUM_LEVELS && asked == Some(user)
      modifies levelPtrs
      ensures Valid()
      ensures spanned <==> exists i :: 0 <= i < |inputVersion.levels[lvl]| && Spans(inputVersion.levels[lvl][i], user)
    {
      var files := inputVersion.levels[lvl];
      assert LevelOk(lvl, files);
      while levelPtrs[lvl] < |files|
        invariant Valid()
        decreases |files| - levelPtrs[lvl]
      {
        var f := files[levelPtrs[lvl]];
        if user <= f.largest.user {
          spanned := f.smallest.user <= user;
          if !spanned {
            LaterFilesStartPast(lvl, files, levelPtrs[lvl], user);
          }
          return;
        }
        levelPtrs[lvl] := levelPtrs[lvl] + 1;
      }
      spanned := false;
    }

    /** Forward-only check that no deeper level can hold the key. */
    method IsBaseLevelForKey(user: UserKey) returns (base: bool)
      requires Valid() && (asked.Some? ==> asked.value <= user)
      modifies this`asked, levelPtrs
      ensures Valid() && asked == Some(user)
      ensures base == BaseLevel(inputVersion, level, user)
    {
      asked := Some(user);
      var lvl := level + 2;
      while lvl < NUM_LEVELS
        invariant Valid() && asked == Some(user) && level + 2 <= lvl
        invariant forall l, i :: level + 2 <= l < lvl && l < NUM_LEVELS && 0 <= i < |inputVersion.levels[l]|
                    ==> !Spans(inputVersion.levels[l][i], user)
      {
        var spanned := AdvanceLevel(lvl, user);
        if spanned {
          return false;
        }
        lvl := lvl + 1;
      }
      base := true;
    }

    /** Whether the current output overlaps too much grandparent data. */
    method ShouldStopBefore(key: InternalKey) returns (stop: bool)
      requires Valid()
      modifies this`grandparentIndex, this`seenKey, this`overlappedBytes
      ensures Valid() && (Overlapped(), stop) == Pass(grandparents, maxGrandParentOverlap, old(Overlapped()), key)
    {
      while grandparentIndex < |grandparents| && Less(grandparents[grandparentIndex].largest, key)
        invariant Valid() && old(grandparentIndex) <= grandparentIndex && seenKey == old(seenKey)
        invariant forall i :: old(grandparentIndex) <= i < grandparentIndex ==> Less(grandparents[i].largest, key)
        invariant overlappedBytes == old(overlappedBytes)
                  + if seenKey then SizeOfRange(grandparents, old(grandparentIndex), grandparentIndex) else 0
      {
        if seenKey {
          overlappedBytes := overlappedBytes + grandparents[grandparentIndex].size;
        }
        grandparentIndex := grandparentIndex + 1;
      }
      FirstIs(grandparents, old(grandparentIndex), key, grandparentIndex);
      seenKey := true;
      if overlappedBytes > maxGrandParentOverlap {
        overlappedBytes := 0;
        stop := true;
      } else {
        stop := false;
      }
    }
  }

  function SizeOfRange(fs: seq<File>, lo: nat, hi: nat): nat
    requires lo <= hi <= |fs|
    decreases hi
  {
    if lo == hi then 0 else SizeOfRange(fs, lo, hi - 1) + fs[hi - 1].size
  }

  lemma LaterFilesStartPast(level: nat, fs: seq<File>, p: nat, user: UserKey)
    requires level > 0 && LevelOk(level, fs) && p < |fs| && user < fs[p].smallest.user
    ensures forall i :: p <= i < |fs| ==> !Spans(fs[i], user)
  {
    forall i | p < i < |fs|
      ensures user < fs[i].smallest.user
    {
      assert FileOk(fs[p]) && Before(fs[p].largest, fs[i].smallest);
      FileSpan(fs[p]);
    }
  }

  // ------------------------------------------------------------- the loop

  /** The output table being built, if any: its number, its recorded bounds and its entries so far. */
  datatype Builder = Closed | Open(number: nat, smallest: InternalKey, largest: InternalKey, entries: seq<Entry>)

  /** Finished outputs, the open one, and the next unused file number. */
  datatype Outputs = Outputs(files: seq<File>, b: Builder, next: nat)

  /** Sizes are facts about the table format, so they are parameters. */
  datatype Sizes = Sizes(soFar: seq<Entry> -> nat, finished: seq<Entry> -> nat)

  /** Everything written so far, end to end. */
  ghost function Written(o: Outputs): seq<Entry> {
    Flat(o.files) + if o.b.Closed? then [] else o.b.entries
  }

  /** Consecutive numbers starting at `first`. */
  ghost predicate NumberedFrom(files: seq<File>, first: nat) {
    forall i :: 0 <= i < |files| ==> files[i].number == first + i
  }

  ghost predicate OutputsOk(o: Outputs, first: nat) {
    && Bounded(o.files) && NumberedFrom(o.files, first)
    && o.next == first + |o.files| + (if o.b.Open? then 1 else 0)
    && (o.b.Open? ==>
          && o.b.number == first + |o.files|
          && o.b.entries != [] && o.b.smallest == o.b.entries[0].key
             && o.b.largest == o.b.entries[|o.b.entries| - 1].key)
  }

  /** The open output, if any, becomes a file. */
  function Finished(o: Outputs, sizes: Sizes): Outputs {
    if o.b.Closed? then o
    else Outputs(o.files + [File(o.b.number, sizes.finished(o.b.entries), o.b.smallest, o.b.largest, o.b.entries)],
                 Closed, o.next)
  }

  /** The entry goes to the open output, or to a new one with the next number. */
  function Added(o: Outputs, e: Entry): Outputs {
    if o.b.Closed? then Outputs(o.files, Open(o.next, e.key, e.key, [e]), o.next + 1)
    else Outputs(o.files, Open(o.b.number, o.b.smallest, e.key, o.b.entries + [e]), o.next)
  }

  /** What decides where the outputs are cut. */
  datatype Cutting = Cutting(grandparents: seq<File>, maxOutputFileSize: nat, maxGrandParentOverlap: nat, sizes: Sizes)

  datatype Progress = Progress(o: Outputs, overlap: Overlap)

  /**
   * One input entry: too much overlap closes the open output before it, and an output that
   * has reached its size is closed after it.
   */
  function Advanced(p: Progress, e: Entry, kept: bool, cut: Cutting): (r: Progress)
    requires p.overlap.index <= |cut.grandparents|
    ensures r.overlap.index <= |cut.grandparents|
  {
    var pass := Pass(cut.grandparents, cut.maxGrandParentOverlap, p.overlap, e.key);
    var o := if pass.1 then Finished(p.o, cut.sizes) else p.o;
    var o2 := if kept then Added(o, e) else o;
    var full := kept && cut.sizes.soFar(o2.b.entries) >= cut.maxOutputFileSize;
    Progress(if full then Finished(o2, cut.sizes) else o2, pass.0)
  }

  /** The outputs after the first `n` input entries. */
  ghost function ProgressAt(input: seq<Entry>, n: nat, oldest: nat, base: UserKey -> bool, cut: Cutting,
                            first: nat): (r: Progress)
    requires n <= |input|
    ensures r.overlap.index <= |cut.grandparents|
  {
    if n == 0 then Progress(Outputs([], Closed, first), Overlap(0, false, 0))
    else Advanced(ProgressAt(input, n - 1, oldest, base, cut, first), input[n - 1],
                  Kept(Elems(input), oldest, base, input[n - 1]), cut)
  }

  /** The tables a merge of the input writes. */
  ghost function TablesOf(input: seq<Entry>, oldest: nat, base: UserKey -> bool, cut: Cutting, first: nat): seq<File> {
    Finished(ProgressAt(input, |input|, oldest, base, cut, first).o, cut.sizes).files
  }

  /** Closes the open output and records it as a finished file. */
  method FinishCompactionOutputFile(o: Outputs, sizes: Sizes, ghost first: nat) returns (r: Outputs)
    requires o.b.Open? && OutputsOk(o, first)
    ensures OutputsOk(r, first) && r.b.Closed? && Written(r) == Written(o) && r == Finished(o, sizes)
  {
    var f := File(o.b.number, sizes.finished(o.b.entries), o.b.smallest, o.b.largest, o.b.entries);
    FlatSnoc(o.files, f);
    r := Outputs(o.files + [f], Closed, o.next);
  }

  /** Adds a kept entry to the open output, opening one if necessary. */
  method AddToOutput(o: Outputs, e: Entry, ghost first: nat) returns (r: Outputs)
    requires OutputsOk(o, first)
    ensures OutputsOk(r, first) && r.b.Open? && Written(r) == Written(o) + [e] && r == Added(o, e)
  {
    var b, next := o.b, o.next;
    if b.Closed? {
      b, next := Open(next, e.key, e.key, []), next + 1;
    }
    if |b.entries| == 0 {
      b := b.(smallest := e.key);
    }
    b := b.(largest := e.key, entries := b.entries + [e]);
    r := Outputs(o.files, b, next);
  }

  /** The two drop rules, given the sequence number of the previous entry for the same key. */
  method ShouldDrop(c: Compaction, e: Entry, lastSequenceForKey: nat, oldest: nat) returns (drop: bool)
    requires c.Valid() && (c.asked.Some? ==> c.asked.value <= e.key.user)
    modifies c`asked, c.levelPtrs
    ensures c.Valid() && (c.asked.Some? ==> c.asked.value <= e.key.user)
    ensures drop <==> lastSequenceForKey <= oldest || Obsolete(oldest, BaseOf(c.inputVersion, c.level), e)
  {
    drop := false;
    if lastSequenceForKey <= oldest {
      drop := true;
    } else if e.key.kind.Deletion? && e.key.sn <= oldest {
      drop := c.IsBaseLevelForKey(e.key.user);
    }
  }

  /** One turn of the merge loop. */
  method MergeEntry(c: Compaction, o: Outputs, e: Entry, lastSequenceForKey: nat, oldest: nat, sizes: Sizes,
                    ghost first: nat)
    returns (r: Outputs, ghost kept: bool)
    requires c.Valid() && (c.asked.Some? ==> c.asked.value <= e.key.user) && OutputsOk(o, first)
    modifies c, c.levelPtrs
    ensures c.Valid() && (c.asked.Some? ==> c.asked.value <= e.key.user) && OutputsOk(r, first)
    ensures kept <==> !(lastSequenceForKey <= oldest || Obsolete(oldest, BaseOf(c.inputVersion, c.level), e))
    ensures Progress(r, c.Overlapped()) == Advanced(Progress(o, old(c.Overlapped())), e, kept, CuttingOf(c, sizes))
    ensures Written(r) == Written(o) + if kept then [e] else []
  {
    hide Pass, Finished, Added, OutputsOk, Written, Obsolete, BaseOf, Compaction.Valid;
    FinishedIs(o, sizes);
    r := o;
    var stop := c.ShouldStopBefore(e.key);
    if stop && r.b.Open? {
      r := FinishCompactionOutputFile(r, sizes, first);
    }
    var drop := ShouldDrop(c, e, lastSequenceForKey, oldest);
    kept := !drop;
    if !drop {
      r := AddToOutput(r, e, first);
      if sizes.soFar(r.b.entries) >= c.maxOutputFileSize {
        r := FinishCompactionOutputFile(r, sizes, first);
      }
    }
  }

  function CuttingOf(c: Compaction, sizes: Sizes): Cutting {
    Cutting(c.grandparents, c.maxOutputFileSize, c.maxGrandParentOverlap, sizes)
  }

  /**
   * The merge loop. The outputs, end to end, are exactly the entries the declarative
   * drop rules keep, cut into tables with fresh consecutive numbers where sizes and
   * grandparents say.
   */
  method DoCompactionWork(c: Compaction, input: seq<Entry>, oldest: nat, sizes: Sizes, firstNumber: nat)
    returns (outputs: seq<File>, nextNumber: nat)
    requires c.Valid() && c.asked == None && c.Overlapped() == Overlap(0, false, 0) && Sorted(input)
             && oldest < MAX_SEQUENCE
    modifies c, c.levelPtrs
    ensures Flat(outputs) == KeptUpTo(input, |input|, oldest, BaseOf(c.inputVersion, c.level))
    ensures outputs == TablesOf(input, oldest, BaseOf(c.inputVersion, c.level), CuttingOf(c, sizes), firstNumber)
    ensures Bounded(outputs) && NumberedFrom(outputs, firstNumber) && nextNumber == firstNumber + |outputs|
  {
    hide Pass, Finished, Added, Advanced, Kept, Sorted, BaseOf, Obsolete, Flat, Compaction.Valid;
    ghost var base, cut := BaseOf(c.inputVersion, c.level), CuttingOf(c, sizes);
    var o := Outputs([], Closed, firstNumber);
    var currentUser: Option<UserKey> := None;
    var lastSequenceForKey := MAX_SEQUENCE;
    var i := 0;
    NothingWritten(firstNumber);
    while i < |input|
      invariant i <= |input| && c.Valid()
      invariant OutputsOk(o, firstNumber)
      invariant Written(o) == KeptUpTo(input, i, oldest, base)
      invariant Progress(o, c.Overlapped()) == ProgressAt(input, i, oldest, base, cut, firstNumber)
      invariant c.asked.Some? ==> i > 0 && c.asked.value <= input[i - 1].key.user
      invariant currentUser == if i == 0 then None else Some(input[i - 1].key.user)
      invariant i > 0 ==> lastSequenceForKey == input[i - 1].key.sn
    {
      var e := input[i];
      UsersRise(input, i);
      if currentUser != Some(e.key.user) {
        currentUser := Some(e.key.user);
        lastSequenceForKey := MAX_SEQUENCE;
      }
      HiddenByPrevious(input, i, oldest);
      KeptIs(Elems(input), oldest, base, e);
      ghost var kept;
      o, kept := MergeEntry(c, o, e, lastSequenceForKey, oldest, sizes, firstNumber);
      lastSequenceForKey := e.key.sn;
      i := i + 1;
    }
    ghost var last := o;
    if o.b.Open? {
      o := FinishCompactionOutputFile(o, sizes, firstNumber);
    }
    FinishedIs(last, sizes);
    outputs, nextNumber := o.files, o.next;
    WrittenIs(o);
  }

  lemma NothingWritten(first: nat)
    ensures Written(Outputs([], Closed, first)) == [] && OutputsOk(Outputs([], Closed, first), first)
  {
  }

  lemma WrittenIs(o: Outputs)
    requires o.b.Closed?
    ensures Written(o) == Flat(o.files)
  {
  }

  lemma FinishedIs(o: Outputs, sizes: Sizes)
    ensures o.b.Closed? ==> Finished(o, sizes) == o
  {
  }

  lemma KeptIs(S: set<Entry>, oldest: nat, base: UserKey -> bool, e: Entry)
    requires e in S
    ensures Kept(S, oldest, base, e) <==> !Hidden(S, oldest, e) && !Obsolete(oldest, base, e)
  {
  }

  lemma UsersRise(input: seq<Entry>, i: nat)
    requires Sorted(input) && i < |input|
    ensures i > 0 ==> input[i - 1].key.user <= input[i].key.user
  {
    assert i > 0 ==> Before(input[i - 1].key, input[i].key);
  }

  // -------------------------------------------------- where tables are cut

  /** The size limit is not reached before the last entry. */
  ghost predicate NotBeforeLast(es: seq<Entry>, cut: Cutting) {
    forall m :: 0 < m < |es| ==> cut.sizes.soFar(es[..m]) < cut.maxOutputFileSize
  }

  /** No finished table went on past its size limit, and the open one has not reached it. */
  ghost predicate SizesKept(o: Outputs, cut: Cutting) {
    && (forall f :: f in o.files ==> NotBeforeLast(f.entries, cut))
    && (o.b.Open? ==> forall m :: 0 < m <= |o.b.entries| ==> cut.sizes.soFar(o.b.entries[..m]) < cut.maxOutputFileSize)
  }

  lemma FinishedSizes(o: Outputs, cut: Cutting)
    requires SizesKept(o, cut)
    ensures SizesKept(Finished(o, cut.sizes), cut)
  {
  }

  lemma AddedSizes(o: Outputs, e: Entry, cut: Cutting)
    requires SizesKept(o, cut)
    ensures var r := Added(o, e);
            if cut.sizes.soFar(r.b.entries) >= cut.maxOutputFileSize then SizesKept(Finished(r, cut.sizes), cut)
            else SizesKept(r, cut)
  {
    var r := Added(o, e);
    forall m | 0 < m <= |r.b.entries|
      ensures m < |r.b.entries| ==> cut.sizes.soFar(r.b.entries[..m]) < cut.maxOutputFileSize
      ensures m == |r.b.entries| ==> r.b.entries[..m] == r.b.entries
    {
      if m < |r.b.entries| {
        assert r.b.entries[..m] == o.b.entries[..m];
      }
    }
  }

  lemma {:induction false} ProgressSizes(input: seq<Entry>, n: nat, oldest: nat, base: UserKey -> bool, cut: Cutting,
                                         first: nat)
    requires n <= |input|
    ensures SizesKept(ProgressAt(input, n, oldest, base, cut, first).o, cut)
  {
    hide Kept, Pass, Finished, Added, SizesKept;
    if n == 0 {
      NoSizes(cut, first);
    } else {
      ProgressSizes(input, n - 1, oldest, base, cut, first);
      var p := ProgressAt(input, n - 1, oldest, base, cut, first);
      FinishedSizes(p.o, cut);
      AddedSizes(p.o, input[n - 1], cut);
      AddedSizes(Finished(p.o, cut.sizes), input[n - 1], cut);
    }
  }

  lemma NoSizes(cut: Cutting, first: nat)
    ensures SizesKept(Outputs([], Closed, first), cut)
  {
  }

  /** A table is closed as soon as it has reached the size limit. */
  lemma TablesKeepSize(input: seq<Entry>, oldest: nat, base: UserKey -> bool, cut: Cutting, first: nat)
    ensures forall f :: f in TablesOf(input, oldest, base, cut, first) ==> NotBeforeLast(f.entries, cut)
  {
    ProgressSizes(input, |input|, oldest, base, cut, first);
    FinishedSizes(ProgressAt(input, |input|, oldest, base, cut, first).o, cut);
  }

  ghost predicate AllReached(fs: seq<File>, cut: Cutting) {
    forall f :: f in fs ==> cut.sizes.soFar(f.entries) >= cut.maxOutputFileSize
  }

  lemma {:induction false} ProgressReaches(input: seq<Entry>, n: nat, oldest: nat, base: UserKey -> bool, cut: Cutting,
                                           first: nat)
    requires n <= |input| && cut.grandparents == []
    ensures var p := ProgressAt(input, n, oldest, base, cut, first); p.overlap.bytes == 0 && AllReached(p.o.files, cut)
  {
    if n > 0 {
      ProgressReaches(input, n - 1, oldest, base, cut, first);
    }
  }

  /** Without files two levels down to overlap, only size cuts: every table but the last has reached the limit. */
  lemma OnlySizeCuts(input: seq<Entry>, oldest: nat, base: UserKey -> bool, cut: Cutting, first: nat)
    requires cut.grandparents == []
    ensures var fs := TablesOf(input, oldest, base, cut, first); fs != [] ==> AllReached(fs[..|fs| - 1], cut)
  {
    ProgressReaches(input, |input|, oldest, base, cut, first);
  }
}
