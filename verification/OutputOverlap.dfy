/** The tables a merge writes: how much of the level after the next they overlap, how few are short, their sizes. */
module OutputOverlap {
  import opened Keys
  import opened Lsm
  import opened CompactionReads
  import opened CompactionWork

  /** How many grandparents end before the key. */
  ghost function Reach(gs: seq<File>, key: InternalKey): (i: nat)
    ensures i <= |gs|
  {
    FirstNotBefore(gs, 0, key)
  }

  /** The grandparents that end in the range of keys, but for one at its end, add up to the limit at most. */
  ghost predicate LittleOverlap(cut: Cutting, smallest: InternalKey, largest: InternalKey) {
    var gs := cut.grandparents;
    && Reach(gs, smallest) <= Reach(gs, largest)
    && SizeOfRange(gs, Reach(gs, smallest), Reach(gs, largest)) <= cut.maxGrandParentOverlap
  }

  lemma {:induction false} RangeSplits(fs: seq<File>, lo: nat, mid: nat, hi: nat)
    requires lo <= mid <= hi <= |fs|
    ensures SizeOfRange(fs, lo, hi) == SizeOfRange(fs, lo, mid) + SizeOfRange(fs, mid, hi)
    decreases hi
  {
    if mid < hi {
      RangeSplits(fs, lo, mid, hi - 1);
    }
  }

  lemma LessNext(a: InternalKey, b: InternalKey, c: InternalKey)
    requires Less(a, b) && Before(b, c)
    ensures Less(a, c)
  {
  }

  /** Scanning on from where an earlier key left the scan comes to the same place as scanning from the start. */
  lemma ReachFrom(gs: seq<File>, k1: InternalKey, k2: InternalKey)
    requires Before(k1, k2)
    ensures Reach(gs, k1) <= Reach(gs, k2) == FirstNotBefore(gs, Reach(gs, k1), k2)
  {
    var i := FirstNotBefore(gs, Reach(gs, k1), k2);
    forall j | 0 <= j < i
      ensures Less(gs[j].largest, k2)
    {
      if j < Reach(gs, k1) {
        LessNext(gs[j].largest, k1, k2);
      }
    }
    ReachIs(gs, k2, i);
  }

  lemma {:induction false} FirstOnly(gs: seq<File>, index: nat, key: InternalKey, i: nat)
    requires index <= i <= |gs| && (forall j :: index <= j < i ==> Less(gs[j].largest, key))
    requires i < |gs| ==> !Less(gs[i].largest, key)
    ensures FirstNotBefore(gs, index, key) == i
    decreases i - index
  {
    if index < i {
      FirstOnly(gs, index + 1, key, i);
    }
  }

  lemma ReachIs(gs: seq<File>, key: InternalKey, i: nat)
    requires i <= |gs| && (forall j :: 0 <= j < i ==> Less(gs[j].largest, key))
    requires i < |gs| ==> !Less(gs[i].largest, key)
    ensures Reach(gs, key) == i
  {
    FirstOnly(gs, 0, key, i);
  }

  /** The finished tables and the open one overlap little, and what was passed under the open one is counted. */
  ghost predicate OverlapsKept(o: Outputs, cut: Cutting, at: Overlap) {
    && at.bytes <= cut.maxGrandParentOverlap && at.index <= |cut.grandparents|
    && (forall f :: f in o.files ==> LittleOverlap(cut, f.smallest, f.largest))
    && (o.b.Open? ==> LittleOverlap(cut, o.b.smallest, o.b.largest) && OpenCounted(o.b, cut, at))
  }

  ghost predicate OpenCounted(b: Builder, cut: Cutting, at: Overlap)
    requires b.Open? && at.index <= |cut.grandparents|
  {
    && at.seen && Reach(cut.grandparents, b.smallest) <= at.index
    && SizeOfRange(cut.grandparents, Reach(cut.grandparents, b.smallest), at.index) <= at.bytes
  }

  /** The scan has come as far as the last key asks. */
  ghost predicate ScanAt(input: seq<Entry>, n: nat, cut: Cutting, at: Overlap)
    requires n <= |input|
  {
    if n == 0 then at == Overlap(0, false, 0)
    else at.seen && at.index == Reach(cut.grandparents, input[n - 1].key)
  }

  lemma FinishedOverlaps(o: Outputs, cut: Cutting, at: Overlap, at2: Overlap)
    requires OverlapsKept(o, cut, at) && at2.bytes <= cut.maxGrandParentOverlap && at2.index <= |cut.grandparents|
    ensures OverlapsKept(Finished(o, cut.sizes), cut, at2)
  {
  }

  /** Passing on without a stop counts what is passed under the open table. */
  lemma PassedOverlaps(o: Outputs, cut: Cutting, at: Overlap, at2: Overlap)
    requires OverlapsKept(o, cut, at) && at2.bytes <= cut.maxGrandParentOverlap && at.index <= at2.index
    requires at2.index <= |cut.grandparents| && at2.seen
    requires at.seen ==> at2.bytes == at.bytes + SizeOfRange(cut.grandparents, at.index, at2.index)
    ensures OverlapsKept(o, cut, at2)
  {
    if o.b.Open? {
      RangeSplits(cut.grandparents, Reach(cut.grandparents, o.b.smallest), at.index, at2.index);
    }
  }

  lemma AddedOverlaps(o: Outputs, e: Entry, cut: Cutting, at: Overlap)
    requires OverlapsKept(o, cut, at) && at.seen && at.index == Reach(cut.grandparents, e.key)
    ensures OverlapsKept(Added(o, e), cut, at)
  {
  }

  lemma AdvancedOverlaps(p: Progress, e: Entry, kept: bool, cut: Cutting)
    requires p.overlap.index <= |cut.grandparents| && OverlapsKept(p.o, cut, p.overlap)
    requires FirstNotBefore(cut.grandparents, p.overlap.index, e.key) == Reach(cut.grandparents, e.key)
    ensures var r := Advanced(p, e, kept, cut);
            OverlapsKept(r.o, cut, r.overlap) && r.overlap.seen && r.overlap.index == Reach(cut.grandparents, e.key)
  {
    hide OverlapsKept, Finished, Added, Reach;
    BytesBounded(p, cut);
    var pass := Pass(cut.grandparents, cut.maxGrandParentOverlap, p.overlap, e.key);
    var o := if pass.1 then Finished(p.o, cut.sizes) else p.o;
    if pass.1 {
      FinishedOverlaps(p.o, cut, p.overlap, pass.0);
    } else {
      PassedOverlaps(p.o, cut, p.overlap, pass.0);
    }
    var o2 := if kept then Added(o, e) else o;
    if kept {
      AddedOverlaps(o, e, cut, pass.0);
    }
    FinishedOverlaps(o2, cut, pass.0, pass.0);
  }

  lemma BytesBounded(p: Progress, cut: Cutting)
    requires OverlapsKept(p.o, cut, p.overlap)
    ensures p.overlap.bytes <= cut.maxGrandParentOverlap
  {
  }

  lemma ScanNext(input: seq<Entry>, n: nat, cut: Cutting, at: Overlap)
    requires Sorted(input) && n < |input| && ScanAt(input, n, cut, at)
    ensures at.index <= |cut.grandparents|
    ensures FirstNotBefore(cut.grandparents, at.index, input[n].key) == Reach(cut.grandparents, input[n].key)
  {
    if n > 0 {
      ReachFrom(cut.grandparents, input[n - 1].key, input[n].key);
    }
  }

  lemma {:induction false} ProgressOverlaps(input: seq<Entry>, n: nat, oldest: nat, base: UserKey -> bool, cut: Cutting,
                                            first: nat)
    requires Sorted(input) && n <= |input|
    ensures var p := ProgressAt(input, n, oldest, base, cut, first);
            OverlapsKept(p.o, cut, p.overlap) && ScanAt(input, n, cut, p.overlap)
  {
    hide Sorted, Kept, Advanced, OverlapsKept;
    if n == 0 {
      NothingOverlaps(cut, first);
    } else {
      ProgressOverlaps(input, n - 1, oldest, base, cut, first);
      var p := ProgressAt(input, n - 1, oldest, base, cut, first);
      ScanNext(input, n - 1, cut, p.overlap);
      AdvancedOverlaps(p, input[n - 1], Kept(Elems(input), oldest, base, input[n - 1]), cut);
    }
  }

  lemma NothingOverlaps(cut: Cutting, first: nat)
    ensures OverlapsKept(Outputs([], Closed, first), cut, Overlap(0, false, 0))
  {
  }

  /** No table of a merge spans grandparents of more than the limit. */
  lemma TablesOverlapLittle(input: seq<Entry>, oldest: nat, base: UserKey -> bool, cut: Cutting, first: nat)
    requires Sorted(input)
    ensures forall f :: f in TablesOf(input, oldest, base, cut, first) ==> LittleOverlap(cut, f.smallest, f.largest)
  {
    ProgressOverlaps(input, |input|, oldest, base, cut, first);
    var p := ProgressAt(input, |input|, oldest, base, cut, first);
    FinishedOverlaps(p.o, cut, p.overlap, p.overlap);
  }

  // ---------------------------------------------------------- recorded sizes

  ghost predicate Sized(fs: seq<File>, cut: Cutting) {
    forall f :: f in fs ==> f.size == cut.sizes.finished(f.entries)
  }

  lemma FinishedSized(o: Outputs, cut: Cutting)
    requires Sized(o.files, cut)
    ensures Sized(Finished(o, cut.sizes).files, cut)
  {
  }

  lemma {:induction false} ProgressSized(input: seq<Entry>, n: nat, oldest: nat, base: UserKey -> bool, cut: Cutting,
                                         first: nat)
    requires n <= |input|
    ensures Sized(ProgressAt(input, n, oldest, base, cut, first).o.files, cut)
  {
    hide Kept, Pass, Finished, Added, Sized;
    if n == 0 {
      NoneSized(cut);
    } else {
      ProgressSized(input, n - 1, oldest, base, cut, first);
      var p, e := ProgressAt(input, n - 1, oldest, base, cut, first), input[n - 1];
      FinishedSized(p.o, cut);
      AddedFiles(p.o, e);
      AddedFiles(Finished(p.o, cut.sizes), e);
      FinishedSized(Added(p.o, e), cut);
      FinishedSized(Added(Finished(p.o, cut.sizes), e), cut);
    }
  }

  lemma NoneSized(cut: Cutting)
    ensures Sized([], cut)
  {
  }

  /** Every table of a merge is recorded with its own size. */
  lemma TablesSized(input: seq<Entry>, oldest: nat, base: UserKey -> bool, cut: Cutting, first: nat)
    ensures forall f :: f in TablesOf(input, oldest, base, cut, first) ==> f.size == cut.sizes.finished(f.entries)
  {
    ProgressSized(input, |input|, oldest, base, cut, first);
    FinishedSized(ProgressAt(input, |input|, oldest, base, cut, first).o, cut);
  }

  // ------------------------------------------------------- few tables are short

  /** How many tables have not reached the size limit. */
  ghost function ShortOnes(fs: seq<File>, cut: Cutting): nat {
    if fs == [] then 0
    else ShortOnes(fs[..|fs| - 1], cut)
         + if cut.sizes.soFar(fs[|fs| - 1].entries) < cut.maxOutputFileSize then 1 else 0
  }

  /** Each short table is paid for by more than the limit of grandparents passed. */
  ghost predicate ShortPaid(o: Outputs, cut: Cutting, at: Overlap)
    requires at.index <= |cut.grandparents|
  {
    ShortOnes(o.files, cut) * (cut.maxGrandParentOverlap + 1) + at.bytes
    <= SizeOfRange(cut.grandparents, 0, at.index)
  }

  lemma ShortSnoc(fs: seq<File>, f: File, cut: Cutting)
    ensures ShortOnes(fs, cut) <= ShortOnes(fs + [f], cut) <= ShortOnes(fs, cut) + 1
    ensures cut.sizes.soFar(f.entries) >= cut.maxOutputFileSize ==> ShortOnes(fs + [f], cut) == ShortOnes(fs, cut)
  {
    assert (fs + [f])[..|fs|] == fs;
  }

  lemma FinishedShort(o: Outputs, cut: Cutting)
    ensures ShortOnes(Finished(o, cut.sizes).files, cut) <= ShortOnes(o.files, cut) + 1
    ensures o.b.Open? && cut.sizes.soFar(o.b.entries) >= cut.maxOutputFileSize ==>
              ShortOnes(Finished(o, cut.sizes).files, cut) == ShortOnes(o.files, cut)
  {
    if o.b.Open? {
      var f := File(o.b.number, cut.sizes.finished(o.b.entries), o.b.smallest, o.b.largest, o.b.entries);
      ShortSnoc(o.files, f, cut);
    }
  }

  lemma AddedFiles(o: Outputs, e: Entry)
    ensures Added(o, e).files == o.files && Added(o, e).b.Open?
  {
  }

  lemma MoreTimes(a: nat, b: nat, m: nat)
    requires a <= b
    ensures a * m <= b * m
  {
    assert b * m == a * m + (b - a) * m;
  }

  /** A stop pays for one more short table. */
  lemma OneMorePaid(s: nat, s2: nat, limit: nat, bytes: nat, more: nat, all: nat)
    requires s * (limit + 1) + bytes <= all && s2 <= s + 1 && bytes + more > limit
    ensures s2 * (limit + 1) <= all + more
  {
    assert (s + 1) * (limit + 1) == s * (limit + 1) + limit + 1;
    MoreTimes(s2, s + 1, limit + 1);
  }

  lemma AdvancedShort(p: Progress, e: Entry, kept: bool, cut: Cutting)
    requires p.overlap.index <= |cut.grandparents| && ShortPaid(p.o, cut, p.overlap)
    ensures ShortPaid(Advanced(p, e, kept, cut).o, cut, Advanced(p, e, kept, cut).overlap)
  {
    hide Finished, Added, ShortOnes, FirstNotBefore, SizeOfRange;
    var gs, limit := cut.grandparents, cut.maxGrandParentOverlap;
    var pass := Pass(gs, limit, p.overlap, e.key);
    var i := FirstNotBefore(gs, p.overlap.index, e.key);
    RangeSplits(gs, 0, p.overlap.index, i);
    var o := if pass.1 then Finished(p.o, cut.sizes) else p.o;
    FinishedShort(p.o, cut);
    if pass.1 {
      OneMorePaid(ShortOnes(p.o.files, cut), ShortOnes(o.files, cut), limit, p.overlap.bytes,
                  if p.overlap.seen then SizeOfRange(gs, p.overlap.index, i) else 0,
                  SizeOfRange(gs, 0, p.overlap.index));
    }
    AddedFiles(o, e);
    FinishedShort(Added(o, e), cut);
  }

  lemma {:induction false} ProgressShort(input: seq<Entry>, n: nat, oldest: nat, base: UserKey -> bool, cut: Cutting,
                                         first: nat)
    requires n <= |input|
    ensures var p := ProgressAt(input, n, oldest, base, cut, first); ShortPaid(p.o, cut, p.overlap)
  {
    hide Kept, Advanced;
    if n > 0 {
      ProgressShort(input, n - 1, oldest, base, cut, first);
      AdvancedShort(ProgressAt(input, n - 1, oldest, base, cut, first), input[n - 1],
                    Kept(Elems(input), oldest, base, input[n - 1]), cut);
    }
  }

  lemma RangeWhole(fs: seq<File>, i: nat)
    requires i <= |fs|
    ensures SizeOfRange(fs, 0, i) <= SizeOfRange(fs, 0, |fs|)
  {
    RangeSplits(fs, 0, i, |fs|);
  }

  lemma LastMayBeShort(s: nat, s2: nat, limit: nat, bytes: nat, part: nat, all: nat)
    requires s * (limit + 1) + bytes <= part <= all && s2 <= s + 1
    ensures s2 > 0 ==> (s2 - 1) * (limit + 1) <= all
  {
    if s2 > 0 {
      MoreTimes(s2 - 1, s, limit + 1);
    }
  }

  /**
   * Tables are not cut for nothing: but for the last one, each table short of the size limit takes
   * more than the limit of grandparents for itself.
   */
  lemma FewTablesShort(input: seq<Entry>, oldest: nat, base: UserKey -> bool, cut: Cutting, first: nat)
    ensures var s := ShortOnes(TablesOf(input, oldest, base, cut, first), cut);
            s > 0 ==>
              (s - 1) * (cut.maxGrandParentOverlap + 1) <= SizeOfRange(cut.grandparents, 0, |cut.grandparents|)
  {
    hide Finished, ProgressAt, SizeOfRange, ShortOnes;
    var p := ProgressAt(input, |input|, oldest, base, cut, first);
    ProgressShort(input, |input|, oldest, base, cut, first);
    FinishedShort(p.o, cut);
    RangeWhole(cut.grandparents, p.overlap.index);
    LastMayBeShort(ShortOnes(p.o.files, cut), ShortOnes(TablesOf(input, oldest, base, cut, first), cut),
                   cut.maxGrandParentOverlap, p.overlap.bytes, SizeOfRange(cut.grandparents, 0, p.overlap.index),
                   SizeOfRange(cut.grandparents, 0, |cut.grandparents|));
  }
}
