/** Setting up a compaction: what its two input sets are guaranteed to look like. */
module Compactions {
  import opened Wrappers
  import opened Keys
  import opened Lsm
  import opened InputSelection

  /** The inputs a compaction of `level` may work on. */
  ghost predicate CompactionOk(v: Version, level: nat, in0: seq<File>, in1: seq<File>) {
    && level + 1 < NUM_LEVELS == |v.levels| && in0 != []
    && (forall f :: f in in0 ==> f in v.levels[level])
    // Whatever stays behind at the level is newer, key by key, than what moves down.
    && (forall f, g :: f in in0 && g in v.levels[level] && g !in in0 ==> Newer(g, f))
    && in1 == Overlapping(v.levels[level + 1], Some(RangeLo(in0)), Some(RangeHi(in0)))
  }

  /** The starting set: a closed set at level 0, a run of adjacent files below. */
  ghost predicate StartOk(level: nat, fs: seq<File>, in0: seq<File>) {
    in0 != [] && if level == 0 then IsClosedSet(fs, in0) else IsSlice(fs, in0)
  }

  ghost predicate IsClosedSet(fs: seq<File>, in0: seq<File>) {
    exists lo, hi :: in0 == Overlapping(fs, lo, hi) && Closed(fs, lo, hi)
  }

  ghost predicate IsSlice(fs: seq<File>, in0: seq<File>) {
    exists i, j :: 0 <= i <= j <= |fs| && in0 == fs[i..j]
  }

  /** The user key the run ends with does not continue into the next file. */
  ghost predicate BoundaryClosed(fs: seq<File>, in0: seq<File>) {
    forall k :: IsLargest(in0, k) ==> forall f :: f in fs ==> !Continues(f, k)
  }

  // -------------------------------------------------- runs of a sorted level

  lemma LevelOrder(fs: seq<File>, i: nat, j: nat)
    requires LevelOk(1, fs) && i < j < |fs|
    ensures Before(fs[i].largest, fs[j].smallest)
    ensures Before(fs[i].largest, fs[j].largest) && Before(fs[i].smallest, fs[j].smallest)
  {
    assert FileOk(fs[i]) && FileOk(fs[j]);
    FileSpan(fs[i]);
    FileSpan(fs[j]);
  }

  lemma OverlapConvex(fs: seq<File>, a: nat, b: nat, c: nat, begin: Option<UserKey>, end: Option<UserKey>)
    requires LevelOk(1, fs) && a < b < c < |fs|
    requires Overlaps(fs[a], begin, end) && Overlaps(fs[c], begin, end)
    ensures Overlaps(fs[b], begin, end)
  {
    LevelOrder(fs, a, b);
    LevelOrder(fs, b, c);
  }

  /** `i` and `j` bound the files of the level that overlap the range. */
  ghost predicate OverlapRun(fs: seq<File>, begin: Option<UserKey>, end: Option<UserKey>, i: nat, j: nat) {
    i <= j <= |fs| && forall k :: 0 <= k < |fs| ==> (Overlaps(fs[k], begin, end) <==> i <= k < j)
  }

  lemma ExtendRun(fs: seq<File>, begin: Option<UserKey>, end: Option<UserKey>, i: nat, j: nat)
      returns (i2: nat, j2: nat)
    requires LevelOk(1, fs) && fs != [] && OverlapRun(fs[..|fs| - 1], begin, end, i, j)
    ensures OverlapRun(fs, begin, end, i2, j2)
    ensures fs[i2..j2] == if Overlaps(fs[|fs| - 1], begin, end) then fs[i..j] + [fs[|fs| - 1]] else fs[i..j]
  {
    var n := |fs| - 1;
    forall k | 0 <= k < n
      ensures Overlaps(fs[k], begin, end) <==> i <= k < j
    {
      assert fs[..n][k] == fs[k];
    }
    i2, j2 := i, j;
    if Overlaps(fs[n], begin, end) {
      i2, j2 := if i == j then n else i, |fs|;
      if i < j < n {
        OverlapConvex(fs, j - 1, j, n, begin, end);
      }
      assert i < j ==> j == n;
      assert fs[i2..j2] == fs[i2..n] + [fs[n]];
    }
  }

  lemma {:induction false} OverlappingIsSlice(fs: seq<File>, begin: Option<UserKey>, end: Option<UserKey>)
      returns (i: nat, j: nat)
    requires LevelOk(1, fs)
    ensures OverlapRun(fs, begin, end, i, j)
    ensures Overlapping(fs, begin, end) == fs[i..j]
  {
    if fs == [] {
      i, j := 0, 0;
    } else {
      var init := fs[..|fs| - 1];
      assert LevelOk(1, init) by { InitOk(fs); }
      var i0, j0 := OverlappingIsSlice(init, begin, end);
      assert init[i0..j0] == fs[i0..j0];
      i, j := ExtendRun(fs, begin, end, i0, j0);
    }
  }

  lemma InitOk(fs: seq<File>)
    requires LevelOk(1, fs) && fs != []
    ensures LevelOk(1, fs[..|fs| - 1])
  {
  }

  lemma SliceLargest(fs: seq<File>, i: nat, j: nat, k: InternalKey)
    requires LevelOk(1, fs) && i < j <= |fs|
    ensures IsLargest(fs[i..j], k) <==> k == fs[j - 1].largest
  {
    var r := fs[i..j];
    assert r[j - 1 - i] == fs[j - 1];
    forall f | f in r
      ensures f == fs[j - 1] || Before(f.largest, fs[j - 1].largest)
    {
      var p :| 0 <= p < |r| && r[p] == f;
      if i + p < j - 1 {
        LevelOrder(fs, i + p, j - 1);
      }
    }
  }

  lemma StartsNoLater(fs: seq<File>, p: nat)
    requires LevelOk(1, fs) && p < |fs|
    ensures forall q :: 0 <= q <= p ==> !Less(fs[p].largest, fs[q].smallest)
  {
    forall q | 0 <= q <= p
      ensures !Less(fs[p].largest, fs[q].smallest)
    {
      assert FileOk(fs[p]) && FileOk(fs[q]);
      FileSpan(fs[p]);
      if q < p {
        LevelOrder(fs, q, p);
      }
    }
  }

  /** The file continuing a run's top user key is the one right after the run. */
  lemma BoundaryIsNext(fs: seq<File>, j: nat, b: File)
    requires LevelOk(1, fs) && 0 < j <= |fs|
    requires IsBoundary(fs, b, fs[j - 1].largest)
    ensures j < |fs| && b == fs[j]
  {
    var q :| 0 <= q < |fs| && fs[q] == b;
    StartsNoLater(fs, j - 1);
    assert j <= q;
    LevelOrder(fs, j - 1, j);
    if j < q {
      LevelOrder(fs, j, q);
      assert fs[j] in fs && Continues(fs[j], fs[j - 1].largest);
    }
  }

  lemma ChainedStep(fs: seq<File>, i: nat, r: seq<File>, n: nat)
    requires LevelOk(1, fs) && 0 < n < |r| && i + n <= |fs| && r[..n] == fs[i..i + n]
    requires Chained(fs, r, n)
    ensures i + n < |fs| && r[n] == fs[i + n]
  {
    hide LevelOk, IsLargest, IsBoundary;
    var k :| IsLargest(r[..n], k) && IsBoundary(fs, r[n], k);
    SliceLargest(fs, i, i + n, k);
    BoundaryIsNext(fs, i + n, r[n]);
  }

  lemma SliceGrows<T>(s: seq<T>, i: nat, r: seq<T>, n: nat)
    requires n < |r| && i + n < |s| && r[..n] == s[i..i + n] && r[n] == s[i + n]
    ensures r[..n + 1] == s[i..i + n + 1]
  {
    assert r[..n + 1] == r[..n] + [r[n]];
    assert s[i..i + n + 1] == s[i..i + n] + [s[i + n]];
  }

  lemma {:induction false} ChainedIsSlice(fs: seq<File>, i: nat, j: nat, r: seq<File>, n: nat)
    requires LevelOk(1, fs) && i < j <= |fs| && fs[i..j] <= r && j - i <= n <= |r|
    requires forall p :: j - i <= p < |r| ==> p > 0 && Chained(fs, r, p)
    ensures i + n <= |fs| && r[..n] == fs[i..i + n]
    decreases n
  {
    hide LevelOk;
    if n > j - i {
      ChainedIsSlice(fs, i, j, r, n - 1);
      ChainedStep(fs, i, r, n - 1);
      SliceGrows(fs, i, r, n - 1);
    } else {
      assert r[..n] == fs[i..j];
    }
  }

  /** Below level 0, adding boundary files keeps the set a run of adjacent files. */
  lemma BoundaryKeepsSlice(fs: seq<File>, files: seq<File>, r: seq<File>)
    requires LevelOk(1, fs) && files != [] && IsSlice(fs, files) && files <= r
    requires forall p :: |files| <= p < |r| ==> p > 0 && Chained(fs, r, p)
    ensures IsSlice(fs, r)
  {
    var i, j :| 0 <= i <= j <= |fs| && files == fs[i..j];
    ChainedIsSlice(fs, i, j, r, |r|);
    assert r[..|r|] == r;
  }

  lemma SliceHas(fs: seq<File>, i: nat, j: nat, q: nat)
    requires i <= q < j <= |fs|
    ensures fs[q] in fs[i..j]
  {
    assert fs[i..j][q - i] == fs[q];
  }

  lemma SliceLeavesNewer(fs: seq<File>, in0: seq<File>, i: nat, j: nat)
    requires LevelOk(1, fs) && i <= j <= |fs| && in0 == fs[i..j] && BoundaryClosed(fs, in0)
    ensures forall f, g :: f in in0 && g in fs && g !in in0 ==> Newer(g, f)
  {
    forall f, g | f in in0 && g in fs && g !in in0
      ensures Newer(g, f)
    {
      var p :| 0 <= p < |in0| && in0[p] == f;
      var q :| 0 <= q < |fs| && fs[q] == g;
      assert f == fs[i + p];
      if i <= q < j {
        SliceHas(fs, i, j, q);
      } else {
        LeftBehindNewer(fs, in0, i, j, i + p, q);
      }
    }
  }

  lemma LeftBehindNewer(fs: seq<File>, in0: seq<File>, i: nat, j: nat, p: nat, q: nat)
    requires LevelOk(1, fs) && i <= p < j <= |fs| && in0 == fs[i..j] && BoundaryClosed(fs, in0)
    requires q < |fs| && !(i <= q < j)
    ensures Newer(fs[q], fs[p])
  {
    var f, g := fs[p], fs[q];
    assert FileOk(f) && FileOk(g);
    forall x, e | x in g.entries && e in f.entries && x.key.user == e.key.user
      ensures x.key.sn > e.key.sn
    {
      if q < i {
        LevelOrder(fs, q, p);
        BeforeFiles(g, f, x, e);
      } else {
        NothingSharedAfter(fs, in0, i, j, p, q, e, x);
      }
    }
  }

  lemma NothingSharedAfter(fs: seq<File>, in0: seq<File>, i: nat, j: nat, p: nat, q: nat, e: Entry, x: Entry)
    requires LevelOk(1, fs) && i <= p < j <= q < |fs| && in0 == fs[i..j] && BoundaryClosed(fs, in0)
    requires e in fs[p].entries && x in fs[q].entries
    ensures e.key.user < x.key.user
  {
    var top := fs[j - 1].largest;
    SliceLargest(fs, i, j, top);
    assert FileOk(fs[p]) && FileOk(fs[q]) && FileOk(fs[j]);
    EntryInRange(fs[p], e);
    EntryInRange(fs[q], x);
    LevelOrder(fs, j - 1, j);
    if p < j - 1 {
      LevelOrder(fs, p, j - 1);
    }
    if j < q {
      LevelOrder(fs, j, q);
    }
    assert fs[j] in fs && !Continues(fs[j], top);
  }

  // ------------------------------------------------------------- level 0

  /** A closed set at level 0 has no boundary files: the chain is empty. */
  lemma ClosedHasNoBoundary(fs: seq<File>, in0: seq<File>, k: InternalKey, f: File)
    requires FilesOk(fs) && IsClosedSet(fs, in0) && IsLargest(in0, k) && f in fs
    ensures !Continues(f, k)
  {
    var lo, hi :| in0 == Overlapping(fs, lo, hi) && Closed(fs, lo, hi);
    var g :| g in in0 && g.largest == k;
    FileSpan(f);
    FileSpan(g);
    if f.smallest.user == k.user {
      assert Within(g, lo, hi) && Overlaps(f, lo, hi);
      assert f in in0 && !Less(k, f.largest);
    }
  }

  lemma ClosedLeavesNewer(fs: seq<File>, in0: seq<File>)
    requires FilesOk(fs) && IsClosedSet(fs, in0)
    ensures forall f, g :: f in in0 && g in fs && g !in in0 ==> Newer(g, f)
  {
    var lo, hi :| in0 == Overlapping(fs, lo, hi) && Closed(fs, lo, hi);
    forall f, g, x, e | f in in0 && g in fs && g !in in0 && x in g.entries && e in f.entries
      ensures x.key.user != e.key.user
    {
      EntryInRange(g, x);
      EntryInRange(f, e);
      assert Within(f, lo, hi) && !Overlaps(g, lo, hi);
    }
  }

  lemma StayersNewer(level: nat, fs: seq<File>, in0: seq<File>)
    requires LevelOk(level, fs) && StartOk(level, fs, in0) && BoundaryClosed(fs, in0)
    ensures forall f, g :: f in in0 && g in fs && g !in in0 ==> Newer(g, f)
    ensures forall f :: f in in0 ==> f in fs
  {
    if level == 0 {
      ClosedLeavesNewer(fs, in0);
    } else {
      var i, j :| 0 <= i <= j <= |fs| && in0 == fs[i..j];
      SliceLeavesNewer(fs, in0, i, j);
    }
  }

  lemma StartIsOk(v: Version, level: nat, in0: seq<File>, in1: seq<File>)
    requires LsmOk(v) && level + 1 < NUM_LEVELS
    requires StartOk(level, v.levels[level], in0) && BoundaryClosed(v.levels[level], in0)
    requires in1 == Overlapping(v.levels[level + 1], Some(RangeLo(in0)), Some(RangeHi(in0)))
    ensures CompactionOk(v, level, in0, in1)
  {
    StayersNewer(level, v.levels[level], in0);
  }

  /** AddBoundaryInputs, on a legal starting set, ends boundary closed and legal. */
  lemma BoundaryKeepsStart(level: nat, fs: seq<File>, files: seq<File>, r: seq<File>)
    requires LevelOk(level, fs) && StartOk(level, fs, files) && files <= r
    requires forall p :: |files| <= p < |r| ==> p > 0 && Chained(fs, r, p)
    ensures StartOk(level, fs, r)
  {
    if level > 0 {
      BoundaryKeepsSlice(fs, files, r);
    } else if |files| < |r| {
      assert Chained(fs, r, |files|);
      var k :| IsLargest(r[..|files|], k) && IsBoundary(fs, r[|files|], k);
      assert r[..|files|] == files;
      ClosedHasNoBoundary(fs, files, k, r[|files|]);
    } else {
      assert r == files;
    }
  }

  lemma OverlappingStarts(level: nat, fs: seq<File>, lo: Option<UserKey>, hi: Option<UserKey>)
    requires LevelOk(level, fs) && (level == 0 ==> Closed(fs, lo, hi))
    requires Overlapping(fs, lo, hi) != []
    ensures StartOk(level, fs, Overlapping(fs, lo, hi))
  {
    if level > 0 {
      var i, j := OverlappingIsSlice(fs, lo, hi);
    }
  }

  // ---------------------------------------------------- SetupOtherInputs

  function TotalFileSize(fs: seq<File>): nat {
    if fs == [] then 0 else TotalFileSize(fs[..|fs| - 1]) + fs[|fs| - 1].size
  }

  /** Sizes add up over lists put together. */
  lemma {:induction false} TotalOfBoth(a: seq<File>, b: seq<File>)
    ensures TotalFileSize(a + b) == TotalFileSize(a) + TotalFileSize(b)
    ensures |b| == 1 ==> TotalFileSize(b) == b[0].size
    decreases |b|
  {
    if b == [] {
      assert a + b == a;
    } else {
      TotalOfBoth(a, b[..|b| - 1]);
      assert (a + b)[..|a + b| - 1] == a + b[..|b| - 1];
    }
  }

  function MaxGrandParentOverlapBytes(maxFileSize: nat): nat { 10 * maxFileSize }

  function ExpandedCompactionByteSizeLimit(maxFileSize: nat): nat { 25 * maxFileSize }

  lemma {:induction false} WiderOverlapsMore(fs: seq<File>, b: Option<UserKey>, e: Option<UserKey>,
                                             begin: Option<UserKey>, end: Option<UserKey>)
    requires Covers(b, e, begin, end)
    ensures |Overlapping(fs, begin, end)| <= |Overlapping(fs, b, e)|
    ensures |Overlapping(fs, begin, end)| == |Overlapping(fs, b, e)|
            ==> Overlapping(fs, begin, end) == Overlapping(fs, b, e)
  {
    if fs != [] {
      WiderOverlapsMore(fs[..|fs| - 1], b, e, begin, end);
    }
  }

  lemma CoveredFilesOverlap(fs: seq<File>, in0: seq<File>, lo: Option<UserKey>, hi: Option<UserKey>)
    requires FilesOk(fs) && in0 != [] && (forall f :: f in in0 ==> f in fs)
    requires Covers(lo, hi, Some(RangeLo(in0)), Some(RangeHi(in0)))
    ensures forall f :: f in in0 ==> f in Overlapping(fs, lo, hi)
  {
    forall f | f in in0
      ensures f in Overlapping(fs, lo, hi)
    {
      FileSpan(f);
    }
  }

  lemma StartInLevel(level: nat, fs: seq<File>, in0: seq<File>)
    requires StartOk(level, fs, in0)
    ensures forall f :: f in in0 ==> f in fs
  {
  }

  /** A set that includes another spans its range. */
  lemma LargerSetCovers(small: seq<File>, big: seq<File>)
    requires small != [] && forall f :: f in small ==> f in big
    ensures big != [] && Covers(Some(RangeLo(big)), Some(RangeHi(big)), Some(RangeLo(small)), Some(RangeHi(small)))
  {
    var lo, hi := RangeLo(small), RangeHi(small);
    var f :| f in small && lo == f.smallest.user;
    var g :| g in small && hi == g.largest.user;
    assert f in big && g in big;
  }

  /** `in0` is a boundary-closed legal set and `in1` what it overlaps one level down. */
  ghost predicate InputsOk(level: nat, fs: seq<File>, below: seq<File>, in0: seq<File>, in1: seq<File>) {
    && StartOk(level, fs, in0) && BoundaryClosed(fs, in0)
    && in1 == Overlapping(below, Some(RangeLo(in0)), Some(RangeHi(in0)))
  }

  /** Boundary files for a starting set. */
  method CloseStart(level: nat, fs: seq<File>, start: seq<File>) returns (r: seq<File>)
    requires LevelOk(level, fs) && StartOk(level, fs, start)
    ensures r != [] && StartOk(level, fs, r) && BoundaryClosed(fs, r) && BoundaryAdded(fs, start, r)
    ensures forall f :: f in start ==> f in r
  {
    r := AddBoundaryInputs(fs, start);
    BoundaryKeepsStart(level, fs, start, r);
  }

  /** `r` is everything of the level in the range of both input sets, with boundary files. */
  ghost predicate IsGrown(level: nat, fs: seq<File>, in0: seq<File>, in1: seq<File>, r: seq<File>)
    requires in0 != []
  {
    exists all :: RangeInputs(level, fs, Some(RangeLo(in0 + in1)), Some(RangeHi(in0 + in1)), all)
        && BoundaryAdded(fs, all, r)
  }

  /** All files of the level inside the range of both input sets. */
  method GrowStart(level: nat, fs: seq<File>, in0: seq<File>, in1: seq<File>) returns (expanded0: seq<File>)
    requires LevelOk(level, fs) && StartOk(level, fs, in0)
    ensures StartOk(level, fs, expanded0) && BoundaryClosed(fs, expanded0)
    ensures forall f :: f in in0 ==> f in expanded0
    ensures IsGrown(level, fs, in0, in1, expanded0)
  {
    var allStart, allLimit := GetRange2(in0, in1);
    ghost var lo, hi;
    var all;
    all, lo, hi := GetOverlappingInputs(level, fs, Some(allStart.user), Some(allLimit.user));
    LargerSetCovers(in0, in0 + in1);
    StartInLevel(level, fs, in0);
    CoveredFilesOverlap(fs, in0, lo, hi);
    assert in0[0] in all;
    OverlappingStarts(level, fs, lo, hi);
    expanded0 := CloseStart(level, fs, all);
    assert RangeInputs(level, fs, Some(RangeLo(in0 + in1)), Some(RangeHi(in0 + in1)), all);
  }

  /** When more files of `level` are taken: more of them, not too many bytes, and no more files one level down. */
  ghost predicate TakesMore(below: seq<File>, in0: seq<File>, in1: seq<File>, expanded0: seq<File>, maxFileSize: nat) {
    && |expanded0| > |in0|
       && TotalFileSize(in1) + TotalFileSize(expanded0) < ExpandedCompactionByteSizeLimit(maxFileSize)
    && |Overlapping(below, Some(RangeLo(expanded0)), Some(RangeHi(expanded0)))| == |in1|
  }

  /** Tries to take more files of `level` without taking more files one level down. */
  method ExpandInputs(level: nat, fs: seq<File>, below: seq<File>, in0: seq<File>, in1: seq<File>, maxFileSize: nat)
    returns (out0: seq<File>, out1: seq<File>, ghost expanded0: seq<File>)
    requires LevelOk(level, fs) && InputsOk(level, fs, below, in0, in1)
    ensures InputsOk(level, fs, below, out0, out1)
    ensures out1 == in1 && forall f :: f in in0 ==> f in out0
    ensures in1 != [] ==> IsGrown(level, fs, in0, in1, expanded0)
    ensures out0 == if in1 != [] && TakesMore(below, in0, in1, expanded0, maxFileSize) then expanded0 else in0
  {
    hide LevelOk, StartOk, BoundaryClosed, TotalFileSize, RangeFor;
    out0, out1, expanded0 := in0, in1, [];
    if in1 == [] {
      return;
    }
    var expanded := GrowStart(level, fs, in0, in1);
    expanded0 := expanded;
    if |expanded| > |in0|
       && TotalFileSize(in1) + TotalFileSize(expanded) < ExpandedCompactionByteSizeLimit(maxFileSize) {
      var newStart, newLimit := GetRange(expanded);
      ghost var lo, hi;
      var expanded1;
      expanded1, lo, hi := GetOverlappingInputs(level + 1, below, Some(newStart.user), Some(newLimit.user));
      if |expanded1| == |in1| {
        LargerSetCovers(in0, expanded);
        WiderOverlapsMore(below, lo, hi, Some(RangeLo(in0)), Some(RangeHi(in0)));
        out0, out1 := expanded, expanded1;
      }
    }
  }

  /** The inputs chosen for a starting set. */
  ghost predicate Selected(level: nat, fs: seq<File>, below: seq<File>, start: seq<File>, maxFileSize: nat,
                           in0: seq<File>, in1: seq<File>)
  {
    exists closed, expanded :: SelectedBy(level, fs, below, start, maxFileSize, closed, expanded, in0, in1)
  }

  /** `closed` is the starting set with its boundary files, `expanded` what it could grow to. */
  ghost predicate SelectedBy(level: nat, fs: seq<File>, below: seq<File>, start: seq<File>, maxFileSize: nat,
                             closed: seq<File>, expanded: seq<File>, in0: seq<File>, in1: seq<File>)
  {
    && closed != [] && BoundaryAdded(fs, start, closed)
    && in1 == Overlapping(below, Some(RangeLo(closed)), Some(RangeHi(closed)))
    && (in1 != [] ==> IsGrown(level, fs, closed, in1, expanded))
    && in0 == if in1 != [] && TakesMore(below, closed, in1, expanded, maxFileSize) then expanded else closed
  }

  /** Boundary files, then the overlapping files one level down, then the expansion. */
  method SelectInputs(level: nat, fs: seq<File>, below: seq<File>, start: seq<File>, maxFileSize: nat)
    returns (in0: seq<File>, in1: seq<File>)
    requires LevelOk(level, fs) && StartOk(level, fs, start)
    ensures InputsOk(level, fs, below, in0, in1) && Selected(level, fs, below, start, maxFileSize, in0, in1)
    ensures forall f :: f in start ==> f in in0
  {
    hide StartOk, BoundaryClosed, BoundaryAdded, IsGrown, TakesMore, RangeFor, Overlapping, LevelOk;
    var closed := CloseStart(level, fs, start);
    var smallest, largest := GetRange(closed);
    ghost var lo, hi, expanded;
    in1, lo, hi := GetOverlappingInputs(level + 1, below, Some(smallest.user), Some(largest.user));
    in0, in1, expanded := ExpandInputs(level, fs, below, closed, in1, maxFileSize);
    assert SelectedBy(level, fs, below, start, maxFileSize, closed, expanded, in0, in1);
  }

  /** Files two levels down that a compaction's outputs may overlap. */
  function Grandparents(v: Version, level: nat, in0: seq<File>, in1: seq<File>): seq<File>
    requires |v.levels| == NUM_LEVELS && in0 != []
  {
    if level + 2 < NUM_LEVELS
    then Overlapping(v.levels[level + 2], Some(RangeLo(in0 + in1)), Some(RangeHi(in0 + in1))) else []
  }

  /**
   * Completes a compaction of `level` that starts from `start`: boundary files, the
   * overlapping files one level down, and, when cheap, more files of `level`
   * without touching more files one level down.
   */
  method SetupOtherInputs(v: Version, level: nat, start: seq<File>, maxFileSize: nat)
    returns (in0: seq<File>, in1: seq<File>, grandparents: seq<File>, compactPointer: InternalKey)
    requires LsmOk(v) && level + 1 < NUM_LEVELS && StartOk(level, v.levels[level], start)
    ensures CompactionOk(v, level, in0, in1) && StartOk(level, v.levels[level], in0)
    ensures Selected(level, v.levels[level], v.levels[level + 1], start, maxFileSize, in0, in1)
    ensures forall f :: f in start ==> f in in0
    ensures compactPointer == LargestOf(in0)
    ensures grandparents == Grandparents(v, level, in0, in1)
  {
    assert LevelOk(level, v.levels[level]);
    in0, in1 := SelectInputs(level, v.levels[level], v.levels[level + 1], start, maxFileSize);
    StartIsOk(v, level, in0, in1);
    var allStart, allLimit := GetRange2(in0, in1);
    ghost var lo, hi;
    grandparents := [];
    if level + 2 < NUM_LEVELS {
      grandparents, lo, hi := GetOverlappingInputs(level + 2, v.levels[level + 2], Some(allStart.user),
                                                   Some(allLimit.user));
    }
    allStart, compactPointer := GetRange(in0);
    LargestIsOne(in0, compactPointer);
  }

  // --------------------------------------------------- choosing the start

  /** `r` is a run of files up to the first point where their total size reaches the limit. */
  ghost predicate Truncated(inputs: seq<File>, limit: nat, r: seq<File>) {
    && r != [] && r <= inputs
    && (r != inputs ==> TotalFileSize(r) >= limit)
    && (TotalFileSize(r[..|r| - 1]) < limit || |r| == 1)
  }

  method TruncateToLimit(inputs: seq<File>, limit: nat) returns (r: seq<File>)
    requires inputs != []
    ensures Truncated(inputs, limit, r)
  {
    var total := 0;
    r := inputs;
    var i := 0;
    while i < |inputs|
      invariant i <= |inputs| && r == inputs
      invariant total == TotalFileSize(inputs[..i])
      invariant i > 0 ==> total < limit
    {
      assert inputs[..i + 1][..i] == inputs[..i];
      total := total + inputs[i].size;
      if total >= limit {
        r := inputs[..i + 1];
        return;
      }
      i := i + 1;
    }
    assert inputs[..i] == inputs;
    assert TotalFileSize(r[..|r| - 1]) <= TotalFileSize(r);
  }

  /** The start of a compaction of a range: at level 0 all its files, below no more than the limit. */
  ghost predicate RangeStart(level: nat, fs: seq<File>, begin: Option<UserKey>, end: Option<UserKey>, maxFileSize: nat,
                             start: seq<File>)
  {
    exists all :: RangeInputs(level, fs, begin, end, all)
                  && if level == 0 then start == all else Truncated(all, maxFileSize, start)
  }

  /** Compaction of a user-given range; no inputs when nothing at the level overlaps it. */
  method CompactRangeInputs(v: Version, level: nat, begin: Option<UserKey>, end: Option<UserKey>, maxFileSize: nat)
    returns (start: seq<File>)
    requires LsmOk(v) && level + 1 < NUM_LEVELS
    ensures start == [] <==> forall f :: f in v.levels[level] ==> !Overlaps(f, begin, end)
    ensures start != [] ==>
              StartOk(level, v.levels[level], start)
              && RangeStart(level, v.levels[level], begin, end, maxFileSize, start)
  {
    var fs := v.levels[level];
    assert LevelOk(level, fs);
    ghost var lo, hi;
    start, lo, hi := GetOverlappingInputs(level, fs, begin, end);
    if start == [] {
      assert forall f :: f in fs && Overlaps(f, begin, end) ==> Overlaps(f, lo, hi);
      return;
    }
    OverlappingStarts(level, fs, lo, hi);
    SomethingOverlaps(fs, begin, end, lo, hi);
    ghost var all := start;
    assert RangeInputs(level, fs, begin, end, all);
    if level > 0 {
      start := TruncateToLimit(start, maxFileSize);
      PrefixIsSlice(fs, all, start);
    }
  }

  lemma PrefixIsSlice(fs: seq<File>, all: seq<File>, r: seq<File>)
    requires IsSlice(fs, all) && r <= all
    ensures IsSlice(fs, r)
  {
    var i, j :| 0 <= i <= j <= |fs| && all == fs[i..j];
    assert r == fs[i..i + |r|];
  }

  lemma SomethingOverlaps(fs: seq<File>, begin: Option<UserKey>, end: Option<UserKey>, lo: Option<UserKey>,
                          hi: Option<UserKey>)
    requires FilesOk(fs) && Covers(lo, hi, begin, end) && Overlapping(fs, lo, hi) != []
    requires Least(fs, begin, end, lo, hi)
    ensures exists f :: f in fs && Overlaps(f, begin, end)
  {
    var g := Overlapping(fs, lo, hi)[0];
    assert g in Overlapping(fs, lo, hi);
    if Closed(fs, begin, end) {
      assert Covers(begin, end, lo, hi);
      assert Overlaps(g, begin, end);
    }
  }

  /** Automatic compaction: the first file past the compaction pointer, or the first of all. */
  method PickStart(v: Version, level: nat, pointer: Option<InternalKey>) returns (start: seq<File>)
    requires LsmOk(v) && level + 1 < NUM_LEVELS && v.levels[level] != []
    ensures StartOk(level, v.levels[level], start) && PickedStart(level, v.levels[level], pointer, start)
  {
    var fs := v.levels[level];
    assert LevelOk(level, fs);
    var at := 0;
    var i := 0;
    while i < |fs|
      invariant i <= |fs| && at == 0 && forall j :: 0 <= j < i ==> !IsPast(fs[j], pointer)
    {
      if pointer.None? || Less(pointer.value, fs[i].largest) {
        at := i;
        break;
      }
      i := i + 1;
    }
    start := StartFromFile(level, fs, at);
    assert IsPicked(fs, pointer, at);
  }

  /** The start of an automatic compaction: the picked file, at level 0 with everything it overlaps. */
  ghost predicate PickedStart(level: nat, fs: seq<File>, pointer: Option<InternalKey>, start: seq<File>) {
    exists picked: nat :: IsPicked(fs, pointer, picked) && StartsFrom(level, fs, picked, start)
  }

  ghost predicate StartsFrom(level: nat, fs: seq<File>, picked: nat, start: seq<File>)
    requires picked < |fs|
  {
    if level > 0 then start == [fs[picked]]
    else RangeInputs(0, fs, Some(fs[picked].smallest.user), Some(fs[picked].largest.user), start)
  }

  /** The file ends after the compaction pointer. */
  predicate IsPast(f: File, pointer: Option<InternalKey>) {
    pointer.None? || Less(pointer.value, f.largest)
  }

  /** The first file past the pointer, or the first of all when none is. */
  ghost predicate IsPicked(fs: seq<File>, pointer: Option<InternalKey>, picked: nat) {
    && picked < |fs| && (forall j :: 0 <= j < picked ==> !IsPast(fs[j], pointer))
    && (IsPast(fs[picked], pointer) || (picked == 0 && forall j :: 0 <= j < |fs| ==> !IsPast(fs[j], pointer)))
  }

  /** At level 0 the picked file is replaced by everything it overlaps, directly or not. */
  method StartFromFile(level: nat, fs: seq<File>, picked: nat) returns (start: seq<File>)
    requires LevelOk(level, fs) && picked < |fs|
    ensures StartOk(level, fs, start) && fs[picked] in start && StartsFrom(level, fs, picked, start)
  {
    start := [fs[picked]];
    assert fs[picked..picked + 1] == start;
    if level == 0 {
      var smallest, largest := GetRange(start);
      ghost var lo, hi;
      ghost var picked0 := start;
      start, lo, hi := GetOverlappingInputs(0, fs, Some(smallest.user), Some(largest.user));
      assert smallest.user == fs[picked].smallest.user && largest.user == fs[picked].largest.user;
      CoveredFilesOverlap(fs, picked0, lo, hi);
      assert fs[picked] in picked0;
      OverlappingStarts(0, fs, lo, hi);
    }
  }
}
