/** How a compaction chooses its input files. */
module InputSelection {
  import opened Wrappers
  import opened Keys
  import opened Lsm

  // ---------------------------------------------------- overlapping files

  /** `f` shares a user key with the range; a missing bound is unbounded. */
  predicate Overlaps(f: File, begin: Option<UserKey>, end: Option<UserKey>) {
    (begin.Some? ==> begin.value <= f.largest.user) && (end.Some? ==> f.smallest.user <= end.value)
  }

  predicate Within(f: File, begin: Option<UserKey>, end: Option<UserKey>) {
    (begin.Some? ==> begin.value <= f.smallest.user) && (end.Some? ==> f.largest.user <= end.value)
  }

  function Overlapping(fs: seq<File>, begin: Option<UserKey>, end: Option<UserKey>): (r: seq<File>)
    ensures forall f :: f in r <==> f in fs && Overlaps(f, begin, end)
  {
    if fs == [] then []
    else
      var init := Overlapping(fs[..|fs| - 1], begin, end);
      var last := fs[|fs| - 1];
      assert forall f :: f in fs <==> f in fs[..|fs| - 1] || f == last;
      if Overlaps(last, begin, end) then init + [last] else init
  }

  /** No file sticks out of the range it overlaps. */
  ghost predicate Closed(fs: seq<File>, begin: Option<UserKey>, end: Option<UserKey>) {
    forall f :: f in fs && Overlaps(f, begin, end) ==> Within(f, begin, end)
  }

  /** The range [`b`, `e`] contains the range [`begin`, `end`]. */
  predicate Covers(b: Option<UserKey>, e: Option<UserKey>, begin: Option<UserKey>, end: Option<UserKey>) {
    && (b.Some? ==> begin.Some? && b.value <= begin.value)
    && (e.Some? ==> end.Some? && end.value <= e.value)
  }

  /** Files sticking out of the range, once for each side: what every restart reduces. */
  ghost function Outside(fs: seq<File>, begin: Option<UserKey>, end: Option<UserKey>): nat {
    if fs == [] then 0
    else
      (if begin.Some? && fs[0].smallest.user < begin.value then 1 else 0)
      + (if end.Some? && end.value < fs[0].largest.user then 1 else 0)
      + Outside(fs[1..], begin, end)
  }

  lemma {:induction false} WiderFewerOutside(fs: seq<File>, b: Option<UserKey>, e: Option<UserKey>,
                                             begin: Option<UserKey>, end: Option<UserKey>)
    requires Covers(b, e, begin, end)
    ensures Outside(fs, b, e) <= Outside(fs, begin, end)
  {
    if fs != [] {
      WiderFewerOutside(fs[1..], b, e, begin, end);
    }
  }

  lemma {:induction false} RestartShrinks(fs: seq<File>, i: nat, b: Option<UserKey>, e: Option<UserKey>,
                                          begin: Option<UserKey>, end: Option<UserKey>)
    requires Covers(b, e, begin, end) && i < |fs|
    requires !Within(fs[i], begin, end)
    requires begin.Some? && fs[i].smallest.user < begin.value ==> b == Some(fs[i].smallest.user) && e == end
    requires !(begin.Some? && fs[i].smallest.user < begin.value) ==> b == begin && e == Some(fs[i].largest.user)
    ensures Outside(fs, b, e) < Outside(fs, begin, end)
  {
    if i == 0 {
      WiderFewerOutside(fs[1..], b, e, begin, end);
    } else {
      RestartShrinks(fs[1..], i - 1, b, e, begin, end);
    }
  }

  /** Every closed range that contains the given one contains [`lo`, `hi`]. */
  ghost predicate Least(fs: seq<File>, begin: Option<UserKey>, end: Option<UserKey>, lo: Option<UserKey>,
                        hi: Option<UserKey>)
  {
    forall b, e :: Covers(b, e, begin, end) && Closed(fs, b, e) ==> Covers(b, e, lo, hi)
  }

  /** The range whose files are taken: at level 0 the least closed one around the given range. */
  ghost predicate RangeFor(level: nat, fs: seq<File>, begin: Option<UserKey>, end: Option<UserKey>,
                           lo: Option<UserKey>, hi: Option<UserKey>)
  {
    && Covers(lo, hi, begin, end) && Least(fs, begin, end, lo, hi)
    && if level == 0 then Closed(fs, lo, hi) else lo == begin && hi == end
  }

  /** `r` lists the files a request for the given range is about. */
  ghost predicate RangeInputs(level: nat, fs: seq<File>, begin: Option<UserKey>, end: Option<UserKey>, r: seq<File>) {
    exists lo, hi :: RangeFor(level, fs, begin, end, lo, hi) && r == Overlapping(fs, lo, hi)
  }

  /** Growing the range to take in a file it overlaps does not make it more than necessary. */
  lemma WidenedIsLeast(fs: seq<File>, f: File, begin: Option<UserKey>, end: Option<UserKey>, lo: Option<UserKey>,
                       hi: Option<UserKey>)
    requires f in fs && Overlaps(f, lo, hi) && Least(fs, begin, end, lo, hi)
    ensures lo.Some? ==> Least(fs, begin, end, if f.smallest.user < lo.value then Some(f.smallest.user) else lo, hi)
    ensures hi.Some? ==> Least(fs, begin, end, lo, if hi.value < f.largest.user then Some(f.largest.user) else hi)
  {
    forall b, e | Covers(b, e, begin, end) && Closed(fs, b, e)
      ensures Covers(b, e, lo, hi) && Within(f, b, e)
    {
      assert Overlaps(f, b, e);
    }
  }

  /** One more file examined. */
  lemma TakeOrLeave(fs: seq<File>, i: nat, lo: Option<UserKey>, hi: Option<UserKey>)
    requires i < |fs|
    ensures Overlapping(fs[..i + 1], lo, hi)
            == Overlapping(fs[..i], lo, hi) + if Overlaps(fs[i], lo, hi) then [fs[i]] else []
    ensures Closed(fs[..i], lo, hi) && (Overlaps(fs[i], lo, hi) ==> Within(fs[i], lo, hi))
            ==> Closed(fs[..i + 1], lo, hi)
  {
    assert fs[..i + 1][..i] == fs[..i] && fs[..i + 1] == fs[..i] + [fs[i]];
  }

  /** All files of a level that overlap the range; at level 0 the range first grows until it is closed. */
  method GetOverlappingInputs(level: nat, fs: seq<File>, begin: Option<UserKey>, end: Option<UserKey>)
    returns (inputs: seq<File>, ghost lo: Option<UserKey>, ghost hi: Option<UserKey>)
    ensures inputs == Overlapping(fs, lo, hi) && RangeFor(level, fs, begin, end, lo, hi)
  {
    var userBegin, userEnd := begin, end;
    inputs := [];
    var i := 0;
    while i < |fs|
      invariant i <= |fs|
      invariant inputs == Overlapping(fs[..i], userBegin, userEnd)
      invariant level > 0 ==> userBegin == begin && userEnd == end
      invariant level == 0 ==> Closed(fs[..i], userBegin, userEnd)
      invariant Covers(userBegin, userEnd, begin, end) && Least(fs, begin, end, userBegin, userEnd)
      decreases Outside(fs, userBegin, userEnd), |fs| - i
    {
      var f := fs[i];
      TakeOrLeave(fs, i, userBegin, userEnd);
      i := i + 1;
      if userBegin.Some? && f.largest.user < userBegin.value {
      } else if userEnd.Some? && userEnd.value < f.smallest.user {
      } else {
        inputs := inputs + [f];
        if level == 0 {
          WidenedIsLeast(fs, f, begin, end, userBegin, userEnd);
          if userBegin.Some? && f.smallest.user < userBegin.value {
            RestartShrinks(fs, i - 1, Some(f.smallest.user), userEnd, userBegin, userEnd);
            userBegin := Some(f.smallest.user);
            inputs, i := [], 0;
          } else if userEnd.Some? && userEnd.value < f.largest.user {
            RestartShrinks(fs, i - 1, userBegin, Some(f.largest.user), userBegin, userEnd);
            userEnd := Some(f.largest.user);
            inputs, i := [], 0;
          }
        }
      }
    }
    assert fs[..i] == fs;
    lo, hi := userBegin, userEnd;
  }

  // -------------------------------------------------------------- ranges

  function RangeLo(fs: seq<File>): (r: UserKey)
    requires fs != []
    ensures forall f :: f in fs ==> r <= f.smallest.user
    ensures exists f :: f in fs && r == f.smallest.user
  {
    if |fs| == 1 then
      assert fs[0] in fs;
      fs[0].smallest.user
    else
      var rest := RangeLo(fs[1..]);
      assert fs == [fs[0]] + fs[1..];
      if fs[0].smallest.user < rest then fs[0].smallest.user else rest
  }

  function RangeHi(fs: seq<File>): (r: UserKey)
    requires fs != []
    ensures forall f :: f in fs ==> f.largest.user <= r
    ensures exists f :: f in fs && r == f.largest.user
  {
    if |fs| == 1 then
      assert fs[0] in fs;
      fs[0].largest.user
    else
      var rest := RangeHi(fs[1..]);
      assert fs == [fs[0]] + fs[1..];
      if fs[0].largest.user > rest then fs[0].largest.user else rest
  }

  /** `k` is the smallest start key of the files. */
  ghost predicate IsSmallest(fs: seq<File>, k: InternalKey) {
    (exists f :: f in fs && f.smallest == k) && forall f :: f in fs ==> !Less(f.smallest, k)
  }

  ghost predicate IsLargest(fs: seq<File>, k: InternalKey) {
    (exists f :: f in fs && f.largest == k) && forall f :: f in fs ==> !Less(k, f.largest)
  }

  function LargestOf(fs: seq<File>): (k: InternalKey)
    requires fs != []
    ensures IsLargest(fs, k)
  {
    var init := fs[..|fs| - 1];
    var last := fs[|fs| - 1];
    assert fs == init + [last] && last in fs;
    if init == [] || Less(LargestOf(init), last.largest) then last.largest else LargestOf(init)
  }

  lemma LargestIsOne(fs: seq<File>, k: InternalKey)
    requires fs != [] && IsLargest(fs, k)
    ensures k == LargestOf(fs)
  {
  }

  method GetRange(inputs: seq<File>) returns (smallest: InternalKey, largest: InternalKey)
    requires inputs != []
    ensures IsSmallest(inputs, smallest) && IsLargest(inputs, largest)
    ensures smallest.user == RangeLo(inputs) && largest.user == RangeHi(inputs)
  {
    smallest, largest := inputs[0].smallest, inputs[0].largest;
    ghost var si, li := 0, 0;
    for i := 0 to |inputs|
      invariant 0 <= si < |inputs| && inputs[si].smallest == smallest
      invariant 0 <= li < |inputs| && inputs[li].largest == largest
      invariant forall j :: 0 <= j < i ==> !Less(inputs[j].smallest, smallest)
      invariant forall j :: 0 <= j < i ==> !Less(largest, inputs[j].largest)
    {
      var f := inputs[i];
      if Less(f.smallest, smallest) {
        smallest, si := f.smallest, i;
      }
      if Less(largest, f.largest) {
        largest, li := f.largest, i;
      }
    }
    assert inputs[si] in inputs && inputs[li] in inputs;
  }

  method GetRange2(inputs1: seq<File>, inputs2: seq<File>) returns (smallest: InternalKey, largest: InternalKey)
    requires inputs1 != []
    ensures smallest.user == RangeLo(inputs1 + inputs2) && largest.user == RangeHi(inputs1 + inputs2)
  {
    smallest, largest := GetRange(inputs1 + inputs2);
  }

  // ------------------------------------------------------ boundary files

  method FindLargestKey(files: seq<File>) returns (largest: Option<InternalKey>)
    ensures largest.None? <==> files == []
    ensures largest.Some? ==> IsLargest(files, largest.value)
  {
    if files == [] {
      return None;
    }
    var k := files[0].largest;
    assert files[0] in files;
    for i := 1 to |files|
      invariant exists f :: f in files && f.largest == k
      invariant forall j :: 0 <= j < i ==> !Less(k, files[j].largest)
    {
      assert files[i] in files;
      if Less(k, files[i].largest) {
        k := files[i].largest;
      }
    }
    largest := Some(k);
  }

  /** `f` continues the user key at which `largest` ends. */
  predicate Continues(f: File, largest: InternalKey) {
    Less(largest, f.smallest) && f.smallest.user == largest.user
  }

  method FindSmallestBoundaryFile(levelFiles: seq<File>, largest: InternalKey) returns (r: Option<File>)
    ensures r.None? <==> forall f :: f in levelFiles ==> !Continues(f, largest)
    ensures r.Some? ==> IsBoundary(levelFiles, r.value, largest)
  {
    r := None;
    for i := 0 to |levelFiles|
      invariant r.None? <==> forall j :: 0 <= j < i ==> !Continues(levelFiles[j], largest)
      invariant r.Some? ==> r.value in levelFiles && Continues(r.value, largest)
      invariant r.Some? ==> forall j :: 0 <= j < i && Continues(levelFiles[j], largest) ==>
                  !Less(levelFiles[j].smallest, r.value.smallest)
    {
      var f := levelFiles[i];
      if Less(largest, f.smallest) && f.smallest.user == largest.user {
        if r.None? || Less(f.smallest, r.value.smallest) {
          r := Some(f);
        }
      }
    }
  }

  /** `b` is the first file of the level continuing the user key of `largest`. */
  ghost predicate IsBoundary(levelFiles: seq<File>, b: File, largest: InternalKey) {
    && b in levelFiles && Continues(b, largest)
    && forall f :: f in levelFiles && Continues(f, largest) ==> !Less(f.smallest, b.smallest)
  }

  /** Files starting after `largest`: what every added boundary file reduces. */
  ghost function StartingAfter(fs: seq<File>, largest: InternalKey): nat {
    if fs == [] then 0 else (if Less(largest, fs[0].smallest) then 1 else 0) + StartingAfter(fs[1..], largest)
  }

  lemma {:induction false} FewerStartAfter(fs: seq<File>, f: File, k0: InternalKey, k1: InternalKey)
    requires f in fs && Less(k0, f.smallest) && !Less(k1, f.smallest)
    ensures StartingAfter(fs, k1) < StartingAfter(fs, k0)
  {
    if f == fs[0] {
      NoMoreStartAfter(fs[1..], k0, k1, f);
    } else {
      FewerStartAfter(fs[1..], f, k0, k1);
    }
  }

  lemma {:induction false} NoMoreStartAfter(fs: seq<File>, k0: InternalKey, k1: InternalKey, f: File)
    requires Less(k0, f.smallest) && !Less(k1, f.smallest)
    ensures StartingAfter(fs, k1) <= StartingAfter(fs, k0)
  {
    if fs != [] {
      NoMoreStartAfter(fs[1..], k0, k1, f);
    }
  }

  /** Appends the files that continue the top user key, one after the other. */
  method AddBoundaryInputs(levelFiles: seq<File>, files: seq<File>) returns (r: seq<File>)
    requires FilesOk(levelFiles)
    ensures BoundaryAdded(levelFiles, files, r)
  {
    r := files;
    var largest := FindLargestKey(files);
    if largest.None? {
      return;
    }
    var k := largest.value;
    var searching := true;
    while searching
      invariant ChainedOnto(levelFiles, files, r) && IsLargest(r, k)
      invariant !searching ==> forall f :: f in levelFiles ==> !Continues(f, k)
      decreases StartingAfter(levelFiles, k), searching
    {
      var b := FindSmallestBoundaryFile(levelFiles, k);
      if b.Some? {
        ChainGrows(levelFiles, files, r, k, b.value);
        FewerStartAfter(levelFiles, b.value, k, b.value.largest);
        r := r + [b.value];
        k := b.value.largest;
      } else {
        searching := false;
      }
    }
  }

  /** `r` is `files` followed by all files that continue the top user key, each the smallest one possible. */
  ghost predicate BoundaryAdded(levelFiles: seq<File>, files: seq<File>, r: seq<File>) {
    && files <= r
    && (forall f :: f in r ==> f in files || f in levelFiles)
    && (forall i :: |files| <= i < |r| ==> i > 0 && Chained(levelFiles, r, i))
    && forall k :: IsLargest(r, k) ==> forall f :: f in levelFiles ==> !Continues(f, k)
  }

  /** `r` is `files` followed by a chain of boundary files. */
  ghost predicate ChainedOnto(levelFiles: seq<File>, files: seq<File>, r: seq<File>) {
    && files != [] && files <= r
    && (forall f :: f in r ==> f in files || f in levelFiles)
    && forall i :: |files| <= i < |r| ==> i > 0 && Chained(levelFiles, r, i)
  }

  lemma ChainGrows(levelFiles: seq<File>, files: seq<File>, r: seq<File>, k: InternalKey, b: File)
    requires FilesOk(levelFiles) && ChainedOnto(levelFiles, files, r) && IsLargest(r, k) && IsBoundary(levelFiles, b, k)
    ensures ChainedOnto(levelFiles, files, r + [b]) && IsLargest(r + [b], b.largest)
    ensures Less(k, b.smallest) && !Less(b.largest, b.smallest)
  {
    FileSpan(b);
    forall i | |files| <= i <= |r|
      ensures Chained(levelFiles, r + [b], i)
    {
      assert (r + [b])[..i] == r[..i] && r[..|r|] == r;
      assert i < |r| ==> Chained(levelFiles, r, i);
    }
    var grown := r + [b];
    assert grown[|r|] == b && b in grown && grown[..|r|] == r && grown[..|files|] == r[..|files|];
    assert forall f :: f in grown ==> f in r || f == b;
    forall f | f in grown
      ensures !Less(b.largest, f.largest)
    {
      assert f in r || f == b;
    }
  }

  /** Element `i` is the smallest file continuing the largest key of the elements before it. */
  ghost predicate Chained(levelFiles: seq<File>, r: seq<File>, i: nat) {
    i < |r| && exists k :: IsLargest(r[..i], k) && IsBoundary(levelFiles, r[i], k)
  }
}
