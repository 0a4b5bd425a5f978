/** Reading any prefix of a written log: exactly the complete records, in order, with nothing reported. */
module LogRoundTrip {
  import opened PbVarints
  import opened LogLayout
  import opened LogFormat
  import opened LogReader
  import W = LogWriter

  /** `file` is a log of the fragments cut off at some point. */
  ghost predicate CutLog(sums: Sums, fs: seq<Frag>, file: seq<byte>) {
    FragsOk(fs) && AllFit(Physicals(sums, fs)) && file <= File(Physicals(sums, fs))
  }

  /** The place in the file of the next byte the reader will look at. */
  function At(s: Input): int {
    s.filePos - |s.buffer|
  }

  /** The buffer is what lies before `filePos`, within one block, and blocks are read whole. */
  ghost predicate InputOk(file: seq<byte>, s: Input) {
    && s.filePos <= |file| && 0 <= At(s) && s.buffer == file[At(s)..s.filePos]
    && (s.buffer != [] ==> At(s) % BLOCK_SIZE + |s.buffer| <= BLOCK_SIZE)
    && (if s.eof then s.filePos == |file| else s.filePos % BLOCK_SIZE == 0)
  }

  /** The reader stands after the first `k` fragments, or past the zeros that follow them. */
  ghost predicate Stands(ps: seq<seq<byte>>, k: nat, s: Input)
    requires k <= |ps|
  {
    At(s) == Pos(ps, k) || At(s) == Start(Pos(ps, k))
  }

  lemma BlockRest(at: nat, n: nat)
    requires (at + n) % BLOCK_SIZE == 0 && 0 < n && at % BLOCK_SIZE + n <= BLOCK_SIZE
    ensures n == BLOCK_SIZE - at % BLOCK_SIZE
  {
    assert at == at / BLOCK_SIZE * BLOCK_SIZE + at % BLOCK_SIZE;
    assert (at % BLOCK_SIZE + n) % BLOCK_SIZE == 0;
  }

  /** A refill at the end of a block moves from the fragments' end to the next fragment's start. */
  lemma RefillStands(file: seq<byte>, ps: seq<seq<byte>>, k: nat, s: Input)
    requires InputOk(file, s) && k <= |ps| && Stands(ps, k, s) && |s.buffer| < HEADER_SIZE && !s.eof
    ensures InputOk(file, Refill(file, s)) && Stands(ps, k, Refill(file, s))
  {
    var s2 := Refill(file, s);
    assert At(s2) == s.filePos;
    if s.buffer != [] {
      BlockRest(At(s), |s.buffer|);
      assert Start(At(s)) == s.filePos;
    }
    RefillEnds(s.filePos, |file|);
  }

  lemma RefillEnds(filePos: nat, size: nat)
    requires filePos % BLOCK_SIZE == 0 && filePos <= size
    ensures (filePos + Min(BLOCK_SIZE, size - filePos)) % BLOCK_SIZE == 0
            || Min(BLOCK_SIZE, size - filePos) < BLOCK_SIZE
  {
  }

  /** With a header in the buffer the reader stands exactly on physical record `k`. */
  lemma HeaderIsRecord(ps: seq<seq<byte>>, file: seq<byte>, k: nat, s: Input)
    requires AllFit(ps) && file <= File(ps) && InputOk(file, s) && k <= |ps| && Stands(ps, k, s)
    requires |s.buffer| >= HEADER_SIZE
    ensures k < |ps| && At(s) == Start(Pos(ps, k))
  {
    assert |File(ps)| == Pos(ps, |ps|);
  }

  /** A buffer is a window of a cut file, so where it overlaps a piece of the whole file it shows that piece. */
  lemma Window(whole: seq<byte>, size: nat, at: nat, buffer: seq<byte>, piece: seq<byte>, n: nat)
    requires n <= |piece| && n <= |buffer| && at + |buffer| <= size <= |whole| && at + |piece| <= |whole|
    requires buffer == whole[..size][at..at + |buffer|] && piece == whole[at..at + |piece|]
    ensures buffer[..n] == piece[..n] && buffer == piece[..n] + buffer[n..]
  {
    forall i | 0 <= i < n
      ensures buffer[i] == piece[i]
    {
      assert buffer[i] == whole[at + i];
    }
  }

  /** What fits in its block is in the buffer exactly when it is in the file. */
  lemma InBuffer(at: nat, size: nat, n: nat, fileSize: nat, eof: bool)
    requires 0 < size && at % BLOCK_SIZE + size <= BLOCK_SIZE && at % BLOCK_SIZE + n <= BLOCK_SIZE
             && at + size <= fileSize
    requires if eof then at + size == fileSize else (at + size) % BLOCK_SIZE == 0
    ensures at + n <= fileSize <==> n <= size
    ensures n > size ==> eof
  {
    if !eof {
      BlockRest(at, size);
    }
  }

  /**
   * What the buffer shows of a piece of the whole file that starts where the buffer starts and
   * fits in its block: its header, and all of it exactly when the cut file has all of it.
   */
  lemma PieceShows(whole: seq<byte>, file: seq<byte>, at: nat, buffer: seq<byte>, piece: seq<byte>, eof: bool)
    requires file <= whole && at + |piece| <= |whole| && piece == whole[at..at + |piece|]
    requires at + |buffer| <= |file| && buffer == file[at..at + |buffer|]
    requires at % BLOCK_SIZE + |piece| <= BLOCK_SIZE && at % BLOCK_SIZE + |buffer| <= BLOCK_SIZE
    requires if eof then at + |buffer| == |file| else (at + |buffer|) % BLOCK_SIZE == 0
    requires HEADER_SIZE <= |piece| && HEADER_SIZE <= |buffer|
    ensures buffer[..HEADER_SIZE] == piece[..HEADER_SIZE]
    ensures at + |piece| <= |file| ==> |piece| <= |buffer| && buffer == piece + buffer[|piece|..]
    ensures at + |piece| > |file| ==> |piece| > |buffer| && eof
  {
    assert file == whole[..|file|];
    Window(whole, |file|, at, buffer, piece, HEADER_SIZE);
    InBuffer(at, |buffer|, |piece|, |file|, eof);
    if at + |piece| <= |file| {
      Window(whole, |file|, at, buffer, piece, |piece|);
    }
  }

  /** A physical record that is all in the file is all in the buffer. */
  lemma WholeRecord(ps: seq<seq<byte>>, file: seq<byte>, k: nat, s: Input)
    requires AllFit(ps) && file <= File(ps) && InputOk(file, s) && k < |ps| && At(s) == Start(Pos(ps, k))
    requires |s.buffer| >= HEADER_SIZE
    ensures var n := |ps[k]|;
            && (Pos(ps, k + 1) <= |file| ==> n <= |s.buffer| && s.buffer == ps[k] + s.buffer[n..])
            && (Pos(ps, k + 1) > |file| ==> n > |s.buffer| && s.eof)
            && n >= HEADER_SIZE && s.buffer[..HEADER_SIZE] == ps[k][..HEADER_SIZE]
  {
    assert Fits(ps, k);
    RecordAt(ps, k);
    PieceShows(File(ps), file, At(s), s.buffer, ps[k], s.eof);
  }

  lemma HeaderOnly(sums: Sums, f: Frag, b: seq<byte>)
    requires SumsOk(sums) && |f.data| < 65536 && |b| >= HEADER_SIZE
             && b[..HEADER_SIZE] == Physical(sums, f)[..HEADER_SIZE]
    ensures LengthIn(b) == |f.data| && b[6] == f.ty
  {
    PhysicalParses(sums, f, []);
    assert Physical(sums, f) + [] == Physical(sums, f);
    assert b[4] == b[..HEADER_SIZE][4] && b[5] == b[..HEADER_SIZE][5] && b[6] == b[..HEADER_SIZE][6];
  }

  /** The reader refills until it stands on the next physical record, or there is no header left to read. */
  lemma {:induction false} Arrives(sums: Sums, ps: seq<seq<byte>>, file: seq<byte>, k: nat, s: Input) returns (h: Input)
    requires AllFit(ps) && file <= File(ps) && InputOk(file, s) && k <= |ps| && Stands(ps, k, s)
    ensures h.drops == s.drops && InputOk(file, h) && Stands(ps, k, h)
    ensures if |h.buffer| >= HEADER_SIZE
            then k < |ps| && At(h) == Start(Pos(ps, k)) && ReadPhysical(sums, file, s) == Parse(sums, h)
            else ReadPhysical(sums, file, s).1.ty == EOF && ReadPhysical(sums, file, s).0.drops == s.drops
                 && (k < |ps| ==> Pos(ps, k + 1) > |file|)
    decreases |file| - s.filePos, !s.eof
  {
    h := s;
    if |s.buffer| >= HEADER_SIZE {
      HeaderIsRecord(ps, file, k, s);
    } else if s.eof {
      assert k < |ps| ==> Fits(ps, k);
    } else {
      RefillStands(file, ps, k, s);
      h := Arrives(sums, ps, file, k, Refill(file, s));
    }
  }

  /** One physical read returns the next complete fragment, or the end of the file, and reports nothing. */
  lemma PhysicalReads(sums: Sums, fs: seq<Frag>, file: seq<byte>, k: nat, s: Input)
    requires SumsOk(sums) && CutLog(sums, fs, file) && InputOk(file, s) && k <= |fs|
             && Stands(Physicals(sums, fs), k, s)
    ensures var ps := Physicals(sums, fs); var p := ReadPhysical(sums, file, s);
            && p.0.drops == s.drops
            && if k < |fs| && Pos(ps, k + 1) <= |file|
               then p.1 == Fragment(fs[k].ty, fs[k].data) && InputOk(file, p.0) && Stands(ps, k + 1, p.0)
               else p.1.ty == EOF
  {
    var ps := Physicals(sums, fs);
    var h := Arrives(sums, ps, file, k, s);
    if |h.buffer| >= HEADER_SIZE {
      ParseReads(sums, ps, fs[k], file, k, h);
    }
  }

  lemma ParseReads(sums: Sums, ps: seq<seq<byte>>, f: Frag, file: seq<byte>, k: nat, s: Input)
    requires SumsOk(sums) && AllFit(ps) && file <= File(ps)
    requires InputOk(file, s) && k < |ps| && At(s) == Start(Pos(ps, k))
    requires FragOk(f) && ps[k] == Physical(sums, f) && |s.buffer| >= HEADER_SIZE
    ensures var p := Parse(sums, s);
            && p.0.drops == s.drops
            && if Pos(ps, k + 1) <= |file|
               then p.1 == Fragment(f.ty, f.data) && InputOk(file, p.0) && Stands(ps, k + 1, p.0)
               else p.1.ty == EOF
  {
    WholeRecord(ps, file, k, s);
    HeaderOnly(sums, f, s.buffer);
    if Pos(ps, k + 1) <= |file| {
      var n := |Physical(sums, f)|;
      ParseWhole(sums, f, s, s.buffer[n..]);
      Consume(file, s, n);
      RecordAt(ps, k);
    } else {
      ParseCut(sums, f, s);
    }
  }

  lemma Consume(file: seq<byte>, s: Input, n: nat)
    requires InputOk(file, s) && n <= |s.buffer|
    ensures InputOk(file, s.(buffer := s.buffer[n..])) && At(s.(buffer := s.buffer[n..])) == At(s) + n
  {
    RestInBlock(At(s), |s.buffer|, n);
  }

  lemma ParseCut(sums: Sums, f: Frag, s: Input)
    requires |s.buffer| >= HEADER_SIZE && LengthIn(s.buffer) == |f.data| && s.eof && |s.buffer| < HEADER_SIZE + |f.data|
    ensures Parse(sums, s) == (s.(buffer := []), Fragment(EOF, []))
  {
  }

  lemma ParseWhole(sums: Sums, f: Frag, s: Input, rest: seq<byte>)
    requires SumsOk(sums) && FragOk(f) && s.buffer == Physical(sums, f) + rest
    ensures Parse(sums, s) == (s.(buffer := rest), Fragment(f.ty, f.data))
  {
    PhysicalParses(sums, f, rest);
    assert sums.accepts(sums.stored(f.ty, f.data), [f.ty] + f.data);
  }

  lemma RestInBlock(at: nat, size: nat, n: nat)
    requires at % BLOCK_SIZE + size <= BLOCK_SIZE && n <= size
    ensures n < size ==> (at + n) % BLOCK_SIZE + (size - n) <= BLOCK_SIZE
  {
    assert at == at / BLOCK_SIZE * BLOCK_SIZE + at % BLOCK_SIZE;
    if n < size {
      assert (at + n) % BLOCK_SIZE == at % BLOCK_SIZE + n;
    }
  }

  // -------------------------------------------------------- logical records

  /** The fragments of record `g` follow the first `k` ones. */
  ghost predicate Follows(fs: seq<Frag>, k: nat, g: seq<Frag>) {
    k + |g| <= |fs| && fs[k..k + |g|] == g
  }

  /**
   * What the logical level needs to know of the physical one: `at` says that the reader stands
   * after some number of fragments, `whole` that a fragment is all in the file.
   */
  ghost predicate Physically(sums: Sums, fs: seq<Frag>, file: seq<byte>, at: (nat, Input) -> bool, whole: nat -> bool) {
    && (forall k: nat, s: Input :: at(k, s) ==> s.filePos <= |file|)
    && (forall k: nat, s: Input {:trigger OneRead(sums, fs, file, at, whole, k, s)} :: at(k, s) ==>
          OneRead(sums, fs, file, at, whole, k, s))
    && forall k: nat, l: nat :: k <= l && whole(l) ==> whole(k)
  }

  ghost predicate OneRead(sums: Sums, fs: seq<Frag>, file: seq<byte>, at: (nat, Input) -> bool, whole: nat -> bool,
                          k: nat, s: Input)
    requires s.filePos <= |file|
  {
    var p := ReadPhysical(sums, file, s);
    && p.0.drops == s.drops
    && if k < |fs| && whole(k) then p.1 == Fragment(fs[k].ty, fs[k].data) && at(k + 1, p.0) else p.1.ty == EOF
  }

  lemma JoinedSnoc(g: seq<Frag>, j: nat)
    requires j < |g|
    ensures Joined(g[..j + 1]) == Joined(g[..j]) + g[j].data
  {
    assert g[..j + 1][..j] == g[..j];
  }

  lemma JoinedFirst(g: seq<Frag>)
    requires g != []
    ensures Joined(g[..0]) == [] && Joined(g[..1]) == g[0].data
  {
    JoinedSnoc(g, 0);
    assert g[..0] == [];
  }

  /** One round of ReadLogical on a complete fragment of a record. */
  lemma LogicalStep(sums: Sums, file: seq<byte>, s: Input, g: seq<Frag>, data: seq<byte>, j: nat)
    requires s.filePos <= |file| && IsRecord(g, data) && j < |g|
    requires ReadPhysical(sums, file, s).1 == Fragment(g[j].ty, g[j].data)
    ensures ReadLogical(sums, file, s, j > 0, Joined(g[..j]))
         == var s2 := ReadPhysical(sums, file, s).0;
            if j + 1 == |g| then (s2, Record(Joined(g[..j + 1])))
               else ReadLogical(sums, file, s2, true, Joined(g[..j + 1]))
  {
    JoinedFirst(g);
    JoinedSnoc(g, j);
    assert g[j].ty == TypeOf(j, |g|);
  }

  lemma FragmentReads(sums: Sums, fs: seq<Frag>, file: seq<byte>, at: (nat, Input) -> bool, whole: nat -> bool, k: nat,
                      g: seq<Frag>, j: nat, s: Input)
    requires Physically(sums, fs, file, at, whole) && Follows(fs, k, g) && j < |g| && at(k + j, s)
    ensures s.filePos <= |file| && (whole(k + |g| - 1) ==> whole(k + j))
    ensures var p := ReadPhysical(sums, file, s);
            && p.0.drops == s.drops
            && if whole(k + j) then p.1 == Fragment(g[j].ty, g[j].data) && at(k + j + 1, p.0) else p.1.ty == EOF
  {
    assert OneRead(sums, fs, file, at, whole, k + j, s);
    assert fs[k + j] == fs[k..k + |g|][j] == g[j];
  }

  /** At the end of the file a read gives up, also in the middle of a record. */
  lemma LogicalEnd(sums: Sums, file: seq<byte>, s: Input, fragmented: bool, scratch: seq<byte>)
    requires s.filePos <= |file| && ReadPhysical(sums, file, s).1.ty == EOF
    ensures ReadLogical(sums, file, s, fragmented, scratch) == (ReadPhysical(sums, file, s).0, NoRecord)
  {
  }

  /** What a logical read returns when the record is, or is not, all in the file. */
  ghost predicate LogicalResultIs(r: (Input, LogicalResult), data: seq<byte>, at: (nat, Input) -> bool, after: nat,
                                  whole: bool, drops: nat)
  {
    && r.0.drops == drops
    && if whole then r.1 == Record(data) && at(after, r.0) else r.1 == NoRecord
  }

  lemma LastFragmentReads(sums: Sums, fs: seq<Frag>, file: seq<byte>, at: (nat, Input) -> bool, whole: nat -> bool,
                          k: nat, g: seq<Frag>, data: seq<byte>, j: nat, s: Input)
    requires Physically(sums, fs, file, at, whole) && IsRecord(g, data) && Follows(fs, k, g) && j + 1 == |g|
             && at(k + j, s)
    ensures s.filePos <= |file|
    ensures LogicalResultIs(ReadLogical(sums, file, s, j > 0, Joined(g[..j])), data, at, k + |g|, whole(k + |g| - 1),
                            s.drops)
  {
    FragmentReads(sums, fs, file, at, whole, k, g, j, s);
    if whole(k + j) {
      LogicalStep(sums, file, s, g, data, j);
      assert g[..j + 1] == g;
    } else {
      LogicalEnd(sums, file, s, j > 0, Joined(g[..j]));
    }
  }

  /** From fragment `j` of a record on: the record if it is all in the file, otherwise the end. */
  lemma {:induction false} LogicalReads(sums: Sums, fs: seq<Frag>, file: seq<byte>, at: (nat, Input) -> bool,
                                        whole: nat -> bool,
                                        k: nat, g: seq<Frag>, data: seq<byte>, j: nat, s: Input)
    requires Physically(sums, fs, file, at, whole) && IsRecord(g, data) && Follows(fs, k, g) && j < |g| && at(k + j, s)
    ensures s.filePos <= |file|
    ensures LogicalResultIs(ReadLogical(sums, file, s, j > 0, Joined(g[..j])), data, at, k + |g|, whole(k + |g| - 1),
                            s.drops)
    decreases |g| - j
  {
    if j + 1 == |g| {
      LastFragmentReads(sums, fs, file, at, whole, k, g, data, j, s);
    } else {
      FragmentReads(sums, fs, file, at, whole, k, g, j, s);
      if whole(k + j) {
        LogicalStep(sums, file, s, g, data, j);
        var s2, j2 := ReadPhysical(sums, file, s).0, j + 1;
        assert k + j2 == k + j + 1;
        LogicalReads(sums, fs, file, at, whole, k, g, data, j2, s2);
      } else {
        LogicalEnd(sums, file, s, j > 0, Joined(g[..j]));
      }
    }
  }

  lemma RecordFrom(sums: Sums, fs: seq<Frag>, file: seq<byte>, at: (nat, Input) -> bool, whole: nat -> bool,
                   k: nat, g: seq<Frag>, data: seq<byte>, s: Input, last: nat, next: nat)
    requires Physically(sums, fs, file, at, whole) && IsRecord(g, data) && Follows(fs, k, g) && at(k, s)
    requires next == k + |g| == last + 1
    ensures s.filePos <= |file|
    ensures var r := ReadLogical(sums, file, s, false, []);
            && r.0.drops == s.drops
            && if whole(last) then r.1 == Record(data) && at(next, r.0) else r.1 == NoRecord
  {
    JoinedFirst(g);
    assert k + 0 == k && k + |g| - 1 == last && k + |g| == next;
    LogicalReads(sums, fs, file, at, whole, k, g, data, 0, s);
  }

  // ------------------------------------------------------------- whole logs

  /** All records a reader returns before it finds no more. */
  function ReadAll(sums: Sums, file: seq<byte>, s: Input): (r: (seq<seq<byte>>, nat))
    requires s.filePos <= |file|
    decreases Unread(file, s)
  {
    var r := ReadLogical(sums, file, s, false, []);
    if r.1.NoRecord? then ([], r.0.drops)
    else
      var more := ReadAll(sums, file, r.0);
      ([r.1.data] + more.0, more.1)
  }

  lemma GroupFollows(groups: seq<seq<Frag>>, r: nat)
    requires r < |groups|
    ensures Follows(AllFrags(groups), |FragsTo(groups, r)|, groups[r])
    ensures |FragsTo(groups, r + 1)| == |FragsTo(groups, r)| + |groups[r]|
  {
    FragsPrefix(groups, r + 1, |groups|);
    var k := |FragsTo(groups, r)|;
    assert FragsTo(groups, r + 1)[k..] == groups[r];
    assert AllFrags(groups)[..k + |groups[r]|] == FragsTo(groups, r + 1);
    assert AllFrags(groups)[k..k + |groups[r]|] == AllFrags(groups)[..k + |groups[r]|][k..];
  }

  /** The last fragment of record `r`. */
  ghost function LastFrag(groups: seq<seq<Frag>>, r: nat): int
    requires r < |groups|
  {
    |FragsTo(groups, r + 1)| - 1
  }

  /** The first record from `r` on whose last fragment is not all in the file. */
  ghost function FirstCut(groups: seq<seq<Frag>>, whole: nat -> bool, r: nat): (m: nat)
    requires r <= |groups|
    ensures r <= m <= |groups|
    ensures forall i :: r <= i < m ==> LastFrag(groups, i) >= 0 && whole(LastFrag(groups, i))
    ensures m < |groups| ==> !(LastFrag(groups, m) >= 0 && whole(LastFrag(groups, m)))
    decreases |groups| - r
  {
    if r < |groups| && LastFrag(groups, r) >= 0 && whole(LastFrag(groups, r)) then FirstCut(groups, whole, r + 1) else r
  }

  lemma HeadAndRest(records: seq<seq<byte>>, r: nat, m: nat)
    requires r < m <= |records|
    ensures [records[r]] + records[r + 1..m] == records[r..m]
  {
  }

  /** Record `r` and the place of its fragments among all of them. */
  ghost predicate RecordIn(fs: seq<Frag>, groups: seq<seq<Frag>>, records: seq<seq<byte>>, r: nat)
    requires r < |groups| == |records|
  {
    var k, k2 := |FragsTo(groups, r)|, |FragsTo(groups, r + 1)|;
    IsRecord(groups[r], records[r]) && Follows(fs, k, groups[r]) && k2 == k + |groups[r]|
  }

  lemma AllRecordsIn(groups: seq<seq<Frag>>, records: seq<seq<byte>>)
    requires Groups(groups, records)
    ensures forall r :: 0 <= r < |groups| ==> RecordIn(AllFrags(groups), groups, records, r)
  {
    forall r | 0 <= r < |groups|
      ensures RecordIn(AllFrags(groups), groups, records, r)
    {
      GroupFollows(groups, r);
      assert IsRecord(groups[r], records[r]);
    }
  }

  /** Reading record `r`: it is returned exactly when its last fragment is all in the file. */
  lemma RecordReads(sums: Sums, fs: seq<Frag>, groups: seq<seq<Frag>>, records: seq<seq<byte>>, file: seq<byte>,
                    at: (nat, Input) -> bool, whole: nat -> bool, r: nat, s: Input)
    requires Physically(sums, fs, file, at, whole)
    requires r < |groups| == |records| && RecordIn(fs, groups, records, r) && at(|FragsTo(groups, r)|, s)
    ensures s.filePos <= |file| && LastFrag(groups, r) >= 0
    ensures var x := ReadLogical(sums, file, s, false, []);
            && x.0.drops == s.drops
            && if whole(LastFrag(groups, r)) then x.1 == Record(records[r]) && at(|FragsTo(groups, r + 1)|, x.0)
               else x.1 == NoRecord
  {
    var k, g := |FragsTo(groups, r)|, groups[r];
    RecordFrom(sums, fs, file, at, whole, k, g, records[r], s, LastFrag(groups, r), |FragsTo(groups, r + 1)|);
  }

  lemma {:induction false} ReadsFrom(sums: Sums, fs: seq<Frag>, groups: seq<seq<Frag>>, records: seq<seq<byte>>,
                                     file: seq<byte>,
                                     at: (nat, Input) -> bool, whole: nat -> bool, r: nat, s: Input)
    requires Physically(sums, fs, file, at, whole) && |groups| == |records|
    requires forall q :: 0 <= q < |groups| ==> RecordIn(fs, groups, records, q)
    requires r <= |groups| && at(|FragsTo(groups, r)|, s) && |FragsTo(groups, |groups|)| == |fs|
    ensures s.filePos <= |file|
    ensures ReadAll(sums, file, s).0 == records[r..FirstCut(groups, whole, r)]
    ensures ReadAll(sums, file, s).1 == s.drops
    decreases |groups| - r
  {
    if r == |groups| {
      assert OneRead(sums, fs, file, at, whole, |fs|, s);
    } else {
      RecordReads(sums, fs, groups, records, file, at, whole, r, s);
      if whole(LastFrag(groups, r)) {
        ReadsFrom(sums, fs, groups, records, file, at, whole, r + 1, ReadLogical(sums, file, s, false, []).0);
        HeadAndRest(records, r, FirstCut(groups, whole, r + 1));
      }
    }
  }

  /** Where the reader of a cut log stands after `k` fragments. */
  ghost predicate ReaderAt(sums: Sums, fs: seq<Frag>, file: seq<byte>, k: nat, s: Input)
    requires FragsOk(fs)
  {
    k <= |fs| && InputOk(file, s) && Stands(Physicals(sums, fs), k, s)
  }

  /** Fragment `k` is all in the first `size` bytes. */
  ghost predicate WholeIn(sums: Sums, fs: seq<Frag>, size: nat, k: nat)
    requires FragsOk(fs)
  {
    k < |fs| && Pos(Physicals(sums, fs), k + 1) <= size
  }

  lemma WholeBefore(sums: Sums, fs: seq<Frag>, size: nat, k: nat, l: nat)
    requires FragsOk(fs) && k <= l && WholeIn(sums, fs, size, l)
    ensures WholeIn(sums, fs, size, k)
  {
    FilePrefix(Physicals(sums, fs), k + 1, l + 1);
  }

  lemma CutLogRead(sums: Sums, fs: seq<Frag>, file: seq<byte>, at: (nat, Input) -> bool, whole: nat -> bool, k: nat,
                   s: Input)
    requires SumsOk(sums) && CutLog(sums, fs, file) && ReaderAt(sums, fs, file, k, s)
    requires at(k + 1, ReadPhysical(sums, file, s).0)
             <==> ReaderAt(sums, fs, file, k + 1, ReadPhysical(sums, file, s).0)
    requires whole(k) <==> WholeIn(sums, fs, |file|, k)
    ensures OneRead(sums, fs, file, at, whole, k, s)
  {
    PhysicalReads(sums, fs, file, k, s);
  }

  lemma CutLogReads(sums: Sums, fs: seq<Frag>, file: seq<byte>)
    requires SumsOk(sums) && CutLog(sums, fs, file)
    ensures Physically(sums, fs, file, (k: nat, s: Input) => ReaderAt(sums, fs, file, k, s),
                       (k: nat) => WholeIn(sums, fs, |file|, k))
  {
    var at: (nat, Input) -> bool := (k: nat, s: Input) => ReaderAt(sums, fs, file, k, s);
    var whole: nat -> bool := (k: nat) => WholeIn(sums, fs, |file|, k);
    forall k: nat, s: Input | ReaderAt(sums, fs, file, k, s)
      ensures s.filePos <= |file| && OneRead(sums, fs, file, at, whole, k, s)
    {
      CutLogRead(sums, fs, file, at, whole, k, s);
    }
    forall k: nat, l: nat | k <= l && WholeIn(sums, fs, |file|, l)
      ensures WholeIn(sums, fs, |file|, k)
    {
      WholeBefore(sums, fs, |file|, k, l);
    }
  }

  /** How many records end in the first `size` bytes of the file, before the first that does not. */
  ghost function CompleteRecords(sums: Sums, groups: seq<seq<Frag>>, size: nat): (m: nat)
    requires FragsOk(AllFrags(groups))
    ensures m <= |groups|
  {
    FirstCut(groups, (k: nat) => WholeIn(sums, AllFrags(groups), size, k), 0)
  }

  /** Where record `r` ends in the uncut file. */
  ghost function EndOf(sums: Sums, groups: seq<seq<Frag>>, r: nat): nat
    requires r < |groups| && FragsOk(AllFrags(groups))
  {
    FragsPrefix(groups, r + 1, |groups|);
    Pos(Physicals(sums, AllFrags(groups)), |FragsTo(groups, r + 1)|)
  }

  /** A record counts as complete exactly when its end lies in the file. */
  lemma CompleteMeans(sums: Sums, groups: seq<seq<Frag>>, records: seq<seq<byte>>, size: nat, r: nat)
    requires Groups(groups, records) && FragsOk(AllFrags(groups)) && r < |groups|
    ensures r < CompleteRecords(sums, groups, size) <==> EndOf(sums, groups, r) <= size
  {
    var m := CompleteRecords(sums, groups, size);
    GroupEnd(groups, records, r);
    if m < |groups| {
      GroupEnd(groups, records, m);
      if m <= r {
        EndsRise(sums, groups, m, r);
      }
    }
  }

  lemma GroupEnd(groups: seq<seq<Frag>>, records: seq<seq<byte>>, r: nat)
    requires Groups(groups, records) && r < |groups|
    ensures LastFrag(groups, r) >= 0 && LastFrag(groups, r) < |AllFrags(groups)|
  {
    assert IsRecord(groups[r], records[r]);
    GroupFollows(groups, r);
    FragsPrefix(groups, r + 1, |groups|);
  }

  lemma EndsRise(sums: Sums, groups: seq<seq<Frag>>, m: nat, r: nat)
    requires m <= r < |groups| && FragsOk(AllFrags(groups))
    ensures EndOf(sums, groups, m) <= EndOf(sums, groups, r)
  {
    FragsPrefix(groups, m + 1, r + 1);
    FragsPrefix(groups, r + 1, |groups|);
    FilePrefix(Physicals(sums, AllFrags(groups)), |FragsTo(groups, m + 1)|, |FragsTo(groups, r + 1)|);
  }

  /** Nothing is missing from a log that was not cut. */
  lemma UncutIsComplete(sums: Sums, groups: seq<seq<Frag>>, records: seq<seq<byte>>)
    requires Groups(groups, records) && FragsOk(AllFrags(groups))
    ensures CompleteRecords(sums, groups, |File(Physicals(sums, AllFrags(groups)))|) == |records|
  {
    var size := |File(Physicals(sums, AllFrags(groups)))|;
    var m := CompleteRecords(sums, groups, size);
    if m < |groups| {
      CompleteMeans(sums, groups, records, size, m);
      FragsPrefix(groups, m + 1, |groups|);
      FilePrefix(Physicals(sums, AllFrags(groups)), |FragsTo(groups, m + 1)|, |AllFrags(groups)|);
    }
  }

  /**
   * Reading any prefix of a written log, from the beginning, returns exactly the records whose
   * last fragment is in the prefix, in order, and reports no corruption.
   */
  lemma CrashPrefix(sums: Sums, groups: seq<seq<Frag>>, records: seq<seq<byte>>, file: seq<byte>)
    requires SumsOk(sums) && Groups(groups, records) && CutLog(sums, AllFrags(groups), file)
    ensures ReadAll(sums, file, Input(0, [], false, 0)).0 == records[..CompleteRecords(sums, groups, |file|)]
    ensures ReadAll(sums, file, Input(0, [], false, 0)).1 == 0
  {
    var fs := AllFrags(groups);
    CutLogReads(sums, fs, file);
    assert FragsTo(groups, 0) == [];
    assert ReaderAt(sums, fs, file, 0, Input(0, [], false, 0));
    AllRecordsIn(groups, records);
    ReadsFrom(sums, fs, groups, records, file, (k: nat, s: Input) => ReaderAt(sums, fs, file, k, s),
              (k: nat) => WholeIn(sums, fs, |file|, k), 0, Input(0, [], false, 0));
  }

  // ----------------------------------------------------------- the code in use

  /** The file of a writer that has added the given records. */
  ghost predicate WrittenLog(sums: Sums, groups: seq<seq<Frag>>, records: seq<seq<byte>>, file: seq<byte>) {
    && Groups(groups, records) && FragsOk(AllFrags(groups)) && AllFit(Physicals(sums, AllFrags(groups)))
    && file == File(Physicals(sums, AllFrags(groups)))
  }

  lemma OneMoreGroup(groups: seq<seq<Frag>>, g: seq<Frag>, records: seq<seq<byte>>, i: nat)
    requires i < |records| && Groups(groups, records[..i]) && IsRecord(g, records[i])
    ensures Groups(groups + [g], records[..i + 1]) && AllFrags(groups + [g]) == AllFrags(groups) + g
  {
    FragsSnoc(groups, g, |groups|);
    assert records[..i + 1] == records[..i] + [records[i]];
  }

  method WriteAll(sums: Sums, records: seq<seq<byte>>) returns (file: seq<byte>, ghost groups: seq<seq<Frag>>)
    ensures WrittenLog(sums, groups, records, file)
  {
    var w := new W.Writer(sums);
    groups := [];
    for i := 0 to |records|
      invariant w.Ok() && fresh(w) && w.sums == sums
      invariant Groups(groups, records[..i]) && w.frags == AllFrags(groups)
    {
      ghost var before := w.frags;
      w.AddRecord(records[i]);
      OneMoreGroup(groups, w.frags[|before|..], records, i);
      assert w.frags == before + w.frags[|before|..];
      groups := groups + [w.frags[|before|..]];
    }
    assert records[..|records|] == records;
    file := w.dest;
  }

  lemma ReadAllStep(sums: Sums, file: seq<byte>, s: Input, before: seq<seq<byte>>)
    requires s.filePos <= |file| && ReadLogical(sums, file, s, false, []).1.Record?
    ensures var x := ReadLogical(sums, file, s, false, []);
            && before + ReadAll(sums, file, s).0 == before + [x.1.data] + ReadAll(sums, file, x.0).0
            && ReadAll(sums, file, s).1 == ReadAll(sums, file, x.0).1
  {
    var x := ReadLogical(sums, file, s, false, []);
    assert before + ([x.1.data] + ReadAll(sums, file, x.0).0) == before + [x.1.data] + ReadAll(sums, file, x.0).0;
  }

  /** Reads a log until there is no more record. */
  method ReadWhole(sums: Sums, file: seq<byte>) returns (records: seq<seq<byte>>, drops: nat)
    ensures records == ReadAll(sums, file, Input(0, [], false, 0)).0
    ensures drops == ReadAll(sums, file, Input(0, [], false, 0)).1
  {
    var reader := new Reader(sums, file);
    records := [];
    ghost var all := ReadAll(sums, file, reader.input);
    assert [] + all.0 == all.0;
    while true
      invariant reader.Ok() && fresh(reader) && reader.sums == sums && reader.file == file
      invariant all.0 == records + ReadAll(sums, file, reader.input).0 && all.1 == ReadAll(sums, file, reader.input).1
      decreases Unread(file, reader.input)
    {
      ghost var s := reader.input;
      var r := reader.ReadRecord();
      if r.NoRecord? {
        assert records + [] == records;
        return records, reader.input.drops;
      }
      ReadAllStep(sums, file, s, records);
      records := records + [r.data];
    }
  }

  /** Writing records with masked CRC32C checksums, cutting the file anywhere and reading what is left. */
  method WriteCutRead(records: seq<seq<byte>>, cut: nat)
    returns (file: seq<byte>, result: seq<seq<byte>>, drops: nat, ghost groups: seq<seq<Frag>>)
    ensures WrittenLog(CrcSums(), groups, records, file)
    ensures result == records[..CompleteRecords(CrcSums(), groups, Min(cut, |file|))] && drops == 0
    ensures cut >= |file| ==> result == records
  {
    CrcSumsOk();
    file, groups := WriteAll(CrcSums(), records);
    var kept := file[..Min(cut, |file|)];
    CrashPrefix(CrcSums(), groups, records, kept);
    UncutIsComplete(CrcSums(), groups, records);
    result, drops := ReadWhole(CrcSums(), kept);
  }
}
