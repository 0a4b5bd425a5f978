/**
 * Reading a log with a damaged physical record: the rest of its block is lost, everything else is
 * read back, and the damage is reported.
 */
module LogDamage {
  import opened PbVarints
  import opened LogLayout
  import opened LogFormat
  import opened LogReader
  import opened LogRoundTrip
  import opened CrcDamage
  import Crc32c

  // ------------------------------------------------------- masked checksums

  /** The checksum stored for a type and a payload is the only one accepted for them. */
  lemma MatchesIffStored(m: bv32, ty: byte, data: seq<byte>)
    ensures CrcMatches(m as int, [ty] + data) <==> m as int == MaskedCrc(ty, data)
  {
    hide Crc32c.Mask, Crc32c.Unmask, Crc32c.ExtendBy, Crc32c.Value;
    MaskedRoundTrip(ty, data);
    var stored := Crc32c.Mask(Crc32c.ExtendBy(Crc32c.Value([ty]), data));
    NumberAndBack(m);
    NumberAndBack(stored);
    MaskUndoesUnmask(m);
    MaskUndoesUnmask(stored);
  }

  /** No change within four neighbouring bytes of type and payload is accepted. */
  lemma DamageRejected(ty: byte, data: seq<byte>, t: seq<byte>, p: nat)
    requires Damaged([ty] + data, t, p)
    ensures !CrcMatches(MaskedCrc(ty, data), t)
  {
    MaskedRoundTrip(ty, data);
    DamageChangesCrc(0, [ty] + data, t, p);
  }

  /** A changed payload byte, or a changed type, is never accepted. */
  lemma OneByteRejected(ty: byte, data: seq<byte>, k: nat, b: byte)
    ensures k < |data| && b != data[k] ==> !CrcMatches(MaskedCrc(ty, data), [ty] + data[k := b])
    ensures b != ty ==> !CrcMatches(MaskedCrc(ty, data), [b] + data)
  {
    var s := [ty] + data;
    if k < |data| && b != data[k] {
      OneByteDamaged(s, k + 1, b);
      assert s[k + 1 := b] == [ty] + data[k := b];
      DamageRejected(ty, data, s[k + 1 := b], k + 1);
    }
    if b != ty {
      OneByteDamaged(s, 0, b);
      assert s[0 := b] == [b] + data;
      DamageRejected(ty, data, s[0 := b], 0);
    }
  }

  // -------------------------------------------------- damaged physical records

  /** The header of space that was allocated but never written. */
  ghost predicate Blank(p: seq<byte>) {
    |p| >= HEADER_SIZE && LengthIn(p) == 0 && p[6] == ZERO_TYPE
  }

  /** A physical record with its length intact that the reader turns away. */
  ghost predicate Rejected(sums: Sums, p: seq<byte>) {
    && |p| >= HEADER_SIZE && LengthIn(p) == |p| - HEADER_SIZE
    && (Blank(p) || !sums.accepts(FromLittleEndian(p[..4]), p[6..]))
  }

  ghost function BlockEnd(a: nat): (b: nat)
    ensures a < b <= a + BLOCK_SIZE && b % BLOCK_SIZE == 0
  {
    (a / BLOCK_SIZE + 1) * BLOCK_SIZE
  }

  /** A length that reaches past the end of the block, in a block that is not the last. */
  ghost predicate TooLong(ps: seq<seq<byte>>, k: nat, p: seq<byte>)
    requires k < |ps|
  {
    && |p| >= HEADER_SIZE && Start(Pos(ps, k)) % BLOCK_SIZE + HEADER_SIZE + LengthIn(p) > BLOCK_SIZE
    && |File(ps)| > BlockEnd(Start(Pos(ps, k)))
  }

  /** A mismatch is reported; blank space is skipped silently. */
  ghost function Reports(p: seq<byte>): nat {
    if Blank(p) then 0 else 1
  }

  /** Fragments in a file, with `bad` in place of the physical record of fragment `k`. */
  datatype Damage = Damage(sums: Sums, fs: seq<Frag>, k: nat, bad: seq<byte>)

  ghost predicate DamageOk(d: Damage) {
    && SumsOk(d.sums) && FragsOk(d.fs) && AllFit(Physicals(d.sums, d.fs)) && d.k < |d.fs|
    && |d.bad| == |Physical(d.sums, d.fs[d.k])|
    && (Rejected(d.sums, d.bad) || TooLong(Physicals(d.sums, d.fs), d.k, d.bad))
  }

  ghost function Pieces(d: Damage): (ps: seq<seq<byte>>)
    requires DamageOk(d)
    ensures |ps| == |d.fs|
  {
    Physicals(d.sums, d.fs)[d.k := d.bad]
  }

  ghost function DamagedFile(d: Damage): seq<byte>
    requires DamageOk(d)
  {
    File(Pieces(d))
  }

  lemma {:induction false} SameLayout(ps: seq<seq<byte>>, k: nat, bad: seq<byte>, i: nat)
    requires k < |ps| && |bad| == |ps[k]| && i <= |ps|
    ensures Pos(ps[k := bad], i) == Pos(ps, i)
  {
    if i > 0 {
      SameLayout(ps, k, bad, i - 1);
    }
  }

  /** `s` with `piece` in place of what is there from `a` on. */
  ghost function Spliced(s: seq<byte>, a: nat, piece: seq<byte>): seq<byte>
    requires a + |piece| <= |s|
  {
    s[..a] + piece + s[a + |piece|..]
  }

  lemma SplicedMore(s: seq<byte>, a: nat, piece: seq<byte>, more: seq<byte>)
    requires a + |piece| <= |s|
    ensures Spliced(s + more, a, piece) == Spliced(s, a, piece) + more
  {
    assert (s + more)[..a] == s[..a];
    assert (s + more)[a + |piece|..] == s[a + |piece|..] + more;
  }

  lemma SplicedLast(s: seq<byte>, last: seq<byte>, piece: seq<byte>)
    requires |piece| == |last|
    ensures Spliced(s + last, |s|, piece) == s + piece
  {
  }

  lemma FileNext(ps: seq<seq<byte>>, i: nat)
    requires i < |ps|
    ensures FileTo(ps, i + 1) == FileTo(ps, i) + Zeros(Start(Pos(ps, i)) - Pos(ps, i)) + ps[i]
    ensures FileTo(ps, i + 1) == FileTo(ps, i) + (Zeros(Start(Pos(ps, i)) - Pos(ps, i)) + ps[i])
  {
  }

  ghost predicate SplicedTo(ps: seq<seq<byte>>, k: nat, bad: seq<byte>, i: nat)
    requires k < |ps| && k < i <= |ps|
  {
    var a := Start(Pos(ps, k));
    a + |bad| <= |FileTo(ps, i)| && FileTo(ps[k := bad], i) == Spliced(FileTo(ps, i), a, bad)
  }

  lemma {:induction false} SameBefore(ps: seq<seq<byte>>, k: nat, bad: seq<byte>, i: nat)
    requires i <= k < |ps|
    ensures FileTo(ps[k := bad], i) == FileTo(ps, i) && Pos(ps[k := bad], i) == Pos(ps, i)
  {
    if i > 0 {
      SameBefore(ps, k, bad, i - 1);
    }
  }

  lemma SplicedAt(ps: seq<seq<byte>>, k: nat, bad: seq<byte>)
    requires k < |ps| && |bad| == |ps[k]|
    ensures SplicedTo(ps, k, bad, k + 1)
  {
    hide FileTo, Spliced, Start, Pos;
    SameBefore(ps, k, bad, k);
    FileNext(ps, k);
    FileNext(ps[k := bad], k);
    SplicedLast(FileTo(ps, k) + Zeros(Start(Pos(ps, k)) - Pos(ps, k)), ps[k], bad);
  }

  lemma {:induction false} SplicedFrom(ps: seq<seq<byte>>, k: nat, bad: seq<byte>, i: nat)
    requires k < |ps| && |bad| == |ps[k]| && k < i <= |ps|
    ensures SplicedTo(ps, k, bad, i)
  {
    hide FileTo, Spliced, Start, Pos;
    if i == k + 1 {
      SplicedAt(ps, k, bad);
    } else {
      SplicedFrom(ps, k, bad, i - 1);
      SameLayout(ps, k, bad, i - 1);
      FileNext(ps, i - 1);
      FileNext(ps[k := bad], i - 1);
      SplicedMore(FileTo(ps, i - 1), Start(Pos(ps, k)), bad,
                  Zeros(Start(Pos(ps, i - 1)) - Pos(ps, i - 1)) + ps[i - 1]);
    }
  }

  /** The damaged file is the written one with the bytes of one physical record replaced. */
  lemma DamageIsSplice(d: Damage)
    requires DamageOk(d)
    ensures var ps := Physicals(d.sums, d.fs); var a := Start(Pos(ps, d.k));
            && a + |d.bad| <= |File(ps)|
            && DamagedFile(d) == Spliced(File(ps), a, d.bad)
  {
    SplicedFrom(Physicals(d.sums, d.fs), d.k, d.bad, |d.fs|);
  }

  lemma PiecesFit(d: Damage)
    requires DamageOk(d)
    ensures AllFit(Pieces(d))
  {
    var ps := Physicals(d.sums, d.fs);
    forall i | 0 <= i < |ps|
      ensures Fits(Pieces(d), i)
    {
      SameLayout(ps, d.k, d.bad, i);
      assert Fits(ps, i);
    }
  }

  // ------------------------------------------------------ the block it lies in

  ghost predicate SameBlock(ps: seq<seq<byte>>, i: nat, j: nat)
    requires i < |ps| && j < |ps|
  {
    Start(Pos(ps, i)) / BLOCK_SIZE == Start(Pos(ps, j)) / BLOCK_SIZE
  }

  /** The first physical record from `i` on that starts in another block than record `k`. */
  ghost function NextBlockFrom(ps: seq<seq<byte>>, k: nat, i: nat): (n: nat)
    requires k < i <= |ps|
    ensures i <= n <= |ps| && (forall j :: i <= j < n ==> SameBlock(ps, k, j))
    ensures n < |ps| ==> !SameBlock(ps, k, n)
    decreases |ps| - i
  {
    if i < |ps| && SameBlock(ps, k, i) then NextBlockFrom(ps, k, i + 1) else i
  }

  /** Where the reader finds its way again. */
  ghost function Resume(d: Damage): (n: nat)
    requires DamageOk(d)
    ensures d.k < n <= |d.fs|
  {
    NextBlockFrom(Pieces(d), d.k, d.k + 1)
  }

  lemma WithinBlock(a: nat, n: nat)
    requires a % BLOCK_SIZE + n <= BLOCK_SIZE
    ensures a + n <= BlockEnd(a)
    ensures n > 0 && (a + n) % BLOCK_SIZE == 0 ==> a + n == BlockEnd(a)
  {
  }

  lemma StartAtBoundary(p: nat, b: nat)
    requires p <= b <= Start(p) && b % BLOCK_SIZE == 0
    ensures Start(p) == b
  {
  }

  lemma SameEnd(a: nat, q: nat)
    requires a / BLOCK_SIZE == q / BLOCK_SIZE
    ensures BlockEnd(a) == BlockEnd(q)
  {
  }

  lemma OtherBlockLater(a: nat, q: nat)
    requires a <= q && a / BLOCK_SIZE != q / BLOCK_SIZE
    ensures BlockEnd(a) <= q
  {
  }

  lemma EndsInBlock(ps: seq<seq<byte>>, i: nat)
    requires AllFit(ps) && i < |ps|
    ensures Start(Pos(ps, i)) % BLOCK_SIZE + |ps[i]| <= BLOCK_SIZE
    ensures Pos(ps, i + 1) == Start(Pos(ps, i)) + |ps[i]|
  {
    assert Fits(ps, i);
  }

  /** All records up to the next block end by the end of this one, where the next block starts. */
  lemma NextBlockStarts(ps: seq<seq<byte>>, k: nat, n: nat)
    requires AllFit(ps) && k < |ps| && n == NextBlockFrom(ps, k, k + 1)
    ensures Pos(ps, n) <= BlockEnd(Start(Pos(ps, k)))
    ensures n < |ps| ==> Start(Pos(ps, n)) == BlockEnd(Start(Pos(ps, k)))
  {
    hide Start, BlockEnd, AllFit, Pos, FileTo;
    var b := BlockEnd(Start(Pos(ps, k)));
    assert SameBlock(ps, k, n - 1);
    EndsInBlock(ps, n - 1);
    SameEnd(Start(Pos(ps, k)), Start(Pos(ps, n - 1)));
    WithinBlock(Start(Pos(ps, n - 1)), |ps[n - 1]|);
    if n < |ps| {
      FilePrefix(ps, k + 1, n);
      OtherBlockLater(Start(Pos(ps, k)), Start(Pos(ps, n)));
      StartAtBoundary(Pos(ps, n), b);
    }
  }

  /** Having dropped the buffer, the reader stands on the first record of the next block. */
  lemma DropStands(ps: seq<seq<byte>>, file: seq<byte>, k: nat, s: Input)
    requires AllFit(ps) && file == File(ps) && k < |ps| && InputOk(file, s) && s.buffer != []
    requires At(s) == Start(Pos(ps, k))
    ensures InputOk(file, s.(buffer := [])) && Stands(ps, NextBlockFrom(ps, k, k + 1), s.(buffer := []))
  {
    var n := NextBlockFrom(ps, k, k + 1);
    NextBlockStarts(ps, k, n);
    WithinBlock(At(s), |s.buffer|);
    if n < |ps| {
      RecordAt(ps, n);
      assert Fits(ps, n);
    }
  }

  // ---------------------------------------------------------- physical reads

  /** The reader of the damaged file stands after the first `i` fragments. */
  ghost predicate Standing(d: Damage, i: nat, s: Input)
    requires DamageOk(d)
  {
    i <= |d.fs| && InputOk(DamagedFile(d), s) && Stands(Pieces(d), i, s)
  }

  lemma StandingIs(d: Damage, i: nat, s: Input)
    requires DamageOk(d) && Standing(d, i, s)
    ensures i <= |d.fs| && s.filePos <= |DamagedFile(d)| && InputOk(DamagedFile(d), s) && Stands(Pieces(d), i, s)
  {
  }

  lemma StandsAgain(d: Damage, i: nat, s: Input, bad: seq<byte>)
    requires DamageOk(d) && i <= |d.fs| && InputOk(DamagedFile(d), s) && Stands(Pieces(d), i, s)
    ensures Standing(d, i, s) && Standing(d, i, s.(drops := s.drops + Reports(bad))) && Standing(d, i, Count(s))
  {
  }

  /** A fragment that is not the damaged one is read as it was written. */
  lemma GoodRead(d: Damage, i: nat, s: Input)
    requires DamageOk(d) && Standing(d, i, s) && i < |d.fs| && i != d.k
    ensures var p := ReadPhysical(d.sums, DamagedFile(d), s);
            p.1 == Fragment(d.fs[i].ty, d.fs[i].data) && Standing(d, i + 1, p.0) && p.0.drops == s.drops
  {
    var ps := Pieces(d);
    PiecesFit(d);
    RecordAt(ps, i);
    var h := Arrives(d.sums, ps, DamagedFile(d), i, s);
    assert FragOk(d.fs[i]) && ps[i] == Physical(d.sums, d.fs[i]);
    ParseReads(d.sums, ps, d.fs[i], DamagedFile(d), i, h);
  }

  lemma BadParses(sums: Sums, s: Input, bad: seq<byte>, rest: seq<byte>)
    requires Rejected(sums, bad) && s.buffer == bad + rest
    ensures Parse(sums, s) == (s.(buffer := [], drops := s.drops + Reports(bad)), Fragment(BAD_RECORD, []))
  {
    assert s.buffer[..4] == bad[..4] && s.buffer[6..|bad|] == bad[6..];
    assert s.buffer[4] == bad[4] && s.buffer[5] == bad[5] && s.buffer[6] == bad[6];
  }

  lemma TooLongHere(d: Damage)
    requires DamageOk(d) && !Rejected(d.sums, d.bad)
    ensures TooLong(Pieces(d), d.k, d.bad)
  {
    SameLayout(Physicals(d.sums, d.fs), d.k, d.bad, d.k);
    SameLayout(Physicals(d.sums, d.fs), d.k, d.bad, |d.fs|);
  }

  lemma TooLongParses(sums: Sums, ps: seq<seq<byte>>, file: seq<byte>, k: nat, s: Input, bad: seq<byte>,
                      rest: seq<byte>)
    requires k < |ps| && file == File(ps) && TooLong(ps, k, bad) && InputOk(file, s) && At(s) == Start(Pos(ps, k))
    requires s.buffer == bad + rest
    ensures Parse(sums, s) == (s.(buffer := [], drops := s.drops + Reports(bad)), Fragment(BAD_RECORD, []))
  {
    hide FileTo, Pos, Start;
    WithinBlock(At(s), |s.buffer|);
    assert s.buffer[4] == bad[4] && s.buffer[5] == bad[5];
  }

  /** The damaged one is turned away, with the rest of its block. */
  lemma BadRead(d: Damage, s: Input)
    requires DamageOk(d) && Standing(d, d.k, s)
    ensures var p := ReadPhysical(d.sums, DamagedFile(d), s);
            p.1.ty == BAD_RECORD && Standing(d, Resume(d), p.0) && p.0.drops == s.drops + Reports(d.bad)
  {
    hide SumsOk, AllFit, Rejected, TooLong, Physicals, InputOk, Stands, Parse, Start, NextBlockFrom, FileTo, Pos,
         LengthIn, Blank;
    var ps, file := Pieces(d), DamagedFile(d);
    PiecesFit(d);
    RecordAt(ps, d.k);
    StandingIs(d, d.k, s);
    var h := Arrives(d.sums, ps, file, d.k, s);
    WholeRecord(ps, file, d.k, h);
    if Rejected(d.sums, d.bad) {
      BadParses(d.sums, h, d.bad, h.buffer[|d.bad|..]);
    } else {
      TooLongHere(d);
      TooLongParses(d.sums, ps, file, d.k, h, d.bad, h.buffer[|d.bad|..]);
    }
    DropStands(ps, file, d.k, h);
    StandsAgain(d, Resume(d), h.(buffer := []), d.bad);
  }

  lemma EndRead(d: Damage, s: Input)
    requires DamageOk(d) && Standing(d, |d.fs|, s)
    ensures var p := ReadPhysical(d.sums, DamagedFile(d), s);
            p.1.ty == EOF && p.0.drops == s.drops
  {
    PiecesFit(d);
    var h := Arrives(d.sums, Pieces(d), DamagedFile(d), |d.fs|, s);
  }

  // ----------------------------------------------------------- logical reads

  ghost function Logical(d: Damage, s: Input, inFragment: bool, scratch: seq<byte>): (Input, LogicalResult)
    requires DamageOk(d) && s.filePos <= |DamagedFile(d)|
  {
    ReadLogical(d.sums, DamagedFile(d), s, inFragment, scratch)
  }

  lemma FollowsAt(fs: seq<Frag>, at: nat, g: seq<Frag>, j: nat)
    requires Follows(fs, at, g) && j < |g|
    ensures at + j < |fs| && fs[at + j] == g[j]
  {
    assert fs[at..at + |g|][j] == g[j];
  }

  lemma JoinedWhole(g: seq<Frag>, data: seq<byte>)
    requires IsRecord(g, data)
    ensures Joined(g) == data
  {
  }

  lemma JoinedNone(g: seq<Frag>, data: seq<byte>)
    requires IsRecord(g, data)
    ensures Joined(g[..0]) == []
  {
    JoinedFirst(g);
  }

  lemma AfterDamage(d: Damage, s: Input, inFragment: bool, scratch: seq<byte>) returns (s2: Input)
    requires DamageOk(d) && Standing(d, d.k, s) && (!inFragment ==> scratch == [])
    ensures Standing(d, Resume(d), s2) && s2.drops == s.drops + Reports(d.bad) + if inFragment then 1 else 0
    ensures Logical(d, s, inFragment, scratch) == Logical(d, s2, false, [])
  {
    hide DamageOk, DamagedFile, InputOk, Stands, ReadPhysical, NextBlockFrom;
    StandingIs(d, d.k, s);
    BadRead(d, s);
    s2 := ReadPhysical(d.sums, DamagedFile(d), s).0;
    s2 := if inFragment then Count(s2) else s2;
    StandsAgain(d, Resume(d), ReadPhysical(d.sums, DamagedFile(d), s).0, d.bad);
  }

  /** A middle or last fragment whose beginning is lost. */
  lemma AfterOrphan(d: Damage, i: nat, s: Input) returns (s2: Input)
    requires DamageOk(d) && d.k < i < |d.fs| && Standing(d, i, s)
    requires d.fs[i].ty == MIDDLE_TYPE || d.fs[i].ty == LAST_TYPE
    ensures Standing(d, i + 1, s2) && s2.drops == s.drops + 1
    ensures Logical(d, s, false, []) == Logical(d, s2, false, [])
  {
    hide DamageOk, DamagedFile, InputOk, Stands, ReadPhysical;
    StandingIs(d, i, s);
    GoodRead(d, i, s);
    StandsAgain(d, i + 1, ReadPhysical(d.sums, DamagedFile(d), s).0, d.bad);
    s2 := Count(ReadPhysical(d.sums, DamagedFile(d), s).0);
  }

  lemma NextFragment(d: Damage, at: nat, g: seq<Frag>, data: seq<byte>, j: nat, s: Input) returns (s2: Input)
    requires DamageOk(d) && IsRecord(g, data) && Follows(d.fs, at, g) && j < |g|
    requires Standing(d, at + j, s) && at + j != d.k
    ensures Standing(d, at + j + 1, s2) && s2.drops == s.drops
    ensures Logical(d, s, j > 0, Joined(g[..j]))
         == if j + 1 == |g| then (s2, Record(data)) else Logical(d, s2, true, Joined(g[..j + 1]))
  {
    hide DamageOk, DamagedFile, Standing, Joined, ReadPhysical, ReadLogical, IsRecord, Follows;
    StandingIs(d, at + j, s);
    FollowsAt(d.fs, at, g, j);
    GoodRead(d, at + j, s);
    JoinedWhole(g, data);
    LogicalStep(d.sums, DamagedFile(d), s, g, data, j);
    assert j + 1 == |g| ==> g[..j + 1] == g;
    s2 := ReadPhysical(d.sums, DamagedFile(d), s).0;
  }

  /** A record without the damaged fragment is returned. */
  lemma {:induction false} RecordReturned(d: Damage, at: nat, g: seq<Frag>, data: seq<byte>, j: nat, s: Input)
      returns (s2: Input)
    requires DamageOk(d) && IsRecord(g, data) && Follows(d.fs, at, g) && j < |g|
    requires Standing(d, at + j, s) && (d.k < at || at + |g| <= d.k)
    ensures Standing(d, at + |g|, s2) && s2.drops == s.drops
    ensures Logical(d, s, j > 0, Joined(g[..j])) == (s2, Record(data))
    decreases |g| - j
  {
    hide DamageOk, DamagedFile, Standing, Joined, IsRecord, ReadLogical, Follows;
    s2 := NextFragment(d, at, g, data, j, s);
    if j + 1 < |g| {
      assert at + (j + 1) == at + j + 1;
      s2 := RecordReturned(d, at, g, data, j + 1, s2);
    }
  }

  /** A record with the damaged fragment is given up, and reading goes on in the next block. */
  lemma {:induction false} RecordGivenUp(d: Damage, at: nat, g: seq<Frag>, data: seq<byte>, j: nat, s: Input)
      returns (s2: Input)
    requires DamageOk(d) && IsRecord(g, data) && Follows(d.fs, at, g)
    requires Standing(d, at + j, s) && at + j <= d.k < at + |g|
    ensures Standing(d, Resume(d), s2)
    ensures s2.drops == s.drops + Reports(d.bad) + if d.k > at then 1 else 0
    ensures Logical(d, s, j > 0, Joined(g[..j])) == Logical(d, s2, false, [])
    decreases |g| - j
  {
    hide DamageOk, DamagedFile, Standing, Joined, IsRecord, ReadLogical, Follows;
    if at + j == d.k {
      JoinedNone(g, data);
      s2 := AfterDamage(d, s, j > 0, Joined(g[..j]));
    } else {
      s2 := NextFragment(d, at, g, data, j, s);
      assert at + (j + 1) == at + j + 1;
      s2 := RecordGivenUp(d, at, g, data, j + 1, s2);
    }
  }

  /** The rest of a record whose beginning is lost is passed over, each fragment with a report. */
  lemma {:induction false} OrphansPassed(d: Damage, i: nat, m: nat, s: Input) returns (s2: Input)
    requires DamageOk(d) && d.k < i <= m <= |d.fs| && Standing(d, i, s)
    requires forall x :: i <= x < m ==> d.fs[x].ty == MIDDLE_TYPE || d.fs[x].ty == LAST_TYPE
    ensures Standing(d, m, s2) && s2.drops == s.drops + (m - i)
    ensures Logical(d, s, false, []) == Logical(d, s2, false, [])
    decreases m - i
  {
    hide DamageOk, DamagedFile, Standing, ReadLogical;
    s2 := s;
    if i < m {
      s2 := AfterOrphan(d, i, s);
      s2 := OrphansPassed(d, i + 1, m, s2);
    }
  }

  // -------------------------------------------------------------- whole logs

  /** The first record from `r` on that starts at fragment `n` or later. */
  ghost function FirstFrom(groups: seq<seq<Frag>>, n: nat, r: nat): (q: nat)
    requires r <= |groups| && n <= |AllFrags(groups)|
    ensures r <= q <= |groups| && n <= |FragsTo(groups, q)|
    ensures forall i :: r <= i < q ==> |FragsTo(groups, i)| < n
    decreases |groups| - r
  {
    if |FragsTo(groups, r)| < n then FirstFrom(groups, n, r + 1) else r
  }

  /** The damage is in record `r`; record `q` is the first that starts in a later block. */
  ghost predicate DamagesRecord(d: Damage, groups: seq<seq<Frag>>, records: seq<seq<byte>>, r: nat, q: nat) {
    && DamageOk(d) && Groups(groups, records) && d.fs == AllFrags(groups)
    && r < |groups| && |FragsTo(groups, r)| <= d.k < |FragsTo(groups, r + 1)|
    && q == FirstFrom(groups, Resume(d), r)
  }

  /** One report for the damage, one for the record it cuts short, one for each fragment left without its beginning. */
  ghost function ReportsOf(d: Damage, groups: seq<seq<Frag>>, r: nat, q: nat): int
    requires DamageOk(d) && r <= |groups| && q <= |groups|
  {
    Reports(d.bad) + (if d.k > |FragsTo(groups, r)| then 1 else 0) + (|FragsTo(groups, q)| - Resume(d))
  }

  lemma OrphansAre(groups: seq<seq<Frag>>, records: seq<seq<byte>>, q: nat, x: nat)
    requires Groups(groups, records) && 0 < q <= |groups| && |FragsTo(groups, q - 1)| < x < |FragsTo(groups, q)|
    ensures x < |AllFrags(groups)|
    ensures AllFrags(groups)[x].ty == MIDDLE_TYPE || AllFrags(groups)[x].ty == LAST_TYPE
  {
    var at, g := |FragsTo(groups, q - 1)|, groups[q - 1];
    GroupFollows(groups, q - 1);
    assert IsRecord(g, records[q - 1]);
    assert AllFrags(groups)[x] == AllFrags(groups)[at..at + |g|][x - at] == g[x - at];
    assert g[x - at].ty == TypeOf(x - at, |g|);
  }

  lemma RecordPlaced(groups: seq<seq<Frag>>, records: seq<seq<byte>>, r: nat)
    requires Groups(groups, records) && r < |groups|
    ensures |records| == |groups| && groups[r] != [] && IsRecord(groups[r], records[r])
    ensures Follows(AllFrags(groups), |FragsTo(groups, r)|, groups[r]) && Joined(groups[r][..0]) == []
    ensures |FragsTo(groups, r + 1)| == |FragsTo(groups, r)| + |groups[r]|
  {
    GroupFollows(groups, r);
    assert IsRecord(groups[r], records[r]);
    JoinedFirst(groups[r]);
  }

  /** From the damaged record on, reading goes as from the first record that starts in a later block. */
  lemma LostRecords(d: Damage, groups: seq<seq<Frag>>, records: seq<seq<byte>>, r: nat, q: nat, s: Input)
      returns (s2: Input)
    requires DamagesRecord(d, groups, records, r, q) && Standing(d, |FragsTo(groups, r)|, s)
    ensures r < q && Standing(d, |FragsTo(groups, q)|, s2) && s2.drops == s.drops + ReportsOf(d, groups, r, q)
    ensures Logical(d, s, false, []) == Logical(d, s2, false, [])
  {
    hide DamageOk, DamagedFile, Standing, ReadLogical, Joined, IsRecord, Follows, Groups, TypeOf;
    RecordPlaced(groups, records, r);
    s2 := RecordGivenUp(d, |FragsTo(groups, r)|, groups[r], records[r], 0, s);
    FragsPrefix(groups, q, |groups|);
    forall x | Resume(d) <= x < |FragsTo(groups, q)|
      ensures d.fs[x].ty == MIDDLE_TYPE || d.fs[x].ty == LAST_TYPE
    {
      OrphansAre(groups, records, q, x);
    }
    s2 := OrphansPassed(d, Resume(d), |FragsTo(groups, q)|, s2);
  }

  /** What is left of the records from `i` on. */
  ghost function Kept(records: seq<seq<byte>>, i: nat, r: nat, q: nat): seq<seq<byte>>
    requires i <= |records| && r <= q <= |records|
  {
    if i <= r then records[i..r] + records[q..] else records[i..]
  }

  lemma KeptParts(records: seq<seq<byte>>, i: nat, r: nat, q: nat)
    requires i <= |records| && r < q <= |records|
    ensures i < |records| && i != r ==> Kept(records, i, r, q) == [records[i]] + Kept(records, i + 1, r, q)
    ensures i == r ==> Kept(records, i, r, q) == Kept(records, q, r, q)
    ensures i == |records| ==> Kept(records, i, r, q) == []
  {
  }

  /** All records read from `s` on. */
  ghost function All(d: Damage, s: Input): (seq<seq<byte>>, nat)
    requires DamageOk(d) && s.filePos <= |DamagedFile(d)|
  {
    ReadAll(d.sums, DamagedFile(d), s)
  }

  lemma AllSame(d: Damage, i: nat, s: Input, i2: nat, s2: Input)
    requires DamageOk(d) && Standing(d, i, s) && Standing(d, i2, s2)
    requires Logical(d, s, false, []) == Logical(d, s2, false, [])
    ensures All(d, s) == All(d, s2)
  {
    hide DamageOk, DamagedFile, ReadLogical;
  }

  lemma AllNext(d: Damage, i: nat, s: Input, i2: nat, s2: Input, data: seq<byte>)
    requires DamageOk(d) && Standing(d, i, s) && Standing(d, i2, s2)
    requires Logical(d, s, false, []) == (s2, Record(data))
    ensures All(d, s) == ([data] + All(d, s2).0, All(d, s2).1)
  {
    hide DamageOk, DamagedFile, ReadLogical;
  }

  lemma AllRead(d: Damage, s: Input)
    requires DamageOk(d) && Standing(d, |d.fs|, s)
    ensures All(d, s) == ([], s.drops)
  {
    hide DamageOk, DamagedFile, InputOk, Stands, ReadPhysical;
    StandingIs(d, |d.fs|, s);
    EndRead(d, s);
  }

  lemma DamageBefore(d: Damage, groups: seq<seq<Frag>>, records: seq<seq<byte>>, r: nat, q: nat)
    requires DamagesRecord(d, groups, records, r, q)
    ensures DamageOk(d) && Groups(groups, records) && d.fs == AllFrags(groups) == FragsTo(groups, |groups|)
    ensures r < q <= |groups| == |records|
  {
  }

  lemma Elsewhere(d: Damage, groups: seq<seq<Frag>>, records: seq<seq<byte>>, r: nat, q: nat, i: nat)
    requires DamagesRecord(d, groups, records, r, q) && i < |groups| && (i < r || q <= i)
    ensures d.k < |FragsTo(groups, i)| || |FragsTo(groups, i + 1)| <= d.k
  {
    if i < r {
      FragsPrefix(groups, i + 1, r);
    } else {
      FragsPrefix(groups, q, i);
    }
  }

  lemma {:induction false} DamagedFrom(d: Damage, groups: seq<seq<Frag>>, records: seq<seq<byte>>, r: nat, q: nat,
                                       i: nat, s: Input)
    requires DamagesRecord(d, groups, records, r, q) && i <= |groups| && (i <= r || q <= i)
    requires Standing(d, |FragsTo(groups, i)|, s)
    ensures All(d, s)
         == (Kept(records, i, r, q), s.drops + if i <= r then ReportsOf(d, groups, r, q) else 0)
    decreases |groups| - i
  {
    hide DamagesRecord, DamageOk, Standing, Logical, All, Groups, IsRecord, Follows, Joined, FragsTo, AllFrags,
         ReportsOf, Kept;
    DamageBefore(d, groups, records, r, q);
    KeptParts(records, i, r, q);
    if i == |groups| {
      AllRead(d, s);
    } else if i == r {
      var s2 := LostRecords(d, groups, records, r, q, s);
      AllSame(d, |FragsTo(groups, r)|, s, |FragsTo(groups, q)|, s2);
      DamagedFrom(d, groups, records, r, q, q, s2);
    } else {
      RecordPlaced(groups, records, i);
      Elsewhere(d, groups, records, r, q, i);
      var s2 := RecordReturned(d, |FragsTo(groups, i)|, groups[i], records[i], 0, s);
      AllNext(d, |FragsTo(groups, i)|, s, |FragsTo(groups, i + 1)|, s2, records[i]);
      DamagedFrom(d, groups, records, r, q, i + 1, s2);
    }
  }

  /**
   * Reading a log with one damaged physical record returns, in order, every record but those that
   * have a fragment from the damaged one to the end of its block, and reports what it dropped.
   */
  lemma DamageIsLocal(d: Damage, groups: seq<seq<Frag>>, records: seq<seq<byte>>, r: nat, q: nat)
    requires DamagesRecord(d, groups, records, r, q)
    ensures r < q <= |records|
    ensures ReadAll(d.sums, DamagedFile(d), Input(0, [], false, 0))
         == (records[..r] + records[q..], ReportsOf(d, groups, r, q))
  {
    assert Standing(d, |FragsTo(groups, 0)|, Input(0, [], false, 0));
    DamagedFrom(d, groups, records, r, q, 0, Input(0, [], false, 0));
  }

  // ------------------------------------------------- damage to the log in use

  /** A record whose type and payload differ from what was written, within four bytes, is turned away. */
  lemma PayloadDamageRejected(f: Frag, t: seq<byte>, p: nat)
    requires FragOk(f) && Damaged([f.ty] + f.data, t, p)
    ensures Rejected(CrcSums(), Physical(CrcSums(), f)[..6] + t)
  {
    hide MaskedCrc, CrcMatches, Damaged;
    CrcSumsOk();
    DamageKeepsLength([f.ty] + f.data, t, p);
    PhysicalParses(CrcSums(), f, []);
    DamageRejected(f.ty, f.data, t, p);
    var w := Physical(CrcSums(), f);
    SameHeader(w, w[..6] + t);
    assert w + [] == w;
  }

  /** So is one whose stored checksum differs from what was written. */
  lemma ChecksumDamageRejected(f: Frag, m: bv32)
    requires FragOk(f) && m as int != MaskedCrc(f.ty, f.data)
    ensures Rejected(CrcSums(), LittleEndian(m as int, 4) + Physical(CrcSums(), f)[4..])
  {
    hide MaskedCrc, CrcMatches;
    CrcSumsOk();
    PhysicalParses(CrcSums(), f, []);
    MatchesIffStored(m, f.ty, f.data);
    var w := Physical(CrcSums(), f);
    var bad := LittleEndian(m as int, 4) + w[4..];
    NumberAndBack(m);
    assert Pow256(4) == 0x1_0000_0000;
    LittleEndianRoundTrip(m as int, 4);
    assert bad[..4] == LittleEndian(m as int, 4) && bad[6..] == [f.ty] + f.data;
    assert bad[4] == w[4] && bad[5] == w[5];
    assert w + [] == w;
  }

  lemma DamageKeepsLength(s: seq<byte>, t: seq<byte>, p: nat)
    requires Damaged(s, t, p)
    ensures |s| == |t|
  {
  }

  lemma SameHeader(w: seq<byte>, v: seq<byte>)
    requires |w| >= HEADER_SIZE && |v| >= HEADER_SIZE && w[..6] == v[..6]
    ensures LengthIn(v) == LengthIn(w) && FromLittleEndian(v[..4]) == FromLittleEndian(w[..4])
  {
    assert v[..4] == v[..6][..4] && w[..4] == w[..6][..4];
    assert v[4] == v[..6][4] && v[5] == v[..6][5] && w[4] == w[..6][4] && w[5] == w[..6][5];
  }

  /** Fragment `k` with payload byte `x` changed to `b`. */
  ghost function Flipped(groups: seq<seq<Frag>>, k: nat, x: nat, b: byte): Damage
    requires k < |AllFrags(groups)| && FragsOk(AllFrags(groups)) && x < |AllFrags(groups)[k].data|
  {
    var f := AllFrags(groups)[k];
    assert FragOk(f);
    Damage(CrcSums(), AllFrags(groups), k, Physical(CrcSums(), f)[HEADER_SIZE + x := b])
  }

  lemma FlippedRejected(f: Frag, x: nat, b: byte)
    requires FragOk(f) && x < |f.data| && b != f.data[x]
    ensures Rejected(CrcSums(), Physical(CrcSums(), f)[HEADER_SIZE + x := b])
  {
    hide MaskedCrc, CrcMatches, Rejected;
    var s := [f.ty] + f.data;
    OneByteDamaged(s, x + 1, b);
    PayloadDamageRejected(f, s[x + 1 := b], x + 1);
    var w := Physical(CrcSums(), f);
    assert w == w[..6] + s;
    assert w[HEADER_SIZE + x := b] == w[..6] + s[x + 1 := b];
  }

  lemma SpliceOfByte(s: seq<byte>, a: nat, piece: seq<byte>, i: nat, b: byte)
    requires a + |piece| <= |s| && s[a..a + |piece|] == piece && i < |piece|
    ensures Spliced(s, a, piece[i := b]) == s[a + i := b]
  {
    assert s == s[..a] + piece + s[a + |piece|..];
  }

  /** Where payload byte `x` of fragment `k` is in the file. */
  ghost function BytePos(groups: seq<seq<Frag>>, k: nat, x: nat): nat
    requires k < |AllFrags(groups)| && FragsOk(AllFrags(groups))
  {
    Start(Pos(Physicals(CrcSums(), AllFrags(groups)), k)) + HEADER_SIZE + x
  }

  /** Changing the byte in the file damages its fragment, and nothing else. */
  lemma FlippedFile(groups: seq<seq<Frag>>, records: seq<seq<byte>>, file: seq<byte>, k: nat, x: nat, b: byte)
    requires WrittenLog(CrcSums(), groups, records, file)
    requires k < |AllFrags(groups)| && x < |AllFrags(groups)[k].data| && b != AllFrags(groups)[k].data[x]
    ensures BytePos(groups, k, x) < |file| && DamageOk(Flipped(groups, k, x, b))
    ensures DamagedFile(Flipped(groups, k, x, b)) == file[BytePos(groups, k, x) := b]
    ensures Reports(Flipped(groups, k, x, b).bad) == 1
  {
    hide CrcSums, Groups, Rejected, DamagedFile, FileTo, Pos, Start, AllFrags;
    var fs := AllFrags(groups);
    var ps, d := Physicals(CrcSums(), fs), Flipped(groups, k, x, b);
    assert FragOk(fs[k]);
    CrcSumsOk();
    FlippedRejected(fs[k], x, b);
    DamageIsSplice(d);
    RecordAt(ps, k);
    SpliceOfByte(file, Start(Pos(ps, k)), ps[k], HEADER_SIZE + x, b);
  }

  /**
   * One payload byte of a written log is changed, anywhere: the records around the damage are read
   * as they were written, no other is returned, and the damage is reported.
   */
  lemma FlippedByte(groups: seq<seq<Frag>>, records: seq<seq<byte>>, file: seq<byte>, k: nat, x: nat, b: byte, r: nat,
                    q: nat)
    requires WrittenLog(CrcSums(), groups, records, file)
    requires k < |AllFrags(groups)| && x < |AllFrags(groups)[k].data| && b != AllFrags(groups)[k].data[x]
    requires DamagesRecord(Flipped(groups, k, x, b), groups, records, r, q)
    ensures r < q <= |records| && BytePos(groups, k, x) < |file|
    ensures ReadAll(CrcSums(), file[BytePos(groups, k, x) := b], Input(0, [], false, 0))
         == (records[..r] + records[q..], ReportsOf(Flipped(groups, k, x, b), groups, r, q))
    ensures ReportsOf(Flipped(groups, k, x, b), groups, r, q) >= 1
  {
    hide CrcSums, DamageOk, DamagedFile, FragsTo, AllFrags, Groups, AllFit, BytePos, Resume, ReadAll;
    FlippedFile(groups, records, file, k, x, b);
    DamageIsLocal(Flipped(groups, k, x, b), groups, records, r, q);
  }

  /** A log of one record in one fragment: with a payload byte changed, nothing is returned and one drop reported. */
  lemma OneRecordFlipped(data: seq<byte>, x: nat, b: byte)
    requires |data| <= BLOCK_SIZE - HEADER_SIZE && x < |data| && b != data[x]
    ensures ReadAll(CrcSums(), Physical(CrcSums(), Frag(FULL_TYPE, data))[HEADER_SIZE + x := b],
                    Input(0, [], false, 0)) == ([], 1)
  {
    hide CrcSums, ReadAll, WrittenLog, DamageOk, Physicals;
    var f := Frag(FULL_TYPE, data);
    var groups := [[f]];
    OneFragment(f, data);
    FlippedFile(groups, [data], Physical(CrcSums(), f), 0, x, b);
    assert AllFrags(groups) == [f] && [f][0] == f && FragsOk(AllFrags(groups));
    OneFragmentDamaged(Flipped(groups, 0, x, b), f, data);
    FlippedByte(groups, [data], Physical(CrcSums(), f), 0, x, b, 0, 1);
  }

  lemma OneFragmentDamaged(d: Damage, f: Frag, data: seq<byte>)
    requires DamageOk(d) && d.fs == [f] && Groups([[f]], [data]) && d.k == 0
    ensures DamagesRecord(d, [[f]], [data], 0, 1) && ReportsOf(d, [[f]], 0, 1) == Reports(d.bad)
  {
    hide DamageOk, Groups;
    assert FragsTo([[f]], 0) == [] && FragsTo([[f]], 1) == [f] && AllFrags([[f]]) == [f];
    assert Resume(d) == 1;
  }

  lemma OneFragment(f: Frag, data: seq<byte>)
    requires f == Frag(FULL_TYPE, data) && FragOk(f)
    ensures AllFrags([[f]]) == [f] && FragsOk([f]) && Groups([[f]], [data])
    ensures WrittenLog(CrcSums(), [[f]], [data], Physical(CrcSums(), f))
    ensures forall x: nat :: BytePos([[f]], 0, x) == HEADER_SIZE + x
  {
    hide CrcSums, Header;
    var groups := [[f]];
    assert FragsTo(groups, 0) == [] && FragsTo(groups, 1) == [f];
    assert [f][..0] == [] && Joined([f]) == data;
    var ps := Physicals(CrcSums(), [f]);
    assert Start(0) == 0 && Pos(ps, 0) == 0 && FileTo(ps, 0) == [];
    assert FileTo(ps, 1) == ps[0];
    assert Fits(ps, 0);
  }
}
