/** Physical log records: checksum, length, type and payload; and how records split into them. */
module LogFormat {
  import opened PbVarints
  import opened LogLayout
  import Crc32c

  const ZERO_TYPE: byte := 0
  const FULL_TYPE: byte := 1
  const FIRST_TYPE: byte := 2
  const MIDDLE_TYPE: byte := 3
  const LAST_TYPE: byte := 4

  datatype Frag = Frag(ty: byte, data: seq<byte>)

  ghost predicate FragOk(f: Frag) {
    1 <= f.ty <= 4 && |f.data| <= BLOCK_SIZE - HEADER_SIZE
  }

  // -------------------------------------------------------------- checksums

  /**
   * What the writer stores for a type and a payload, and what the reader accepts for the type byte
   * and payload together.
   */
  datatype Sums = Sums(stored: (byte, seq<byte>) -> nat, accepts: (nat, seq<byte>) -> bool)

  ghost predicate SumsOk(s: Sums) {
    forall ty: byte, data: seq<byte> :: s.stored(ty, data) < 0x1_0000_0000 && s.accepts(s.stored(ty, data), [ty] + data)
  }

  function MaskedCrc(ty: byte, data: seq<byte>): nat {
    Crc32c.Mask(Crc32c.ExtendBy(Crc32c.Value([ty]), data)) as int
  }

  predicate CrcMatches(stored: nat, typeAndData: seq<byte>) {
    stored < 0x1_0000_0000 && Crc32c.Value(typeAndData) == Crc32c.Unmask(stored as bv32)
  }

  /** Masked CRC32C: the type's checksum extended by the payload, against the checksum of both in one go. */
  function CrcSums(): Sums {
    Sums(MaskedCrc, CrcMatches)
  }

  lemma MaskedRoundTrip(ty: byte, data: seq<byte>)
    ensures MaskedCrc(ty, data) < 0x1_0000_0000 && CrcMatches(MaskedCrc(ty, data), [ty] + data)
  {
    Crc32c.ExtendComposes(0, [ty], data);
    var m := Crc32c.Mask(Crc32c.ExtendBy(Crc32c.Value([ty]), data));
    Crc32c.UnmaskUndoesMask(Crc32c.ExtendBy(Crc32c.Value([ty]), data));
    NumberAndBack(m);
  }

  lemma NumberAndBack(m: bv32)
    ensures m as int < 0x1_0000_0000 && (m as int) as bv32 == m
  {
  }

  lemma CrcSumsOk()
    ensures SumsOk(CrcSums())
  {
    forall ty: byte, data: seq<byte>
      ensures MaskedCrc(ty, data) < 0x1_0000_0000 && CrcMatches(MaskedCrc(ty, data), [ty] + data)
    {
      MaskedRoundTrip(ty, data);
    }
  }

  // ---------------------------------------------------------------- headers

  /** Four checksum bytes, two length bytes, the type byte. */
  function Header(s: Sums, f: Frag): (h: seq<byte>)
    requires |f.data| < 65536
    ensures |h| == HEADER_SIZE
  {
    LittleEndian(s.stored(f.ty, f.data), 4) + [|f.data| % 256, |f.data| / 256, f.ty]
  }

  function Physical(s: Sums, f: Frag): (r: seq<byte>)
    requires |f.data| < 65536
    ensures |r| == HEADER_SIZE + |f.data|
  {
    Header(s, f) + f.data
  }

  function LengthIn(h: seq<byte>): (n: nat)
    requires |h| >= HEADER_SIZE
  {
    h[4] as int + h[5] as int * 256
  }

  /** Parsing a physical record gives back its parts. */
  lemma PhysicalParses(s: Sums, f: Frag, rest: seq<byte>)
    requires SumsOk(s) && |f.data| < 65536
    ensures var b := Physical(s, f) + rest;
            && LengthIn(b) == |f.data| && b[6] == f.ty
            && FromLittleEndian(b[..4]) == s.stored(f.ty, f.data)
            && b[6..HEADER_SIZE + |f.data|] == [f.ty] + f.data
            && b[HEADER_SIZE..HEADER_SIZE + |f.data|] == f.data
            && b[HEADER_SIZE + |f.data|..] == rest
  {
    var b := Physical(s, f) + rest;
    var crc := LittleEndian(s.stored(f.ty, f.data), 4);
    assert s.accepts(s.stored(f.ty, f.data), [f.ty] + f.data);
    assert Pow256(4) == 0x1_0000_0000;
    LittleEndianRoundTrip(s.stored(f.ty, f.data), 4);
    assert b[..4] == crc;
    assert |f.data| / 256 * 256 + |f.data| % 256 == |f.data|;
  }

  // ------------------------------------------------------------ logical records

  ghost function Joined(fs: seq<Frag>): seq<byte> {
    if fs == [] then [] else Joined(fs[..|fs| - 1]) + fs[|fs| - 1].data
  }

  /** The type of fragment `i` of `n`. */
  function TypeOf(i: nat, n: nat): byte {
    if n == 1 then FULL_TYPE else if i == 0 then FIRST_TYPE else if i + 1 == n then LAST_TYPE else MIDDLE_TYPE
  }

  ghost predicate IsRecord(fs: seq<Frag>, data: seq<byte>) {
    && |fs| >= 1 && Joined(fs) == data
    && forall i :: 0 <= i < |fs| ==> FragOk(fs[i]) && fs[i].ty == TypeOf(i, |fs|)
  }

  ghost predicate FragsOk(fs: seq<Frag>) {
    forall i :: 0 <= i < |fs| ==> FragOk(fs[i])
  }

  ghost function Physicals(s: Sums, fs: seq<Frag>): (r: seq<seq<byte>>)
    requires FragsOk(fs)
    ensures |r| == |fs| && forall i :: 0 <= i < |r| ==> r[i] == Physical(s, fs[i])
  {
    seq(|fs|, i requires 0 <= i < |fs| => Physical(s, fs[i]))
  }

  // ------------------------------------------------------------- whole logs

  /** The fragments of the first `n` records. */
  ghost function FragsTo(groups: seq<seq<Frag>>, n: nat): seq<Frag>
    requires n <= |groups|
  {
    if n == 0 then [] else FragsTo(groups, n - 1) + groups[n - 1]
  }

  ghost function AllFrags(groups: seq<seq<Frag>>): seq<Frag> {
    FragsTo(groups, |groups|)
  }

  /** The fragments of each record, record by record. */
  ghost predicate Groups(groups: seq<seq<Frag>>, records: seq<seq<byte>>) {
    |groups| == |records| && forall r :: 0 <= r < |records| ==> IsRecord(groups[r], records[r])
  }

  lemma {:induction false} FragsPrefix(groups: seq<seq<Frag>>, i: nat, n: nat)
    requires i <= n <= |groups|
    ensures FragsTo(groups, i) <= FragsTo(groups, n)
    decreases n
  {
    if i < n {
      FragsPrefix(groups, i, n - 1);
    }
  }

  lemma {:induction false} FragsSnoc(groups: seq<seq<Frag>>, g: seq<Frag>, n: nat)
    requires n <= |groups|
    ensures FragsTo(groups + [g], n) == FragsTo(groups, n)
  {
    if n > 0 {
      FragsSnoc(groups, g, n - 1);
    }
  }

  lemma {:induction false} GroupsFragsOk(groups: seq<seq<Frag>>, records: seq<seq<byte>>, n: nat)
    requires Groups(groups, records) && n <= |groups|
    ensures FragsOk(FragsTo(groups, n))
  {
    if n > 0 {
      GroupsFragsOk(groups, records, n - 1);
      assert IsRecord(groups[n - 1], records[n - 1]);
    }
  }
}
