/** CRC32C: the byte-at-a-time definition, the strided computation that equals it, and masking. */
module Crc32c {
  import opened PbVarints
  import opened CrcAlgebra

  // The Castagnoli polynomial, bits reversed.
  const POLYNOMIAL: bv32 := 0x82f63b78
  const ALL_ONES: bv32 := 0xffffffff
  const MASK_DELTA: bv32 := 0xa282ead8

  // -------------------------------------------------------------- bit level

  function BitStep(l: bv32): bv32 {
    if l & 1 == 1 then (l >> 1) ^ POLYNOMIAL else l >> 1
  }

  function Xor(a: bv32, b: bv32): bv32 { a ^ b }

  function Bits(b: byte): bv32 { b as bv32 }

  function Little(b0: byte, b1: byte, b2: byte, b3: byte): bv32 {
    Bits(b0) | (Bits(b1) << 8) | (Bits(b2) << 16) | (Bits(b3) << 24)
  }

  function From1(b1: byte, b2: byte, b3: byte): bv32 { (Bits(b1) << 8) | (Bits(b2) << 16) | (Bits(b3) << 24) }

  function From2(b2: byte, b3: byte): bv32 { (Bits(b2) << 8) | (Bits(b3) << 16) }

  function From3(b3: byte): bv32 { Bits(b3) << 8 }

  /** CRC32C as an instance of the algebra. */
  function Crc(): Steps<bv32> {
    Steps(Xor, BitStep, 8, Bits, Little, From1, From2, From3)
  }

  lemma ShiftXor(a: bv32, b: bv32)
    ensures (a ^ b) >> 1 == (a >> 1) ^ (b >> 1)
  {
  }

  lemma LowXor(a: bv32, b: bv32)
    ensures (a ^ b) & 1 == (a & 1) ^ (b & 1)
    ensures (a & 1 == 0 || a & 1 == 1) && (b & 1 == 0 || b & 1 == 1)
  {
  }

  lemma XorMove(a: bv32, b: bv32, p: bv32)
    ensures (a ^ p) ^ (b ^ p) == a ^ b && (a ^ p) ^ b == (a ^ b) ^ p && a ^ (b ^ p) == (a ^ b) ^ p
  {
  }

  function EightBits(l: bv32): bv32 {
    BitStep(BitStep(BitStep(BitStep(BitStep(BitStep(BitStep(BitStep(l))))))))
  }

  lemma EightBitsShift(x: bv32)
    requires x & 0xff == 0
    ensures EightBits(x) == x >> 8
  {
  }

  lemma ByteBits(b: byte)
    ensures Bits(b) & 0xff == Bits(b)
  {
  }

  lemma WordParts(b0: bv32, b1: bv32, b2: bv32, b3: bv32)
    requires b0 & 0xff == b0
    ensures b0 | (b1 << 8) | (b2 << 16) | (b3 << 24) == b0 ^ ((b1 << 8) | (b2 << 16) | (b3 << 24))
  {
  }

  lemma Shift1(b1: bv32, b2: bv32, b3: bv32)
    requires b1 & 0xff == b1
    ensures ((b1 << 8) | (b2 << 16) | (b3 << 24)) & 0xff == 0
    ensures b3 & 0xff == b3 && b2 & 0xff == b2 ==>
              ((b1 << 8) | (b2 << 16) | (b3 << 24)) >> 8
              == b1 ^ ((b2 << 8) | (b3 << 16))
  {
  }

  lemma Shift2(b2: bv32, b3: bv32)
    requires b2 & 0xff == b2 && b3 & 0xff == b3
    ensures ((b2 << 8) | (b3 << 16)) & 0xff == 0 && ((b2 << 8) | (b3 << 16)) >> 8 == b2 ^ (b3 << 8)
  {
  }

  lemma Shift3(b3: bv32)
    requires b3 & 0xff == b3
    ensures (b3 << 8) & 0xff == 0 && (b3 << 8) >> 8 == b3
  {
  }

  lemma ZeroShifts(x: bv32, y: bv32)
    requires x & 0xff == 0 && x >> 8 == y
    ensures Zero(Crc(), x) == y
  {
    EightBitsShift(x);
    ZeroIsEightBits(x);
  }

  lemma ZeroIsEightBits(x: bv32)
    ensures Zero(Crc(), x) == EightBits(x)
  {
  }

  lemma WordLawHolds(b0: byte, b1: byte, b2: byte, b3: byte)
    ensures WordLaw(Crc(), b0, b1, b2, b3)
  {
    WordSplits(b0, b1, b2, b3);
    From1Shifts(b1, b2, b3);
    From2Shifts(b2, b3);
    From3Shifts(b3);
  }

  lemma WordSplits(b0: byte, b1: byte, b2: byte, b3: byte)
    ensures Little(b0, b1, b2, b3) == Xor(Bits(b0), From1(b1, b2, b3))
  {
    ByteBits(b0);
    WordParts(Bits(b0), Bits(b1), Bits(b2), Bits(b3));
  }

  lemma From1Shifts(b1: byte, b2: byte, b3: byte)
    ensures Zero(Crc(), From1(b1, b2, b3)) == Xor(Bits(b1), From2(b2, b3))
  {
    ByteBits(b1);
    ByteBits(b2);
    ByteBits(b3);
    Shift1(Bits(b1), Bits(b2), Bits(b3));
    ZeroShifts(From1(b1, b2, b3), Xor(Bits(b1), From2(b2, b3)));
  }

  lemma From2Shifts(b2: byte, b3: byte)
    ensures Zero(Crc(), From2(b2, b3)) == Xor(Bits(b2), From3(b3))
  {
    ByteBits(b2);
    ByteBits(b3);
    Shift2(Bits(b2), Bits(b3));
    ZeroShifts(From2(b2, b3), Xor(Bits(b2), From3(b3)));
  }

  lemma From3Shifts(b3: byte)
    ensures Zero(Crc(), From3(b3)) == Bits(b3)
  {
    ByteBits(b3);
    Shift3(Bits(b3));
    ZeroShifts(From3(b3), Bits(b3));
  }

  lemma XorLaws(a: bv32, b: bv32, c: bv32)
    ensures Xor(a, Xor(b, c)) == Xor(Xor(a, b), c) && Xor(a, b) == Xor(b, a)
  {
  }

  lemma BitLaw(a: bv32, b: bv32)
    ensures BitStep(a ^ b) == BitStep(a) ^ BitStep(b)
  {
    ShiftXor(a, b);
    LowXor(a, b);
    XorMove(a >> 1, b >> 1, POLYNOMIAL);
  }

  lemma CrcObeysLaws()
    ensures Laws(Crc())
  {
    forall a, b, c: bv32 | On(a, b, c)
      ensures Xor(a, Xor(b, c)) == Xor(Xor(a, b), c) && Xor(a, b) == Xor(b, a)
      ensures BitStep(Xor(a, b)) == Xor(BitStep(a), BitStep(b))
    {
      XorLaws(a, b, c);
      BitLaw(a, b);
    }
    forall b0, b1, b2, b3 | OnWord(b0, b1, b2, b3)
      ensures WordLaw(Crc(), b0, b1, b2, b3)
    {
      WordLawHolds(b0, b1, b2, b3);
    }
  }

  // --------------------------------------------------------------- checksums

  function Flip(crc: bv32): bv32 { Xor(crc, ALL_ONES) }

  /** The checksum of a string with checksum `crc` continued by `data`. */
  function ExtendBy(crc: bv32, data: seq<byte>): bv32 {
    Flip(Feed(Crc(), Flip(crc), data))
  }

  function Value(data: seq<byte>): bv32 {
    ExtendBy(0, data)
  }

  lemma FlipTwice(crc: bv32)
    ensures Flip(Flip(crc)) == crc
  {
  }

  /** Extending twice is extending once by the concatenation. */
  lemma ExtendComposes(crc: bv32, a: seq<byte>, b: seq<byte>)
    ensures ExtendBy(ExtendBy(crc, a), b) == ExtendBy(crc, a + b)
  {
    var l := Flip(crc);
    FlipTwice(Feed(Crc(), l, a));
    FeedConcat(Crc(), l, a, b);
  }

  // ------------------------------------------------------------ known values

  lemma ByteFed(s: seq<byte>, p: nat, l: bv32, bits: bv32, r: bv32)
    requires p < |s| && Feed(Crc(), ALL_ONES, s[..p]) == l && Bits(s[p]) == bits && EightBits(l ^ bits) == r
    ensures Feed(Crc(), ALL_ONES, s[..p + 1]) == r
  {
    hide EightBits, Bits, Feed, ZeroBits;
    FeedNext(Crc(), ALL_ONES, s, p);
    ZeroIsEightBits(l ^ bits);
  }

  lemma FeedNothing(l: bv32)
    ensures Feed(Crc(), l, []) == l
  {
  }

  lemma CheckRounds1()
    ensures EightBits(ALL_ONES ^ 0x31) == 0x6f0a661c && EightBits(0x6f0a661c ^ 0x32) == 0x8caa3b9f
    ensures EightBits(0x8caa3b9f ^ 0x33) == 0xef84d04d
  {
  }

  lemma CheckRounds2()
    ensures EightBits(0xef84d04d ^ 0x34) == 0x09c50b11 && EightBits(0x09c50b11 ^ 0x35) == 0xe72edcca
    ensures EightBits(0xe72edcca ^ 0x36) == 0xbeca8e79
  {
  }

  lemma CheckRounds3()
    ensures EightBits(0xbeca8e79 ^ 0x37) == 0xedbd6815 && EightBits(0xedbd6815 ^ 0x38) == 0x9f787f65
    ensures EightBits(0x9f787f65 ^ 0x39) == 0x1cf96d7c
  {
  }

  lemma DigitBits()
    ensures Bits(0x31) == 0x31 && Bits(0x32) == 0x32 && Bits(0x33) == 0x33 && Bits(0x34) == 0x34 && Bits(0x35) == 0x35
    ensures Bits(0x36) == 0x36 && Bits(0x37) == 0x37 && Bits(0x38) == 0x38 && Bits(0x39) == 0x39
  {
  }

  /** The check value by which CRC32C is known: the checksum of the digits 1 to 9 in ASCII. */
  lemma CheckValue()
    ensures Value([0x31, 0x32, 0x33, 0x34, 0x35, 0x36, 0x37, 0x38, 0x39]) == 0xe3069283
  {
    hide Feed, ZeroBits, EightBits, Bits;
    CheckRounds1();
    CheckRounds2();
    CheckRounds3();
    DigitBits();
    var s: seq<byte> := [0x31, 0x32, 0x33, 0x34, 0x35, 0x36, 0x37, 0x38, 0x39];
    FeedNothing(ALL_ONES);
    assert s[..0] == [];
    ByteFed(s, 0, ALL_ONES, 0x31, 0x6f0a661c);
    ByteFed(s, 1, 0x6f0a661c, 0x32, 0x8caa3b9f);
    ByteFed(s, 2, 0x8caa3b9f, 0x33, 0xef84d04d);
    ByteFed(s, 3, 0xef84d04d, 0x34, 0x09c50b11);
    ByteFed(s, 4, 0x09c50b11, 0x35, 0xe72edcca);
    ByteFed(s, 5, 0xe72edcca, 0x36, 0xbeca8e79);
    ByteFed(s, 6, 0xbeca8e79, 0x37, 0xedbd6815);
    ByteFed(s, 7, 0xedbd6815, 0x38, 0x9f787f65);
    ByteFed(s, 8, 0x9f787f65, 0x39, 0x1cf96d7c);
    assert s[..9] == s;
  }

  function Mask(crc: bv32): bv32 {
    ((crc >> 15) | (crc << 17)) + MASK_DELTA
  }

  function Unmask(masked: bv32): bv32 {
    var rot := masked - MASK_DELTA;
    (rot >> 17) | (rot << 15)
  }

  lemma UnmaskUndoesMask(crc: bv32)
    ensures Unmask(Mask(crc)) == crc
  {
  }

  // ------------------------------------------------------------------ tables

  type Table = t: seq<bv32> | |t| == 256 witness seq(256, i => 0)

  datatype Tables = Tables(byteTable: Table, stride0: Table, stride1: Table, stride2: Table, stride3: Table)

  function At(t: Table, i: bv32): bv32 {
    if i < 256 then t[i as int] else 0
  }

  /** Entry `i` is the effect of one zero byte on the state `i`. */
  ghost predicate ByteTable(t: Table) {
    forall i: bv32 :: i < 256 ==> At(t, i) == Zero(Crc(), i)
  }

  /** Entries are the effect of sixteen zero bytes on one byte of the state. */
  ghost predicate StrideTables(t: Tables) {
    && (forall i: bv32 :: i < 256 ==> At(t.stride3, i) == Sixteen(Crc(), i))
    && (forall i: bv32 :: i < 256 ==> At(t.stride2, i) == Sixteen(Crc(), i << 8))
    && (forall i: bv32 :: i < 256 ==> At(t.stride1, i) == Sixteen(Crc(), i << 16))
    && forall i: bv32 :: i < 256 ==> At(t.stride0, i) == Sixteen(Crc(), i << 24)
  }

  lemma LowAndHigh(x: bv32)
    ensures x & 0xff < 256 && x == (x & 0xff) ^ (x & 0xffffff00)
    ensures (x & 0xffffff00) & 0xff == 0 && (x & 0xffffff00) >> 8 == x >> 8
  {
  }

  lemma ByteInLow(l: bv32, b: bv32)
    requires b & 0xff == b
    ensures (l & 0xff) ^ b == (l ^ b) & 0xff && l >> 8 == (l ^ b) >> 8 && (l & 0xff) ^ b < 256
  {
  }

  lemma FourParts(c: bv32)
    ensures c & 0xff < 256 && (c >> 8) & 0xff < 256 && (c >> 16) & 0xff < 256 && c >> 24 < 256
    ensures c == Xor(Xor(Xor(c & 0xff, ((c >> 8) & 0xff) << 8), ((c >> 16) & 0xff) << 16), (c >> 24) << 24)
  {
  }

  /** One table lookup and a shift. */
  function TableZero(t: Table, w: bv32): bv32 {
    Xor(w >> 8, At(t, w & 0xff))
  }

  /** STEP1. */
  function Step1(t: Table, l: bv32, b: byte): bv32 {
    Xor(At(t, (l & 0xff) ^ Bits(b)), l >> 8)
  }

  /** STEP4. */
  function Step4(t: Tables, c: bv32, w: bv32): bv32 {
    Xor(Xor(Xor(Xor(w, At(t.stride3, c & 0xff)), At(t.stride2, (c >> 8) & 0xff)), At(t.stride1, (c >> 16) & 0xff)),
        At(t.stride0, c >> 24))
  }

  lemma ZeroOfParts(w: bv32)
    ensures w & 0xff < 256 && Zero(Crc(), w) == Xor(w >> 8, Zero(Crc(), w & 0xff))
  {
    CrcObeysLaws();
    LowAndHigh(w);
    ZeroLinear(Crc(), w & 0xff, w & 0xffffff00);
    ZeroShifts(w & 0xffffff00, w >> 8);
    XorLaws(w >> 8, Zero(Crc(), w & 0xff), 0);
  }

  lemma TableZeroIs(t: Table, w: bv32)
    requires ByteTable(t)
    ensures TableZero(t, w) == Zero(Crc(), w)
  {
    ZeroOfParts(w);
  }

  /** STEP1 on the bits of a byte. */
  lemma Step1OnBits(t: Table, l: bv32, b: bv32)
    requires ByteTable(t) && b & 0xff == b
    ensures (l & 0xff) ^ b < 256 && Xor(At(t, (l & 0xff) ^ b), l >> 8) == Zero(Crc(), Xor(l, b))
  {
    ByteInLow(l, b);
    TableZeroIs(t, Xor(l, b));
    XorLaws(At(t, (l & 0xff) ^ b), l >> 8, 0);
  }

  lemma Step1Is(t: Table, l: bv32, b: byte)
    requires ByteTable(t)
    ensures Step1(t, l, b) == ByteStep(Crc(), l, b)
  {
    ByteBits(b);
    Step1OnBits(t, l, Bits(b));
  }

  lemma FiveXor(w: bv32, a: bv32, b: bv32, c: bv32, d: bv32)
    ensures Xor(Xor(Xor(Xor(w, a), b), c), d) == Xor(w, Xor(Xor(Xor(a, b), c), d))
  {
  }

  lemma StridesAt(t: Tables, c: bv32)
    requires StrideTables(t)
    ensures At(t.stride3, c & 0xff) == Sixteen(Crc(), c & 0xff)
    ensures At(t.stride2, (c >> 8) & 0xff) == Sixteen(Crc(), ((c >> 8) & 0xff) << 8)
    ensures At(t.stride1, (c >> 16) & 0xff) == Sixteen(Crc(), ((c >> 16) & 0xff) << 16)
    ensures At(t.stride0, c >> 24) == Sixteen(Crc(), (c >> 24) << 24)
  {
    FourParts(c);
  }

  lemma Step4Is(t: Tables, c: bv32, w: bv32)
    requires StrideTables(t)
    ensures Step4(t, c, w) == Xor(w, Sixteen(Crc(), c))
  {
    FourParts(c);
    StridesAt(t, c);
    CrcObeysLaws();
    SixteenOfParts(Crc(), c & 0xff, ((c >> 8) & 0xff) << 8, ((c >> 16) & 0xff) << 16, (c >> 24) << 24);
    FiveXor(w, At(t.stride3, c & 0xff), At(t.stride2, (c >> 8) & 0xff), At(t.stride1, (c >> 16) & 0xff),
            At(t.stride0, c >> 24));
  }

  function TableLookups(t: Tables): Lookups<bv32> {
    Lookups((l, b) => Step1(t.byteTable, l, b), w => TableZero(t.byteTable, w), (c, w) => Step4(t, c, w))
  }

  lemma TableLookupsOk(t: Tables)
    requires ByteTable(t.byteTable) && StrideTables(t)
    ensures LookupsOk(Crc(), TableLookups(t))
  {
    var k := TableLookups(t);
    forall l: bv32, b: byte
      ensures k.byteStep(l, b) == ByteStep(Crc(), l, b)
    {
      Step1Is(t.byteTable, l, b);
    }
    forall x: bv32
      ensures k.zeroStep(x) == Zero(Crc(), x)
    {
      TableZeroIs(t.byteTable, x);
    }
    forall c: bv32, w: bv32
      ensures k.strideStep(c, w) == Crc().xor(w, Sixteen(Crc(), c))
    {
      Step4Is(t, c, w);
    }
  }

  lemma XorNone()
    ensures forall x: bv32 :: Crc().xor(x, 0) == x
  {
  }

  /** Extend, for a buffer at any address, equals the byte-at-a-time checksum. */
  method Extend(t: Tables, crc: bv32, data: seq<byte>, address: nat) returns (r: bv32)
    requires ByteTable(t.byteTable) && StrideTables(t)
    ensures r == ExtendBy(crc, data)
  {
    CrcObeysLaws();
    TableLookupsOk(t);
    XorNone();
    var l := Process(Crc(), TableLookups(t), 0, Flip(crc), data, address);
    r := Flip(l);
  }
}
