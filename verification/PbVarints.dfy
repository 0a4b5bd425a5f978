/** Base-128 varints and little-endian words as nanopb writes and reads them. */
module PbVarints {

  type byte = x: int | 0 <= x < 256

  const TWO_31: nat := 0x8000_0000
  const TWO_32: nat := 0x1_0000_0000
  const TWO_63: nat := 0x8000_0000_0000_0000
  const TWO_64: nat := 0x1_0000_0000_0000_0000

  /** A value read and the input left after it, or a failed read. */
  datatype Read<+T> = Got(value: T, rest: seq<byte>) | Bad

  function Pow128(k: nat): nat {
    if k == 0 then 1 else 128 * Pow128(k - 1)
  }

  lemma Pow128Values()
    ensures Pow128(1) == 128 && Pow128(2) == 0x4000 && Pow128(3) == 0x20_0000 && Pow128(4) == 0x1000_0000
    ensures Pow128(9) == TWO_63 && Pow128(10) == 128 * TWO_63
  {
    assert Pow128(3) == 0x20_0000;
    assert Pow128(6) == 0x400_0000_0000;
  }

  // -------------------------------------------------------------- writing

  /** Seven bits a byte, low bits first, the top bit set on all bytes but the last. */
  function VarintBytes(n: nat): (r: seq<byte>)
    ensures |r| >= 1
  {
    if n < 128 then [n] else [n % 128 + 128] + VarintBytes(n / 128)
  }

  /** The encoder's loop: every byte gets its top bit, and the last one loses it again. */
  method EncodeVarint(value: nat) returns (buffer: seq<byte>)
    ensures buffer == VarintBytes(value)
  {
    if value <= 0x7F {
      return [value];
    }
    buffer := [];
    var v := value;
    while v != 0
      invariant v != 0 ==> VarintBytes(value) == buffer + VarintBytes(v)
      invariant v == 0 ==> |buffer| > 0 && buffer[|buffer| - 1] >= 128
                           && VarintBytes(value) == buffer[..|buffer| - 1] + [buffer[|buffer| - 1] - 128]
    {
      buffer := buffer + [v % 128 + 128];
      v := v / 128;
    }
    buffer := buffer[|buffer| - 1 := buffer[|buffer| - 1] - 128];
  }

  /** `count` bytes of `n`, low byte first. */
  function LittleEndian(n: nat, count: nat): (r: seq<byte>)
    ensures |r| == count
  {
    if count == 0 then [] else [n % 256] + LittleEndian(n / 256, count - 1)
  }

  function Pow256(k: nat): nat {
    if k == 0 then 1 else 256 * Pow256(k - 1)
  }

  function FromLittleEndian(s: seq<byte>): nat {
    if s == [] then 0 else s[0] + 256 * FromLittleEndian(s[1..])
  }

  lemma {:induction false} LittleEndianRoundTrip(n: nat, count: nat)
    requires n < Pow256(count)
    ensures FromLittleEndian(LittleEndian(n, count)) == n
  {
    if count > 0 {
      LittleEndianRoundTrip(n / 256, count - 1);
      assert LittleEndian(n, count)[1..] == LittleEndian(n / 256, count - 1);
    }
  }

  // -------------------------------------------------------------- reading

  function ReadBytes(s: seq<byte>, count: nat): (r: Read<seq<byte>>)
    ensures r.Got? ==> r.value + r.rest == s && |r.value| == count
  {
    if |s| < count then Bad else Got(s[..count], s[count..])
  }

  /** The 64-bit reader after `k` bytes with the value `acc` so far. */
  function Read64From(s: seq<byte>, k: nat, acc: nat): (r: Read<nat>)
    ensures r.Got? ==> |r.rest| < |s|
    decreases |s|
  {
    if 7 * k >= 64 || s == [] then Bad
    else
      var acc2 := acc + (s[0] % 128) * Pow128(k) % TWO_64;
      if s[0] >= 128 then Read64From(s[1..], k + 1, acc2) else Got(acc2, s[1..])
  }

  function ReadVarint64(s: seq<byte>): (r: Read<nat>)
    ensures r.Got? ==> |r.rest| < |s|
  {
    Read64From(s, 0, 0)
  }

  function Pow2(k: nat): nat {
    if k == 0 then 1 else 2 * Pow2(k - 1)
  }

  /** Bitwise or. */
  function BitOr(a: nat, b: nat): nat {
    if a == 0 then b
    else if b == 0 then a
    else 2 * BitOr(a / 2, b / 2) + if a % 2 == 1 || b % 2 == 1 then 1 else 0
  }

  /** A left shift. */
  function Shifted(n: nat, k: nat): nat {
    if k == 0 then n else 2 * Shifted(n, k - 1)
  }

  lemma {:induction false} ShiftedIs(n: nat, k: nat)
    ensures Shifted(n, k) == n * Pow2(k)
  {
    if k > 0 {
      ShiftedIs(n, k - 1);
    }
  }

  lemma OrDouble(a: nat, c: nat)
    ensures BitOr(a, 2 * c) == 2 * BitOr(a / 2, c) + a % 2
  {
  }

  /** Below bit `k` and from bit `k` on, nothing overlaps. */
  lemma {:induction false} OrIsSum(a: nat, b: nat, k: nat)
    requires a < Pow2(k)
    ensures BitOr(a, Shifted(b, k)) == a + Shifted(b, k)
  {
    if k > 0 {
      hide BitOr;
      OrIsSum(a / 2, b, k - 1);
      OrDouble(a, Shifted(b, k - 1));
    }
  }

  /**
   * The 32-bit reader inside its loop; bytes from bit 32 on may only be zero or a sign extension.
   * The bit position is itself a byte: it starts over after 37 bytes, and later bits fall on earlier ones.
   */
  function Read32From(s: seq<byte>, bitpos: nat, acc: nat): (r: Read<nat>)
    ensures r.Got? ==> |r.rest| < |s|
    decreases |s|
  {
    if s == [] then Bad
    else
      var b, low, next := s[0], s[0] % 128, (bitpos + 7) % 256;
      var signExtension := if bitpos < 63 then 0xFF else 0x01;
      if bitpos >= 32 && low != 0 && (acc < TWO_31 || b != signExtension) then Bad
      else
        var acc2 := if bitpos >= 32 then acc else BitOr(acc, Shifted(low, bitpos) % TWO_32);
        if b >= 128 then Read32From(s[1..], next, acc2)
        else if next == 35 && low >= 16 then Bad
        else Got(acc2, s[1..])
  }

  function ReadVarint32(s: seq<byte>): (r: Read<nat>)
    ensures r.Got? ==> |r.rest| < |s|
  {
    if s == [] then Bad
    else if s[0] < 128 then Got(s[0], s[1..])
    else Read32From(s[1..], 7, s[0] % 128)
  }

  // ----------------------------------------------------------- round trips

  lemma LowBits(r: nat)
    requires r < 128
    ensures (r + 128) % 128 == r && r % 128 == r
  {
  }

  lemma FirstOf(x: byte, a: seq<byte>, b: seq<byte>)
    ensures ([x] + a + b)[0] == x && ([x] + a + b)[1..] == a + b
  {
  }

  lemma VarintStep(n: nat, rest: seq<byte>)
    ensures (VarintBytes(n) + rest)[0] % 128 == n % 128
    ensures (VarintBytes(n) + rest)[0] >= 128 <==> n >= 128
    ensures n >= 128 ==> (VarintBytes(n) + rest)[1..] == VarintBytes(n / 128) + rest
    ensures n < 128 ==> (VarintBytes(n) + rest)[1..] == rest
  {
    LowBits(n % 128);
    if n < 128 {
      FirstOf(n, [], rest);
    } else {
      FirstOf(n % 128 + 128, VarintBytes(n / 128), rest);
    }
  }

  lemma ShiftSplit(n: nat, k: nat)
    ensures n * Pow128(k) == (n % 128) * Pow128(k) + (n / 128) * Pow128(k + 1)
  {
    var p, q, r := Pow128(k), n / 128, n % 128;
    assert n == 128 * q + r;
    calc {
      n * p;
      (128 * q + r) * p;
      128 * q * p + r * p;
      q * (128 * p) + r * p;
    }
  }

  lemma {:induction false} Read64Varint(n: nat, rest: seq<byte>, k: nat, acc: nat)
    requires k <= 9 && acc + n * Pow128(k) < TWO_64
    ensures Read64From(VarintBytes(n) + rest, k, acc) == Got(acc + n * Pow128(k), rest)
    decreases n
  {
    Pow128Values();
    VarintStep(n, rest);
    ShiftSplit(n, k);
    var low := (n % 128) * Pow128(k);
    assert low % TWO_64 == low;
    if n >= 128 {
      assert k < 9 by { NotPastTen(n, k); }
      Read64Varint(n / 128, rest, k + 1, acc + low);
    }
  }

  lemma NotPastTen(n: nat, k: nat)
    requires n >= 128 && n * Pow128(k) < TWO_64
    ensures k != 9
  {
    Pow128Values();
  }

  /** Any 64-bit value reads back as written. */
  lemma Varint64RoundTrip(n: nat, rest: seq<byte>)
    requires n < TWO_64
    ensures ReadVarint64(VarintBytes(n) + rest) == Got(n, rest)
  {
    assert n * Pow128(0) == n;
    Read64Varint(n, rest, 0, 0);
  }

  lemma Pow2Values()
    ensures Pow2(7) == Pow128(1) && Pow2(14) == Pow128(2) && Pow2(21) == Pow128(3) && Pow2(28) == Pow128(4)
  {
    assert Pow2(14) == 0x4000;
    assert Pow2(21) == 0x20_0000;
    Pow128Values();
  }

  lemma Read32Step(s: seq<byte>, bitpos: nat, acc: nat, x: nat)
    requires s != [] && bitpos < 32 && x == Shifted(s[0] % 128, bitpos) < TWO_32 && acc < Pow2(bitpos)
    ensures s[0] >= 128 ==> Read32From(s, bitpos, acc) == Read32From(s[1..], bitpos + 7, acc + x)
    ensures s[0] < 128 && (bitpos == 28 ==> s[0] % 128 < 16) ==> Read32From(s, bitpos, acc) == Got(acc + x, s[1..])
  {
    OrIsSum(acc, s[0] % 128, bitpos);
    hide BitOr, Pow2, Shifted;
    assert x % TWO_32 == x;
  }

  /** A byte that is not the last: `p` is the value of its lowest bit. */
  lemma Read32More(n: nat, rest: seq<byte>, bitpos: nat, p: nat, acc: nat)
    requires bitpos < 28 && p == Pow2(bitpos) && acc < p && n >= 128 && (n % 128) * p < TWO_32
    ensures Read32From(VarintBytes(n) + rest, bitpos, acc)
            == Read32From(VarintBytes(n / 128) + rest, bitpos + 7, acc + (n % 128) * p)
  {
    VarintStep(n, rest);
    ShiftedIs(n % 128, bitpos);
    Read32Step(VarintBytes(n) + rest, bitpos, acc, (n % 128) * p);
  }

  lemma Read32Last(n: nat, rest: seq<byte>, bitpos: nat, p: nat, acc: nat)
    requires bitpos < 32 && p == Pow2(bitpos) && acc < p && n < 128 && n * p < TWO_32 && (bitpos == 28 ==> n < 16)
    ensures Read32From(VarintBytes(n) + rest, bitpos, acc) == Got(acc + n * p, rest)
  {
    VarintStep(n, rest);
    assert n % 128 == n;
    ShiftedIs(n, bitpos);
    Read32Step(VarintBytes(n) + rest, bitpos, acc, n * p);
  }

  lemma {:induction false} Read32Varint(n: nat, rest: seq<byte>, k: nat, acc: nat)
    requires 1 <= k <= 4 && acc < Pow128(k) && acc + n * Pow128(k) < TWO_32
    ensures Read32From(VarintBytes(n) + rest, 7 * k, acc) == Got(acc + n * Pow128(k), rest)
    decreases n
  {
    hide Read32From, VarintBytes, Pow2;
    var p := Pow128(k);
    FitsShift(n, k, acc);
    if n >= 128 {
      ShiftSplit(n, k);
      assert (n % 128) * p <= 127 * p;
      Read32More(n, rest, 7 * k, p, acc);
      Read32Varint(n / 128, rest, k + 1, acc + (n % 128) * p);
    } else {
      Read32Last(n, rest, 7 * k, p, acc);
    }
  }

  lemma FitsShift(n: nat, k: nat, acc: nat)
    requires 1 <= k <= 4 && acc + n * Pow128(k) < TWO_32
    ensures Pow2(7 * k) == Pow128(k) && 7 * k < 32
    ensures (n % 128) * Pow128(k) < TWO_32
    ensures n >= 128 ==> k < 4
    ensures k == 4 ==> n < 16
  {
    Pow128Values();
    Pow2Values();
    assert (n % 128) * Pow128(k) <= n * Pow128(k);
    if k == 4 {
      assert n * 0x1000_0000 < TWO_32;
    }
  }

  lemma Read32Rest(n: nat, rest: seq<byte>)
    requires 128 <= n < TWO_32
    ensures Read32From(VarintBytes(n / 128) + rest, 7, n % 128) == Got(n, rest)
  {
    Pow128Values();
    assert n % 128 + n / 128 * 128 == n;
    Read32Varint(n / 128, rest, 1, n % 128);
  }

  /** Any 32-bit value reads back as written, through the reader used for tags and lengths. */
  lemma Varint32RoundTrip(n: nat, rest: seq<byte>)
    requires n < TWO_32
    ensures ReadVarint32(VarintBytes(n) + rest) == Got(n, rest)
  {
    VarintStep(n, rest);
    if n >= 128 {
      Read32Rest(n, rest);
    }
  }
}
