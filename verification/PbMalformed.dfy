/** Numbers on the wire that the nanopb decoder must turn away: cut off, too long, too large. */
module PbMalformed {
  import opened PbVarints
  import opened PbDecode

  /** No byte says that it is the last. */
  ghost predicate Unending(s: seq<byte>) {
    forall i :: 0 <= i < |s| ==> s[i] >= 128
  }

  lemma {:induction false} Unending64(s: seq<byte>, k: nat, acc: nat)
    requires Unending(s)
    ensures Read64From(s, k, acc).Bad?
    decreases |s|
  {
    if 7 * k < 64 && s != [] {
      Unending64(s[1..], k + 1, acc + (s[0] % 128) * Pow128(k) % TWO_64);
    }
  }

  lemma {:induction false} Unending32(s: seq<byte>, bitpos: nat, acc: nat)
    requires Unending(s)
    ensures Read32From(s, bitpos, acc).Bad?
    decreases |s|
  {
    if s != [] {
      Unending32(s[1..], (bitpos + 7) % 256,
                 if bitpos >= 32 then acc else BitOr(acc, Shifted(s[0] % 128, bitpos) % TWO_32));
    }
  }

  lemma {:induction false} UnendingSkip(s: seq<byte>)
    requires Unending(s)
    ensures SkipVarint(s).Bad?
  {
    if s != [] {
      UnendingSkip(s[1..]);
    }
  }

  lemma {:induction false} CutIsUnending(n: nat, k: nat)
    requires k < |VarintBytes(n)|
    ensures Unending(VarintBytes(n)[..k])
    decreases n
  {
    if n >= 128 && k > 0 {
      CutIsUnending(n / 128, k - 1);
      assert VarintBytes(n)[..k] == [n % 128 + 128] + VarintBytes(n / 128)[..k - 1];
    }
  }

  /** A number cut off anywhere is read by none of the readers. */
  lemma CutVarintFails(n: nat, k: nat)
    requires k < |VarintBytes(n)|
    ensures var s := VarintBytes(n)[..k]; ReadVarint64(s).Bad? && ReadVarint32(s).Bad? && SkipVarint(s).Bad?
  {
    var s := VarintBytes(n)[..k];
    CutIsUnending(n, k);
    Unending64(s, 0, 0);
    UnendingSkip(s);
    if s != [] {
      Unending32(s[1..], 7, s[0] % 128);
    }
  }

  /** Ten bytes none of which is the last are too many for 64 bits. */
  lemma {:induction false} TooLong64(s: seq<byte>, k: nat, acc: nat)
    requires k <= 10 && |s| >= 10 - k && forall i :: 0 <= i < 10 - k ==> s[i] >= 128
    ensures Read64From(s, k, acc).Bad?
    decreases 10 - k
  {
    if k < 10 {
      TooLong64(s[1..], k + 1, acc + (s[0] % 128) * Pow128(k) % TWO_64);
    }
  }

  lemma LongVarintFails(s: seq<byte>)
    requires |s| >= 10 && forall i :: 0 <= i < 10 ==> s[i] >= 128
    ensures ReadVarint64(s).Bad?
  {
    TooLong64(s, 0, 0);
  }

  /** The bytes of a number that reach past bit 35, and end before bit 63, end in one that is refused. */
  lemma {:induction false} PastBit35(m: nat, rest: seq<byte>, k: nat, acc: nat)
    requires 1 <= k <= 8 && 0 < m < Pow128(9 - k) && (k < 5 ==> m >= Pow128(5 - k))
    ensures Read32From(VarintBytes(m) + rest, 7 * k, acc).Bad?
    decreases m
  {
    hide BitOr, Shifted, VarintBytes;
    VarintStep(m, rest);
    var s := VarintBytes(m) + rest;
    if m >= 128 {
      var acc2 := if 7 * k >= 32 then acc else BitOr(acc, Shifted(s[0] % 128, 7 * k) % TWO_32);
      NextGroup(m, k);
      PastBit35(m / 128, rest, k + 1, acc2);
    } else if k < 5 {
      FewGroups(m, k);
    }
  }

  lemma NextGroup(m: nat, k: nat)
    requires 1 <= k <= 8 && 128 <= m < Pow128(9 - k) && (k < 5 ==> m >= Pow128(5 - k))
    ensures k < 8 && 0 < m / 128 < Pow128(9 - (k + 1)) && (k + 1 < 5 ==> m / 128 >= Pow128(5 - (k + 1)))
  {
    assert Pow128(9 - k) == 128 * Pow128(8 - k);
    assert k < 5 ==> Pow128(5 - k) == 128 * Pow128(4 - k);
  }

  lemma FewGroups(m: nat, k: nat)
    requires 1 <= k < 5 && m >= Pow128(5 - k)
    ensures m >= 128
  {
    Pow128Values();
  }

  /** Bits 32 to 34 are in the fifth byte, which must be below 16 if it is the last. */
  lemma {:induction false} FifthByte(m: nat, rest: seq<byte>, k: nat, acc: nat)
    requires 1 <= k <= 4 && 16 * Pow128(4 - k) <= m < Pow128(5 - k)
    ensures Read32From(VarintBytes(m) + rest, 7 * k, acc).Bad?
    decreases m
  {
    hide BitOr, Shifted, VarintBytes;
    VarintStep(m, rest);
    var s := VarintBytes(m) + rest;
    assert Pow128(1) == 128;
    if k < 4 {
      assert Pow128(4 - k) == 128 * Pow128(3 - k) && Pow128(5 - k) == 128 * Pow128(4 - k);
      PowPositive(3 - k);
      FifthByte(m / 128, rest, k + 1, BitOr(acc, Shifted(s[0] % 128, 7 * k) % TWO_32));
    }
  }

  lemma {:induction false} PowPositive(k: nat)
    ensures Pow128(k) >= 1
  {
    if k > 0 {
      PowPositive(k - 1);
    }
  }

  /** A number of 33 to 63 bits is refused where 32 are due: tags, lengths and flags. */
  lemma Over32Fails(n: nat, rest: seq<byte>)
    requires TWO_32 <= n < TWO_63
    ensures ReadVarint32(VarintBytes(n) + rest).Bad?
  {
    Pow128Values();
    VarintStep(n, rest);
    if n < 8 * TWO_32 {
      FifthByte(n / 128, rest, 1, n % 128);
    } else {
      assert Pow128(8) == 0x100_0000_0000_0000;
      PastBit35(n / 128, rest, 1, n % 128);
    }
  }
}
