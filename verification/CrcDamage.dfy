/** What CRC32C always finds: any change within four neighbouring bytes, wherever they lie. */
module CrcDamage {
  import opened PbVarints
  import opened CrcAlgebra
  import opened Crc32c

  // ------------------------------------------------------- nothing is merged

  lemma BitStepInjective(a: bv32, b: bv32)
    requires BitStep(a) == BitStep(b)
    ensures a == b
  {
  }

  lemma {:induction false} ZeroBitsInjective(n: nat, a: bv32, b: bv32)
    requires ZeroBits(Crc(), n, a) == ZeroBits(Crc(), n, b)
    ensures a == b
  {
    if n > 0 {
      ZeroBitsInjective(n - 1, BitStep(a), BitStep(b));
      BitStepInjective(a, b);
    }
  }

  lemma XorInjective(a: bv32, b: bv32, c: bv32)
    requires Xor(a, c) == Xor(b, c)
    ensures a == b
  {
  }

  lemma ByteStepInjective(a: bv32, b: bv32, x: byte)
    requires ByteStep(Crc(), a, x) == ByteStep(Crc(), b, x)
    ensures a == b
  {
    ZeroBitsInjective(8, Xor(a, Bits(x)), Xor(b, Bits(x)));
    XorInjective(a, b, Bits(x));
  }

  /** Different states stay different, whatever is fed. */
  lemma {:induction false} FeedInjective(a: bv32, b: bv32, s: seq<byte>)
    requires Feed(Crc(), a, s) == Feed(Crc(), b, s)
    ensures a == b
    decreases |s|
  {
    if s != [] {
      var t := s[..|s| - 1];
      ByteStepInjective(Feed(Crc(), a, t), Feed(Crc(), b, t), s[|s| - 1]);
      FeedInjective(a, b, t);
    }
  }

  /** The bits of a byte are its binary digits. */
  lemma Digits(b: byte)
    ensures (Bits(b) & 1 == 1 <==> b % 2 == 1) && (Bits(b) & 2 == 2 <==> b / 2 % 2 == 1)
    ensures (Bits(b) & 4 == 4 <==> b / 4 % 2 == 1) && (Bits(b) & 8 == 8 <==> b / 8 % 2 == 1)
    ensures (Bits(b) & 16 == 16 <==> b / 16 % 2 == 1) && (Bits(b) & 32 == 32 <==> b / 32 % 2 == 1)
    ensures (Bits(b) & 64 == 64 <==> b / 64 % 2 == 1) && (Bits(b) & 128 == 128 <==> b / 128 % 2 == 1)
  {
  }

  lemma Times(m: nat, x: nat, y: nat)
    ensures x <= y ==> m * x <= m * y
  {
  }

  lemma Quotient(a: nat, m: nat, q: nat, r: nat)
    requires m > 0 && a == m * q + r && r < m
    ensures a / m == q
  {
    Times(m, a / m + 1, q);
    Times(m, q + 1, a / m);
  }

  lemma DivTwice(a: nat, n: nat)
    requires n > 0
    ensures a / (2 * n) == a / n / 2
  {
    var q := a / n / 2;
    var d := a / n - 2 * q;
    assert a == (2 * n) * q + (n * d + a % n);
    assert 0 <= n * d + a % n < 2 * n;
    Quotient(a, 2 * n, q, n * d + a % n);
  }

  /** Numbers that agree from one digit on and in the digit before agree from there on. */
  lemma SameDigit(a: nat, b: nat, n: nat)
    requires n > 0 && a / n % 2 == b / n % 2 && a / (2 * n) == b / (2 * n)
    ensures a / n == b / n
  {
    DivTwice(a, n);
    DivTwice(b, n);
  }

  lemma HighDigits(a: byte, b: byte)
    requires Bits(a) == Bits(b)
    ensures a / 16 == b / 16
  {
    hide Bits;
    Digits(a);
    Digits(b);
    SameDigit(a, b, 128);
    SameDigit(a, b, 64);
    SameDigit(a, b, 32);
    SameDigit(a, b, 16);
  }

  lemma BitsInjective(a: byte, b: byte)
    requires Bits(a) == Bits(b)
    ensures a == b
  {
    hide Bits;
    HighDigits(a, b);
    Digits(a);
    Digits(b);
    SameDigit(a, b, 8);
    SameDigit(a, b, 4);
    SameDigit(a, b, 2);
    SameDigit(a, b, 1);
  }

  lemma PartsOfWord(b0: bv32, b1: bv32, b2: bv32, b3: bv32)
    requires b0 & 0xff == b0 && b1 & 0xff == b1 && b2 & 0xff == b2 && b3 & 0xff == b3
    ensures var w := b0 | (b1 << 8) | (b2 << 16) | (b3 << 24);
            w & 0xff == b0 && (w >> 8) & 0xff == b1 && (w >> 16) & 0xff == b2 && w >> 24 == b3
  {
  }

  lemma WordHolds(b0: byte, b1: byte, b2: byte, b3: byte)
    ensures var w := Little(b0, b1, b2, b3);
            w & 0xff == Bits(b0) && (w >> 8) & 0xff == Bits(b1) && (w >> 16) & 0xff == Bits(b2) && w >> 24 == Bits(b3)
  {
    ByteBits(b0);
    ByteBits(b1);
    ByteBits(b2);
    ByteBits(b3);
    PartsOfWord(Bits(b0), Bits(b1), Bits(b2), Bits(b3));
  }

  /** Equal words have equal bytes. */
  lemma WordInjective(s: seq<byte>, t: seq<byte>, p: nat)
    requires p + 4 <= |s| && p + 4 <= |t| && WordAt(Crc(), s, p) == WordAt(Crc(), t, p)
    ensures s[p..p + 4] == t[p..p + 4]
  {
    WordHolds(s[p], s[p + 1], s[p + 2], s[p + 3]);
    WordHolds(t[p], t[p + 1], t[p + 2], t[p + 3]);
    BitsInjective(s[p], t[p]);
    BitsInjective(s[p + 1], t[p + 1]);
    BitsInjective(s[p + 2], t[p + 2]);
    BitsInjective(s[p + 3], t[p + 3]);
  }

  // ---------------------------------------------------------------- damage

  /** The strings differ, but only within the four bytes from `p` on. */
  ghost predicate Damaged(s: seq<byte>, t: seq<byte>, p: nat) {
    Within(s, t, p) && s != t
  }

  /** The strings have the same length and are the same outside the four bytes from `p` on. */
  ghost predicate Within(s: seq<byte>, t: seq<byte>, p: nat) {
    |s| == |t| && forall i :: 0 <= i < |s| && (i < p || p + 4 <= i) ==> s[i] == t[i]
  }

  lemma OneByteDamaged(s: seq<byte>, k: nat, b: byte)
    requires k < |s| && b != s[k]
    ensures Damaged(s, s[k := b], k)
  {
    assert s[k := b][k] != s[k];
  }

  lemma WithinParts(s: seq<byte>, t: seq<byte>, p: nat)
    requires Within(s, t, p) && p + 4 <= |s|
    ensures |s| == |t| && s[..p] == t[..p] && s[p + 4..] == t[p + 4..]
    ensures s == s[..p + 4] + s[p + 4..] && t == t[..p + 4] + t[p + 4..]
    ensures s[p..p + 4] == t[p..p + 4] ==> s == t
  {
    assert s == s[..p] + s[p..p + 4] + s[p + 4..];
    assert t == t[..p] + t[p..p + 4] + t[p + 4..];
  }

  /** Strings that differ at most in four bytes and lead from one state to one state are the same. */
  lemma WindowFeeds(l: bv32, s: seq<byte>, t: seq<byte>, p: nat)
    requires Within(s, t, p) && p + 4 <= |s| && Feed(Crc(), l, s) == Feed(Crc(), l, t)
    ensures s == t
  {
    hide Feed, Within;
    WithinParts(s, t, p);
    FeedConcat(Crc(), l, s[..p + 4], s[p + 4..]);
    FeedConcat(Crc(), l, t[..p + 4], s[p + 4..]);
    FeedInjective(Feed(Crc(), l, s[..p + 4]), Feed(Crc(), l, t[..p + 4]), s[p + 4..]);
    WindowWords(l, s, t, p);
  }

  lemma WindowWords(l: bv32, s: seq<byte>, t: seq<byte>, p: nat)
    requires p + 4 <= |s| && p + 4 <= |t| && s[..p] == t[..p]
    requires Feed(Crc(), l, s[..p + 4]) == Feed(Crc(), l, t[..p + 4])
    ensures s[p..p + 4] == t[p..p + 4]
  {
    CrcObeysLaws();
    FeedWord(Crc(), l, s, p);
    FeedWord(Crc(), l, t, p);
    var a, w, x := Feed(Crc(), l, s[..p]), WordAt(Crc(), s, p), WordAt(Crc(), t, p);
    FourInjective(Xor(a, w), Xor(a, x));
    XorLaws(a, w, 0);
    XorLaws(a, x, 0);
    XorInjective(w, x, a);
    WordInjective(s, t, p);
  }

  lemma FourInjective(a: bv32, b: bv32)
    requires Four(Crc(), a) == Four(Crc(), b)
    ensures a == b
  {
    hide ZeroBits;
    var c := Crc();
    ZeroBitsInjective(8, Zero(c, Zero(c, Zero(c, a))), Zero(c, Zero(c, Zero(c, b))));
    ZeroBitsInjective(8, Zero(c, Zero(c, a)), Zero(c, Zero(c, b)));
    ZeroBitsInjective(8, Zero(c, a), Zero(c, b));
    ZeroBitsInjective(8, a, b);
  }

  lemma WithinPadded(s: seq<byte>, t: seq<byte>, p: nat, zeros: seq<byte>)
    requires Within(s, t, p)
    ensures Within(s + zeros, t + zeros, p) && (s + zeros == t + zeros || p >= |s| ==> s == t)
  {
    assert s == (s + zeros)[..|s|] && t == (t + zeros)[..|t|];
  }

  /** A window that reaches past the end is one in both strings followed by zeros. */
  lemma PaddedFeeds(l: bv32, s: seq<byte>, t: seq<byte>, p: nat)
    requires Within(s, t, p) && Feed(Crc(), l, s) == Feed(Crc(), l, t)
    ensures s == t
  {
    hide Feed, Within;
    var zeros: seq<byte> := [0, 0, 0, 0];
    WithinPadded(s, t, p, zeros);
    if p < |s| {
      FeedConcat(Crc(), l, s, zeros);
      FeedConcat(Crc(), l, t, zeros);
      WindowFeeds(l, s + zeros, t + zeros, p);
    }
  }

  /** The checksums of a string and of one damaged within four neighbouring bytes differ. */
  lemma DamageChangesCrc(crc: bv32, s: seq<byte>, t: seq<byte>, p: nat)
    requires Damaged(s, t, p)
    ensures ExtendBy(crc, s) != ExtendBy(crc, t)
  {
    if ExtendBy(crc, s) == ExtendBy(crc, t) {
      FlipTwice(Feed(Crc(), Flip(crc), s));
      FlipTwice(Feed(Crc(), Flip(crc), t));
      PaddedFeeds(Flip(crc), s, t, p);
    }
  }

  /** Masking loses nothing, so different stored values stand for different checksums. */
  lemma MaskUndoesUnmask(masked: bv32)
    ensures Mask(Unmask(masked)) == masked
  {
  }
}
