/**
 * Checksum states as an abstract group with a linear zero-byte step: feeding bytes one at a
 * time, a word at a time, and in four interleaved strides.
 */
module CrcAlgebra {
  import opened PbVarints

  /**
   * Exclusive or, the step past one zero bit, the bits in a byte, the injections of bytes and
   * words, and the parts of a word from its second, third and fourth byte on.
   */
  datatype Steps<!T> = Steps(xor: (T, T) -> T, bit: T -> T, width: nat, bits: byte -> T,
                             word: (byte, byte, byte, byte) -> T,
                             from1: (byte, byte, byte) -> T, from2: (byte, byte) -> T, from3: byte -> T)

  // The laws are applied to the operands a proof names, and to no others.
  ghost predicate On<T>(a: T, b: T, c: T) { true }

  ghost predicate OnWord(b0: byte, b1: byte, b2: byte, b3: byte) { true }

  ghost predicate Laws<T(!new)>(o: Steps<T>) {
    && (forall a, b, c {:trigger On(a, b, c)} :: On(a, b, c) ==>
          && o.xor(a, o.xor(b, c)) == o.xor(o.xor(a, b), c)
          && o.xor(a, b) == o.xor(b, a)
          && o.bit(o.xor(a, b)) == o.xor(o.bit(a), o.bit(b)))
    && forall b0, b1, b2, b3 {:trigger OnWord(b0, b1, b2, b3)} :: OnWord(b0, b1, b2, b3) ==> WordLaw(o, b0, b1, b2, b3)
  }

  /** A zero byte shifts the rest of a word down to its next byte. */
  ghost predicate WordLaw<T>(o: Steps<T>, b0: byte, b1: byte, b2: byte, b3: byte) {
    && o.word(b0, b1, b2, b3) == o.xor(o.bits(b0), o.from1(b1, b2, b3))
    && Zero(o, o.from1(b1, b2, b3)) == o.xor(o.bits(b1), o.from2(b2, b3))
    && Zero(o, o.from2(b2, b3)) == o.xor(o.bits(b2), o.from3(b3))
    && Zero(o, o.from3(b3)) == o.bits(b3)
  }

  /** Advances a state past one zero byte. */
  function Zero<T>(o: Steps<T>, x: T): T {
    ZeroBits(o, o.width, x)
  }

  function ZeroBits<T>(o: Steps<T>, n: nat, x: T): T {
    if n == 0 then x else ZeroBits(o, n - 1, o.bit(x))
  }

  function ByteStep<T>(o: Steps<T>, l: T, b: byte): T {
    Zero(o, o.xor(l, o.bits(b)))
  }

  function FourBytes<T>(o: Steps<T>, l: T, b0: byte, b1: byte, b2: byte, b3: byte): T {
    ByteStep(o, ByteStep(o, ByteStep(o, ByteStep(o, l, b0), b1), b2), b3)
  }

  function Four<T>(o: Steps<T>, x: T): T {
    Zero(o, Zero(o, Zero(o, Zero(o, x))))
  }

  function Sixteen<T>(o: Steps<T>, x: T): T {
    Four(o, Four(o, Four(o, Four(o, x))))
  }

  lemma Assoc<T(!new)>(o: Steps<T>, a: T, b: T, c: T)
    requires Laws(o)
    ensures o.xor(a, o.xor(b, c)) == o.xor(o.xor(a, b), c)
  {
    assert On(a, b, c);
  }

  lemma Comm<T(!new)>(o: Steps<T>, a: T, b: T)
    requires Laws(o)
    ensures o.xor(a, b) == o.xor(b, a)
  {
    assert On(a, b, a);
  }

  lemma BitLinear<T(!new)>(o: Steps<T>, a: T, b: T)
    requires Laws(o)
    ensures o.bit(o.xor(a, b)) == o.xor(o.bit(a), o.bit(b))
  {
    assert On(a, b, a);
  }

  lemma {:induction false} ZeroBitsLinear<T(!new)>(o: Steps<T>, n: nat, a: T, b: T)
    requires Laws(o)
    ensures ZeroBits(o, n, o.xor(a, b)) == o.xor(ZeroBits(o, n, a), ZeroBits(o, n, b))
    decreases n
  {
    if n > 0 {
      BitLinear(o, a, b);
      ZeroBitsLinear(o, n - 1, o.bit(a), o.bit(b));
    }
  }

  lemma ZeroLinear<T(!new)>(o: Steps<T>, a: T, b: T)
    requires Laws(o)
    ensures Zero(o, o.xor(a, b)) == o.xor(Zero(o, a), Zero(o, b))
  {
    ZeroBitsLinear(o, o.width, a, b);
  }

  lemma FourLinear<T(!new)>(o: Steps<T>, a: T, b: T)
    requires Laws(o)
    ensures Four(o, o.xor(a, b)) == o.xor(Four(o, a), Four(o, b))
  {
    ZeroLinear(o, a, b);
    ZeroLinear(o, Zero(o, a), Zero(o, b));
    ZeroLinear(o, Zero(o, Zero(o, a)), Zero(o, Zero(o, b)));
    ZeroLinear(o, Zero(o, Zero(o, Zero(o, a))), Zero(o, Zero(o, Zero(o, b))));
  }

  lemma SixteenLinear<T(!new)>(o: Steps<T>, a: T, b: T)
    requires Laws(o)
    ensures Sixteen(o, o.xor(a, b)) == o.xor(Sixteen(o, a), Sixteen(o, b))
  {
    FourLinear(o, a, b);
    FourLinear(o, Four(o, a), Four(o, b));
    FourLinear(o, Four(o, Four(o, a)), Four(o, Four(o, b)));
    FourLinear(o, Four(o, Four(o, Four(o, a))), Four(o, Four(o, Four(o, b))));
  }

  /** A state in four parts advances sixteen bytes part by part. */
  lemma SixteenOfParts<T(!new)>(o: Steps<T>, a: T, b: T, c: T, d: T)
    requires Laws(o)
    ensures Sixteen(o, o.xor(o.xor(o.xor(a, b), c), d))
            == o.xor(o.xor(o.xor(Sixteen(o, a), Sixteen(o, b)), Sixteen(o, c)), Sixteen(o, d))
  {
    SixteenLinear(o, o.xor(o.xor(a, b), c), d);
    SixteenLinear(o, o.xor(a, b), c);
    SixteenLinear(o, a, b);
  }

  // ------------------------------------------------------------ feeding bytes

  /** The bytes of `s` fed one at a time into the state `l`. */
  function Feed<T>(o: Steps<T>, l: T, s: seq<byte>): T {
    if s == [] then l else ByteStep(o, Feed(o, l, s[..|s| - 1]), s[|s| - 1])
  }

  lemma {:induction false} FeedConcat<T>(o: Steps<T>, l: T, a: seq<byte>, b: seq<byte>)
    ensures Feed(o, l, a + b) == Feed(o, Feed(o, l, a), b)
    decreases |b|
  {
    if b == [] {
      assert a + b == a;
    } else {
      FeedConcat(o, l, a, b[..|b| - 1]);
      assert (a + b)[..|a + b| - 1] == a + b[..|b| - 1];
    }
  }

  lemma FeedNext<T>(o: Steps<T>, l: T, s: seq<byte>, p: nat)
    requires p < |s|
    ensures Feed(o, l, s[..p + 1]) == ByteStep(o, Feed(o, l, s[..p]), s[p])
  {
    assert s[..p + 1][..p] == s[..p];
  }

  function WordAt<T>(o: Steps<T>, s: seq<byte>, p: nat): T
    requires p + 4 <= |s|
  {
    o.word(s[p], s[p + 1], s[p + 2], s[p + 3])
  }

  /** Four bytes at a time: one word, then four zero steps. */
  lemma FeedWord<T(!new)>(o: Steps<T>, l: T, s: seq<byte>, p: nat)
    requires Laws(o) && p + 4 <= |s|
    ensures Feed(o, l, s[..p + 4]) == Four(o, o.xor(Feed(o, l, s[..p]), WordAt(o, s, p)))
  {
    FeedNext(o, l, s, p);
    FeedNext(o, l, s, p + 1);
    FeedNext(o, l, s, p + 2);
    FeedNext(o, l, s, p + 3);
    WordIsFourBytes(o, Feed(o, l, s[..p]), s[p], s[p + 1], s[p + 2], s[p + 3]);
  }

  /** A byte, then the rest of the word already shifted down. */
  lemma PeelByte<T(!new)>(o: Steps<T>, a: T, b: T, rest: T, down: T)
    requires Laws(o) && Zero(o, rest) == down
    ensures Zero(o, o.xor(a, o.xor(b, rest))) == o.xor(Zero(o, o.xor(a, b)), down)
  {
    Assoc(o, a, b, rest);
    ZeroLinear(o, o.xor(a, b), rest);
  }

  lemma WordIsFourBytes<T(!new)>(o: Steps<T>, a: T, b0: byte, b1: byte, b2: byte, b3: byte)
    requires Laws(o)
    ensures FourBytes(o, a, b0, b1, b2, b3) == Four(o, o.xor(a, o.word(b0, b1, b2, b3)))
  {
    assert OnWord(b0, b1, b2, b3);
    var a1 := ByteStep(o, a, b0);
    var a2 := ByteStep(o, a1, b1);
    var a3 := ByteStep(o, a2, b2);
    PeelByte(o, a, o.bits(b0), o.from1(b1, b2, b3), o.xor(o.bits(b1), o.from2(b2, b3)));
    PeelByte(o, a1, o.bits(b1), o.from2(b2, b3), o.xor(o.bits(b2), o.from3(b3)));
    PeelByte(o, a2, o.bits(b2), o.from3(b3), o.bits(b3));
  }

  // ------------------------------------------------------------------ strides

  /** The state that four partial results stand for. */
  function Combined<T>(o: Steps<T>, c0: T, c1: T, c2: T, c3: T): T {
    Four(o, o.xor(Four(o, o.xor(Four(o, o.xor(Four(o, c0), c1)), c2)), c3))
  }

  /** One stride: the oldest partial result jumps sixteen bytes ahead and takes the next word. */
  lemma StrideRotates<T(!new)>(o: Steps<T>, c0: T, c1: T, c2: T, c3: T, w: T)
    requires Laws(o)
    ensures Combined(o, c1, c2, c3, o.xor(w, Sixteen(o, c0))) == Four(o, o.xor(Combined(o, c0, c1, c2, c3), w))
  {
    var d1 := Four(o, c0);
    FourLinear(o, d1, c1);
    var d2, e1 := Four(o, d1), Four(o, c1);
    Assoc(o, d2, e1, c2);
    FourLinear(o, d2, o.xor(e1, c2));
    var d3, e2 := Four(o, d2), Four(o, o.xor(e1, c2));
    Assoc(o, d3, e2, c3);
    FourLinear(o, d3, o.xor(e2, c3));
    var d4, e3 := Four(o, d3), Four(o, o.xor(e2, c3));
    assert Combined(o, c0, c1, c2, c3) == o.xor(d4, e3);
    LastExchange(o, d4, e3, w);
  }

  lemma LastExchange<T(!new)>(o: Steps<T>, d: T, e: T, w: T)
    requires Laws(o)
    ensures o.xor(e, o.xor(w, d)) == o.xor(o.xor(d, e), w)
  {
    Comm(o, w, d);
    Assoc(o, e, d, w);
    Comm(o, e, d);
  }

  /** One more word, taken by the oldest partial result, stands for four more bytes. */
  lemma StrideFeeds<T(!new)>(o: Steps<T>, l: T, s: seq<byte>, p: nat, c0: T, c1: T, c2: T, c3: T)
    requires Laws(o) && p + 4 <= |s| && Combined(o, c0, c1, c2, c3) == Feed(o, l, s[..p])
    ensures Combined(o, c1, c2, c3, o.xor(WordAt(o, s, p), Sixteen(o, c0))) == Feed(o, l, s[..p + 4])
  {
    StrideRotates(o, c0, c1, c2, c3, WordAt(o, s, p));
    FeedWord(o, l, s, p);
  }

  /** Four words at once, one for each partial result. */
  lemma SwathFeeds<T(!new)>(o: Steps<T>, l: T, s: seq<byte>, p: nat, c0: T, c1: T, c2: T, c3: T)
    requires Laws(o) && p + 16 <= |s| && Combined(o, c0, c1, c2, c3) == Feed(o, l, s[..p])
    ensures Combined(o, o.xor(WordAt(o, s, p), Sixteen(o, c0)), o.xor(WordAt(o, s, p + 4), Sixteen(o, c1)),
                     o.xor(WordAt(o, s, p + 8), Sixteen(o, c2)), o.xor(WordAt(o, s, p + 12), Sixteen(o, c3)))
         == Feed(o, l, s[..p + 16])
  {
    var d0 := o.xor(WordAt(o, s, p), Sixteen(o, c0));
    var d1 := o.xor(WordAt(o, s, p + 4), Sixteen(o, c1));
    var d2 := o.xor(WordAt(o, s, p + 8), Sixteen(o, c2));
    StrideFeeds(o, l, s, p, c0, c1, c2, c3);
    StrideFeeds(o, l, s, p + 4, c1, c2, c3, d0);
    StrideFeeds(o, l, s, p + 8, c2, c3, d0, d1);
    StrideFeeds(o, l, s, p + 12, c3, d0, d1, d2);
  }

  /** The first sixteen bytes set up the partial results. */
  lemma StartFeeds<T(!new)>(o: Steps<T>, l: T, s: seq<byte>, p: nat)
    requires Laws(o) && p + 16 <= |s|
    ensures Combined(o, o.xor(WordAt(o, s, p), Feed(o, l, s[..p])), WordAt(o, s, p + 4), WordAt(o, s, p + 8),
                     WordAt(o, s, p + 12))
         == Feed(o, l, s[..p + 16])
  {
    Comm(o, WordAt(o, s, p), Feed(o, l, s[..p]));
    FeedWord(o, l, s, p);
    FeedWord(o, l, s, p + 4);
    FeedWord(o, l, s, p + 8);
    FeedWord(o, l, s, p + 12);
  }

  // ---------------------------------------------------------------- the loops

  /** The code's steps: one byte (STEP1), one zero byte, and a stride taking a word (STEP4). */
  datatype Lookups<!T> = Lookups(byteStep: (T, byte) -> T, zeroStep: T -> T, strideStep: (T, T) -> T)

  ghost predicate LookupsOk<T(!new)>(o: Steps<T>, k: Lookups<T>) {
    && (forall l, b :: k.byteStep(l, b) == ByteStep(o, l, b))
    && (forall x :: k.zeroStep(x) == Zero(o, x))
    && forall c, w :: k.strideStep(c, w) == o.xor(w, Sixteen(o, c))
  }

  method Bytewise<T(!new)>(o: Steps<T>, k: Lookups<T>, l0: T, data: seq<byte>, first: nat, last: nat, ghost start: T)
      returns (l: T)
    requires LookupsOk(o, k) && first <= last <= |data| && l0 == Feed(o, start, data[..first])
    ensures l == Feed(o, start, data[..last])
  {
    l := l0;
    var p := first;
    while p != last
      invariant first <= p <= last && l == Feed(o, start, data[..p])
      decreases last - p
    {
      l := k.byteStep(l, data[p]);
      FeedNext(o, start, data, p);
      p := p + 1;
    }
  }

  /** STEP4W: a word and four zero steps. */
  method Step4W<T(!new)>(o: Steps<T>, k: Lookups<T>, w: T, l: T) returns (r: T)
    requires LookupsOk(o, k)
    ensures r == Four(o, o.xor(w, l))
  {
    r := o.xor(w, l);
    r := k.zeroStep(r);
    r := k.zeroStep(r);
    r := k.zeroStep(r);
    r := k.zeroStep(r);
  }

  /** STEP16. */
  method Step16<T(!new)>(o: Steps<T>, k: Lookups<T>, data: seq<byte>, p: nat, c0: T, c1: T, c2: T, c3: T,
                         ghost start: T)
    returns (d0: T, d1: T, d2: T, d3: T)
    requires Laws(o) && LookupsOk(o, k) && p + 16 <= |data| && Combined(o, c0, c1, c2, c3) == Feed(o, start, data[..p])
    ensures Combined(o, d0, d1, d2, d3) == Feed(o, start, data[..p + 16])
  {
    SwathFeeds(o, start, data, p, c0, c1, c2, c3);
    d0 := k.strideStep(c0, WordAt(o, data, p));
    d1 := k.strideStep(c1, WordAt(o, data, p + 4));
    d2 := k.strideStep(c2, WordAt(o, data, p + 8));
    d3 := k.strideStep(c3, WordAt(o, data, p + 12));
  }

  /** One word for the oldest partial result, which then becomes the newest. */
  method StepWord<T(!new)>(o: Steps<T>, k: Lookups<T>, data: seq<byte>, p: nat, c0: T, c1: T, c2: T, c3: T,
                           ghost start: T) returns (d: T)
    requires Laws(o) && LookupsOk(o, k) && p + 4 <= |data| && Combined(o, c0, c1, c2, c3) == Feed(o, start, data[..p])
    ensures Combined(o, c1, c2, c3, d) == Feed(o, start, data[..p + 4])
  {
    StrideFeeds(o, start, data, p, c0, c1, c2, c3);
    d := k.strideStep(c0, WordAt(o, data, p));
  }

  /** The first sixteen bytes load the partial results. */
  method Load<T(!new)>(o: Steps<T>, data: seq<byte>, p: nat, l: T, ghost start: T) returns (d0: T, d1: T, d2: T, d3: T)
    requires Laws(o) && p + 16 <= |data| && l == Feed(o, start, data[..p])
    ensures Combined(o, d0, d1, d2, d3) == Feed(o, start, data[..p + 16])
  {
    StartFeeds(o, start, data, p);
    d0 := o.xor(WordAt(o, data, p), l);
    d1, d2, d3 := WordAt(o, data, p + 4), WordAt(o, data, p + 8), WordAt(o, data, p + 12);
  }

  /** The four partial results stand for the first `p` bytes. */
  ghost predicate StandFor<T>(o: Steps<T>, start: T, data: seq<byte>, p: nat, c: (T, T, T, T)) {
    p <= |data| && Combined(o, c.0, c.1, c.2, c.3) == Feed(o, start, data[..p])
  }

  /** Swaths of sixteen bytes, then single words, while there are enough bytes left. */
  method Advance<T(!new)>(o: Steps<T>, k: Lookups<T>, data: seq<byte>, first: nat, c0: (T, T, T, T), ghost start: T)
      returns (c: (T, T, T, T), p: nat)
    requires Laws(o) && LookupsOk(o, k) && StandFor(o, start, data, first, c0)
    ensures StandFor(o, start, data, p, c) && |data| < p + 4
  {
    c, p := c0, first;
    while |data| - p >= 16
      invariant StandFor(o, start, data, p, c)
      decreases |data| - p
    {
      var d0, d1, d2, d3 := Step16(o, k, data, p, c.0, c.1, c.2, c.3, start);
      c, p := (d0, d1, d2, d3), p + 16;
    }
    while |data| - p >= 4
      invariant StandFor(o, start, data, p, c)
      decreases |data| - p
    {
      var tmp := StepWord(o, k, data, p, c.0, c.1, c.2, c.3, start);
      c, p := (c.1, c.2, c.3, tmp), p + 4;
    }
  }

  /** The strided middle part: load the partial results, advance them, combine them. */
  method Strides<T(!new)>(o: Steps<T>, k: Lookups<T>, none: T, l0: T, data: seq<byte>, first: nat, ghost start: T)
      returns (l: T, p: nat)
    requires Laws(o) && LookupsOk(o, k) && (forall x :: o.xor(x, none) == x)
    requires first + 16 <= |data| && l0 == Feed(o, start, data[..first])
    ensures p <= |data| < p + 4 && l == Feed(o, start, data[..p])
  {
    var d0, d1, d2, d3 := Load(o, data, first, l0, start);
    var c;
    c, p := Advance(o, k, data, first + 16, (d0, d1, d2, d3), start);
    l := Combine(o, k, none, c.0, c.1, c.2, c.3);
  }

  method Combine<T(!new)>(o: Steps<T>, k: Lookups<T>, none: T, crc0: T, crc1: T, crc2: T, crc3: T) returns (l: T)
    requires Laws(o) && LookupsOk(o, k) && (forall x :: o.xor(x, none) == x)
    ensures l == Combined(o, crc0, crc1, crc2, crc3)
  {
    l := Step4W(o, k, crc0, none);
    Comm(o, crc1, l);
    l := Step4W(o, k, crc1, l);
    Comm(o, crc2, l);
    l := Step4W(o, k, crc2, l);
    Comm(o, crc3, l);
    l := Step4W(o, k, crc3, l);
  }

  /** The whole computation, for a buffer at any address modulo 4. */
  method Process<T(!new)>(o: Steps<T>, k: Lookups<T>, none: T, start: T, data: seq<byte>, address: nat) returns (l: T)
    requires Laws(o) && LookupsOk(o, k) && (forall x :: o.xor(x, none) == x)
    ensures l == Feed(o, start, data)
  {
    l := start;
    var p := 0;
    assert data[..0] == [];
    var x := (4 - address % 4) % 4;
    if x <= |data| {
      l := Bytewise(o, k, l, data, 0, x, start);
      p := x;
    }
    if |data| - p >= 16 {
      l, p := Strides(o, k, none, l, data, p, start);
    }
    l := Bytewise(o, k, l, data, p, |data|, start);
    assert data[..|data|] == data;
  }
}
