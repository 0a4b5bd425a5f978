/** The log writer: fragments each record so that no fragment crosses a block. */
module LogWriter {
  import opened PbVarints
  import opened LogLayout
  import opened LogFormat

  /** The file holds the fragments laid out in blocks, and the offset is where its last block ends. */
  ghost predicate WriterOk(s: Sums, frags: seq<Frag>, dest: seq<byte>, blockOffset: nat) {
    && FragsOk(frags) && AllFit(Physicals(s, frags)) && dest == File(Physicals(s, frags))
    && blockOffset <= BLOCK_SIZE && blockOffset % BLOCK_SIZE == |dest| % BLOCK_SIZE
  }

  class Writer {
    const sums: Sums
    var dest: seq<byte>
    var blockOffset: nat
    ghost var frags: seq<Frag>

    ghost predicate Ok()
      reads this
    {
      WriterOk(sums, frags, dest, blockOffset)
    }

    constructor (sums: Sums)
      ensures Ok() && this.sums == sums && frags == []
    {
      this.sums, dest, blockOffset, frags := sums, [], 0, [];
    }

    /** Moves to a new block, filling the tail with zeros, when no header fits. */
    method FillTrailer()
      requires blockOffset <= BLOCK_SIZE && blockOffset % BLOCK_SIZE == |dest| % BLOCK_SIZE
      modifies this`dest, this`blockOffset
      ensures dest == old(dest) + Zeros(Start(|old(dest)|) - |old(dest)|)
      ensures blockOffset == Start(|old(dest)|) % BLOCK_SIZE && blockOffset + HEADER_SIZE <= BLOCK_SIZE
      ensures blockOffset == old(blockOffset) || blockOffset == 0
    {
      var leftover := BLOCK_SIZE - blockOffset;
      if leftover < HEADER_SIZE {
        if leftover > 0 {
          dest := dest + Zeros(leftover);
        }
        blockOffset := 0;
      }
    }

    /** Writes one physical record. */
    method EmitPhysicalRecord(ty: byte, data: seq<byte>)
      requires |data| < 65536
      modifies this`dest, this`blockOffset
      ensures dest == old(dest) + Physical(sums, Frag(ty, data))
      ensures blockOffset == old(blockOffset) + HEADER_SIZE + |data|
    {
      var length := |data|;
      var header := LittleEndian(sums.stored(ty, data), 4) + [length % 256, length / 256, ty];
      dest := dest + header;
      dest := dest + data;
      blockOffset := blockOffset + HEADER_SIZE + length;
    }

    /** One fragment, as much as fits in the current block or in the next. */
    method EmitFragment(data: seq<byte>, left: nat, begin: bool) returns (length: nat)
      requires Ok() && left <= |data|
      modifies this
      ensures Ok() && length <= left && length <= BLOCK_SIZE - HEADER_SIZE
      ensures frags == old(frags) + [Piece(data, left, length, begin)]
      ensures length == 0 && left > 0 ==> old(blockOffset) < blockOffset <= BLOCK_SIZE
    {
      hide WriterOk;
      ghost var before, offset := dest, blockOffset;
      OffsetAligned(sums, frags, dest, blockOffset);
      FillTrailer();
      ghost var start := blockOffset;
      length := Available(left);
      var f := Piece(data, left, length, begin);
      EmitPhysicalRecord(f.ty, f.data);
      FragAdded(sums, frags, before, offset, f, start);
      frags := frags + [f];
    }

    /** How much of `left` bytes fits behind a header in the current block. */
    method Available(left: nat) returns (length: nat)
      requires blockOffset + HEADER_SIZE <= BLOCK_SIZE
      ensures length <= left && blockOffset + HEADER_SIZE + length <= BLOCK_SIZE
      ensures length < left ==> blockOffset + HEADER_SIZE + length == BLOCK_SIZE
    {
      var avail := BLOCK_SIZE - blockOffset - HEADER_SIZE;
      length := if left < avail then left else avail;
    }

    /** Fragments the record and writes every fragment; an empty record still writes one. */
    method AddRecord(data: seq<byte>)
      requires Ok()
      modifies this
      ensures Ok() && |old(frags)| < |frags| && frags[..|old(frags)|] == old(frags)
      ensures IsRecord(frags[|old(frags)|..], data)
    {
      hide WriterOk;
      ghost var before, g := frags, [];
      var left: nat := |data|;
      var begin := true;
      while true
        invariant Ok() && frags == before + g && PartialRecord(g, data, left, begin)
        decreases left, BLOCK_SIZE - blockOffset
      {
        var length := EmitFragment(data, left, begin);
        PartialNext(g, data, left, length, begin);
        g := g + [Piece(data, left, length, begin)];
        if length == left {
          break;
        }
        left := left - length;
        begin := false;
      }
      assert frags[|before|..] == g;
    }
  }

  function PieceType(begin: bool, end: bool): byte {
    if begin && end then FULL_TYPE else if begin then FIRST_TYPE else if end then LAST_TYPE else MIDDLE_TYPE
  }

  /** The next `length` bytes of a record with `left` bytes to come. */
  function Piece(data: seq<byte>, left: nat, length: nat, begin: bool): (f: Frag)
    requires length <= left <= |data| && length <= BLOCK_SIZE - HEADER_SIZE
    ensures FragOk(f) && |f.data| == length
  {
    Frag(PieceType(begin, length == left), data[|data| - left..|data| - left + length])
  }

  /** The fragments are the beginning of a record with `left` bytes to come. */
  ghost predicate PartialRecord(g: seq<Frag>, data: seq<byte>, left: nat, begin: bool) {
    && left <= |data| && FragsOk(g) && Joined(g) == data[..|data| - left]
    && (begin <==> g == []) && (begin ==> left == |data|)
    && forall i :: 0 <= i < |g| ==> g[i].ty == if i == 0 then FIRST_TYPE else MIDDLE_TYPE
  }

  lemma PartialNext(g: seq<Frag>, data: seq<byte>, left: nat, length: nat, begin: bool)
    requires PartialRecord(g, data, left, begin) && length <= left && length <= BLOCK_SIZE - HEADER_SIZE
    ensures length < left ==> PartialRecord(g + [Piece(data, left, length, begin)], data, left - length, false)
    ensures length == left ==> IsRecord(g + [Piece(data, left, length, begin)], data)
  {
    var f := Piece(data, left, length, begin);
    var r := g + [f];
    assert r[..|r| - 1] == g;
    assert data[..|data| - (left - length)] == data[..|data| - left] + f.data;
    assert data[..|data|] == data;
  }

  lemma OffsetAligned(s: Sums, fs: seq<Frag>, d: seq<byte>, blockOffset: nat)
    requires WriterOk(s, fs, d, blockOffset)
    ensures blockOffset <= BLOCK_SIZE && blockOffset % BLOCK_SIZE == |d| % BLOCK_SIZE
  {
  }

  lemma FragAdded(s: Sums, fs: seq<Frag>, d: seq<byte>, blockOffset: nat, f: Frag, start: nat)
    requires WriterOk(s, fs, d, blockOffset) && FragOk(f)
    requires start == Start(|d|) % BLOCK_SIZE && start + HEADER_SIZE + |f.data| <= BLOCK_SIZE
    ensures WriterOk(s, fs + [f], d + Zeros(Start(|d|) - |d|) + Physical(s, f), start + HEADER_SIZE + |f.data|)
  {
    FileSnoc(Physicals(s, fs), Physical(s, f));
    assert Physicals(s, fs + [f]) == Physicals(s, fs) + [Physical(s, f)];
    AfterRecord(Start(|d|), |f.data|);
  }

  lemma AfterRecord(q: nat, n: nat)
    requires q % BLOCK_SIZE + HEADER_SIZE + n <= BLOCK_SIZE
    ensures (q % BLOCK_SIZE + HEADER_SIZE + n) % BLOCK_SIZE == (q + HEADER_SIZE + n) % BLOCK_SIZE
  {
    assert q == q / BLOCK_SIZE * BLOCK_SIZE + q % BLOCK_SIZE;
  }
}
