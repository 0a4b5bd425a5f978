/** The log reader: blocks, physical records, logical records, and the drops it reports. */
module LogReader {
  import opened PbVarints
  import opened LogLayout
  import opened LogFormat

  // Outcomes share the number space of record types.
  const EOF: nat := 5
  const BAD_RECORD: nat := 6

  /** What is read of the file so far: the end of the buffer in the file, the buffer, end of file, reports made. */
  datatype Input = Input(filePos: nat, buffer: seq<byte>, eof: bool, drops: nat)

  datatype Fragment = Fragment(ty: nat, data: seq<byte>)

  function Min(a: nat, b: nat): nat {
    if a < b then a else b
  }

  /** Bytes of the file not yet consumed. */
  function Unread(file: seq<byte>, s: Input): int {
    |file| - s.filePos + |s.buffer|
  }

  /** Reads the next block; a short read means the end of the file. */
  function Refill(file: seq<byte>, s: Input): Input
    requires s.filePos <= |file|
  {
    var n := Min(BLOCK_SIZE, |file| - s.filePos);
    Input(s.filePos + n, file[s.filePos..s.filePos + n], n < BLOCK_SIZE, s.drops)
  }

  function Drop(s: Input): Input {
    s.(buffer := [], drops := s.drops + 1)
  }

  /** One physical record out of a buffer that holds at least a header. */
  function Parse(sums: Sums, s: Input): (r: (Input, Fragment))
    requires |s.buffer| >= HEADER_SIZE
  {
    var b := s.buffer;
    var length := LengthIn(b);
    if HEADER_SIZE + length > |b| then
      if s.eof then (s.(buffer := []), Fragment(EOF, [])) else (Drop(s), Fragment(BAD_RECORD, []))
    else if b[6] == ZERO_TYPE && length == 0 then (s.(buffer := []), Fragment(BAD_RECORD, []))
    else if !sums.accepts(FromLittleEndian(b[..4]), b[6..HEADER_SIZE + length]) then (Drop(s), Fragment(BAD_RECORD, []))
    else (s.(buffer := b[HEADER_SIZE + length..]), Fragment(b[6], b[HEADER_SIZE..HEADER_SIZE + length]))
  }

  /** Skips block tails and refills until a header is there, then parses. */
  function ReadPhysical(sums: Sums, file: seq<byte>, s: Input): (r: (Input, Fragment))
    requires s.filePos <= |file|
    ensures r.0.filePos <= |file|
    ensures r.1.ty != EOF ==> Unread(file, r.0) < Unread(file, s)
    decreases |file| - s.filePos, !s.eof
  {
    if |s.buffer| >= HEADER_SIZE then Parse(sums, s)
    else if s.eof then (s.(buffer := []), Fragment(EOF, []))
    else ReadPhysical(sums, file, Refill(file, s))
  }

  /** What to do after a fragment: stop with a result, or go on with what has been put together so far. */
  datatype Action = Stop(input: Input, result: LogicalResult) | More(input: Input, inFragment: bool, scratch: seq<byte>)

  function Count(s: Input): Input {
    s.(drops := s.drops + 1)
  }

  function AfterFragment(s: Input, f: Fragment, inFragment: bool, scratch: seq<byte>): (r: Action)
    ensures r.input == s || r.input == Count(s)
    ensures f.ty == EOF ==> r.Stop? && r.result.NoRecord?
    ensures f.ty != EOF && r.Stop? ==> r.result.Record?
  {
    var lost := if inFragment && scratch != [] then Count(s) else s;
    if f.ty == EOF then Stop(s, NoRecord)
    else if f.ty == FULL_TYPE then Stop(lost, Record(f.data))
    else if f.ty == FIRST_TYPE then More(lost, true, f.data)
    else if f.ty == MIDDLE_TYPE then
      if inFragment then More(s, true, scratch + f.data) else More(Count(s), false, scratch)
    else if f.ty == LAST_TYPE then
      if inFragment then Stop(s, Record(scratch + f.data)) else More(Count(s), false, scratch)
    else if f.ty == BAD_RECORD then if inFragment then More(Count(s), false, []) else More(s, false, scratch)
    else More(Count(s), false, [])
  }

  /** A logical record, or none at the end. */
  function ReadLogical(sums: Sums, file: seq<byte>, s: Input, inFragment: bool,
                       scratch: seq<byte>): (r: (Input, LogicalResult))
    requires s.filePos <= |file|
    ensures r.0.filePos <= |file|
    ensures r.1.Record? ==> Unread(file, r.0) < Unread(file, s)
    decreases Unread(file, s)
  {
    var p := ReadPhysical(sums, file, s);
    match AfterFragment(p.0, p.1, inFragment, scratch)
    case Stop(input, result) => (input, result)
    case More(input, b, more) => ReadLogical(sums, file, input, b, more)
  }

  datatype LogicalResult = Record(data: seq<byte>) | NoRecord

  // --------------------------------------------------------------- the reader

  class Reader {
    const sums: Sums
    const file: seq<byte>
    var input: Input

    ghost predicate Ok()
      reads this
    {
      input.filePos <= |file|
    }

    constructor (sums: Sums, file: seq<byte>)
      ensures Ok() && this.sums == sums && this.file == file && input == Input(0, [], false, 0)
    {
      this.sums, this.file, input := sums, file, Input(0, [], false, 0);
    }

    method ReportCorruption()
      requires Ok()
      modifies this
      ensures input == old(input).(drops := old(input).drops + 1)
    {
      input := input.(drops := input.drops + 1);
    }

    method ReadPhysicalRecord() returns (f: Fragment)
      requires Ok()
      modifies this
      ensures Ok() && (input, f) == ReadPhysical(sums, file, old(input))
    {
      while |input.buffer| < HEADER_SIZE
        invariant Ok() && ReadPhysical(sums, file, input) == ReadPhysical(sums, file, old(input))
        decreases |file| - input.filePos, !input.eof
      {
        if input.eof {
          input := input.(buffer := []);
          return Fragment(EOF, []);
        }
        input := Refill(file, input);
      }
      var header := input.buffer;
      var length := LengthIn(header);
      if HEADER_SIZE + length > |header| {
        input := input.(buffer := []);
        if !input.eof {
          ReportCorruption();
          return Fragment(BAD_RECORD, []);
        }
        return Fragment(EOF, []);
      }
      if header[6] == ZERO_TYPE && length == 0 {
        input := input.(buffer := []);
        return Fragment(BAD_RECORD, []);
      }
      if !sums.accepts(FromLittleEndian(header[..4]), header[6..HEADER_SIZE + length]) {
        input := input.(buffer := []);
        ReportCorruption();
        return Fragment(BAD_RECORD, []);
      }
      input := input.(buffer := header[HEADER_SIZE + length..]);
      f := Fragment(header[6], header[HEADER_SIZE..HEADER_SIZE + length]);
    }

    /** What a fragment does to the record being put together, with the reports it causes. */
    method TakeFragment(f: Fragment, inFragment: bool, scratch: seq<byte>) returns (a: Action)
      requires Ok()
      modifies this
      ensures Ok() && a == AfterFragment(old(input), f, inFragment, scratch) && input == a.input
    {
      if f.ty == FULL_TYPE || f.ty == FIRST_TYPE {
        if inFragment && scratch != [] {
          ReportCorruption();
        }
        a := if f.ty == FULL_TYPE then Stop(input, Record(f.data)) else More(input, true, f.data);
      } else if f.ty == MIDDLE_TYPE {
        if !inFragment {
          ReportCorruption();
        }
        a := More(input, inFragment, if inFragment then scratch + f.data else scratch);
      } else if f.ty == LAST_TYPE {
        if !inFragment {
          ReportCorruption();
        }
        a := if inFragment then Stop(input, Record(scratch + f.data)) else More(input, false, scratch);
      } else if f.ty == EOF {
        a := Stop(input, NoRecord);
      } else if f.ty == BAD_RECORD {
        if inFragment {
          ReportCorruption();
        }
        a := More(input, false, if inFragment then [] else scratch);
      } else {
        ReportCorruption();
        a := More(input, false, []);
      }
    }

    method ReadRecord() returns (r: LogicalResult)
      requires Ok()
      modifies this
      ensures Ok() && (input, r) == ReadLogical(sums, file, old(input), false, [])
    {
      var scratch: seq<byte> := [];
      var inFragment := false;
      while true
        invariant Ok() && ReadLogical(sums, file, input, inFragment, scratch)
                  == ReadLogical(sums, file, old(input), false, [])
        decreases Unread(file, input)
      {
        var f := ReadPhysicalRecord();
        var a := TakeFragment(f, inFragment, scratch);
        if a.Stop? {
          return a.result;
        }
        scratch, inFragment := a.scratch, a.inFragment;
      }
    }
  }
}
