/** The decoder's stream code, proved against the decoder as a function of the bytes left. */
module PbIStream {
  import opened PbVarints
  import opened PbMessages
  import opened PbEncode
  import opened PbDecode
  import PbRoundTrip
  import PbOStream

  // ------------------------------------------------------ descriptor iterator

  /** Walks the fields in a circle, counting the required ones it has passed. */
  class FieldIter {
    const fields: seq<Field>
    var pos: nat
    var requiredFieldIndex: nat

    ghost predicate Ok()
      reads this
    {
      (fields == [] || pos < |fields|) && (fields == [] ==> pos == 0)
          && requiredFieldIndex == RequiredIndex(fields, pos)
    }

    constructor (fields: seq<Field>)
      ensures Ok() && this.fields == fields && pos == 0
    {
      this.fields, pos, requiredFieldIndex := fields, 0, 0;
    }

    /** False when it wraps back to the beginning. */
    method Next() returns (more: bool)
      requires Ok()
      modifies this
      ensures Ok() && more == (old(pos) + 1 < |fields|) && pos == if more then old(pos) + 1 else 0
    {
      if |fields| == 0 {
        return false;
      }
      if pos + 1 == |fields| {
        pos, requiredFieldIndex := 0, 0;
        return false;
      }
      if fields[pos].rule.Required? {
        requiredFieldIndex := requiredFieldIndex + 1;
      }
      pos := pos + 1;
      more := true;
    }

    /** Searches from where it stands, all the way round. */
    method Find(tag: nat) returns (found: bool)
      requires Ok()
      modifies this
      ensures Ok() && found == exists i :: 0 <= i < |fields| && fields[i].tag == tag
      ensures found ==> pos < |fields| && fields[pos].tag == tag
    {
      if |fields| == 0 {
        return false;
      }
      var start := pos;
      ghost var wrapped := false;
      while true
        invariant Ok() && if wrapped then pos <= start else pos >= start
        invariant forall i :: start <= i < (if wrapped then |fields| else pos) ==> fields[i].tag != tag
        invariant wrapped ==> forall i :: 0 <= i < pos ==> fields[i].tag != tag
        invariant wrapped ==> pos < start
        decreases if wrapped then start - pos else |fields| - pos + start + 1
      {
        if fields[pos].tag == tag {
          return true;
        }
        var more := Next();
        if !more {
          wrapped := true;
        }
        if pos == start {
          return false;
        }
      }
    }
  }

  /** With distinct tags the circular search finds what a lookup by tag finds. */
  lemma FoundIs(fields: seq<Field>, i: nat, tag: nat)
    requires i < |fields| && fields[i].tag == tag && FieldsOk(fields)
    ensures FindField(fields, tag) == At(i)
  {
    PbRoundTrip.FindIs(fields, i);
  }

  // ---------------------------------------------------------------- the stream

  class IStream {
    const buf: seq<byte>
    var state: nat
    var bytesLeft: nat

    ghost predicate Ok()
      reads this
    {
      state + bytesLeft <= |buf|
    }

    ghost function Left(): seq<byte>
      requires Ok()
      reads this
    {
      buf[state..state + bytesLeft]
    }

    constructor (buf: seq<byte>, state: nat, bytesLeft: nat)
      requires state + bytesLeft <= |buf|
      ensures Ok() && this.buf == buf && this.state == state && this.bytesLeft == bytesLeft
    {
      this.buf, this.state, this.bytesLeft := buf, state, bytesLeft;
    }

    /** The stream has moved on to `rest` without changing where it ends. */
    twostate predicate MovedTo(rest: seq<byte>)
      requires old(Ok())
      reads this
    {
      Ok() && state + bytesLeft == old(state + bytesLeft) && Left() == rest
    }

    method Read(count: nat) returns (ok: bool, bytes: seq<byte>)
      requires Ok()
      modifies this
      ensures Ok() && ok == (count <= old(bytesLeft)) && (!ok ==> unchanged(this))
      ensures ok ==> ReadBytes(old(Left()), count).Got? && bytes == ReadBytes(old(Left()), count).value
      ensures ok ==> MovedTo(ReadBytes(old(Left()), count).rest)
      ensures ok ==> bytesLeft == old(bytesLeft) - count
    {
      if bytesLeft < count {
        return false, [];
      }
      bytes := buf[state..state + count];
      state, bytesLeft := state + count, bytesLeft - count;
      ok := true;
    }

    method ReadByte() returns (ok: bool, b: byte)
      requires Ok()
      modifies this
      ensures Ok() && ok == (old(Left()) != []) && (!ok ==> unchanged(this))
      ensures ok ==> b == old(Left())[0] && MovedTo(old(Left())[1..]) && bytesLeft == old(bytesLeft) - 1
    {
      if bytesLeft == 0 {
        return false, 0;
      }
      b := buf[state];
      state, bytesLeft := state + 1, bytesLeft - 1;
      ok := true;
    }

    /** The outcome of a read agrees with its specification. */
    twostate predicate Agrees<T>(ok: bool, value: T, r: Read<T>)
      requires old(Ok())
      reads this
    {
      Ok() && ok == r.Got? && (ok ==> value == r.value && MovedTo(r.rest))
    }

    method DecodeVarint() returns (ok: bool, value: nat)
      requires Ok()
      modifies this
      ensures Agrees(ok, value, ReadVarint64(old(Left())))
    {
      value := 0;
      var count := 0;
      while true
        invariant Ok() && state + bytesLeft == old(state + bytesLeft)
        invariant ReadVarint64(old(Left())) == Read64From(Left(), count, value)
        decreases bytesLeft
      {
        if 7 * count >= 64 {
          return false, 0;
        }
        var b;
        ok, b := ReadByte();
        if !ok {
          return;
        }
        value := value + (b % 128) * Pow128(count) % TWO_64;
        count := count + 1;
        if b < 128 {
          return;
        }
      }
    }

    /** Tags and lengths; `eof` tells an empty stream from a broken varint. */
    method DecodeVarint32() returns (ok: bool, value: nat, eof: bool)
      requires Ok()
      modifies this
      ensures Agrees(ok, value, ReadVarint32(old(Left()))) && eof == (old(Left()) == [])
    {
      var b;
      ok, b := ReadByte();
      eof := !ok;
      value := 0;
      if !ok {
        return;
      }
      if b < 128 {
        value := b;
        return;
      }
      value := b % 128;
      var bitpos: nat := 7;
      while true
        invariant Ok() && state + bytesLeft == old(state + bytesLeft) && old(Left()) != []
        invariant ReadVarint32(old(Left())) == Read32From(Left(), bitpos, value)
        decreases bytesLeft
      {
        ok, b := ReadByte();
        if !ok {
          return;
        }
        if bitpos >= 32 {
          var signExtension := if bitpos < 63 then 0xFF else 0x01;
          if b % 128 != 0 && (value < TWO_31 || b != signExtension) {
            return false, 0, eof;
          }
        } else {
          value := BitOr(value, Shifted(b % 128, bitpos) % TWO_32);
        }
        bitpos := (bitpos + 7) % 256;
        if b < 128 {
          break;
        }
      }
      if bitpos == 35 && b % 128 >= 16 {
        return false, 0, eof;
      }
    }

    method SkipVarint() returns (ok: bool)
      requires Ok()
      modifies this
      ensures Agrees(ok, true, PbDecode.SkipVarint(old(Left())))
    {
      while true
        invariant Ok() && state + bytesLeft == old(state + bytesLeft)
        invariant PbDecode.SkipVarint(old(Left())) == PbDecode.SkipVarint(Left())
        decreases bytesLeft
      {
        var b;
        ok, b := ReadByte();
        if !ok || b < 128 {
          return;
        }
      }
    }

    /** Skips a field of a known wire type. */
    method SkipField(wireType: nat) returns (ok: bool)
      requires Ok()
      modifies this
      ensures Agrees(ok, true, PbDecode.SkipField(wireType, old(Left())))
    {
      var bytes, length, eof;
      if wireType == WT_VARINT {
        ok := SkipVarint();
      } else if wireType == WT_64BIT {
        ok, bytes := Read(8);
      } else if wireType == WT_STRING {
        ok, length, eof := DecodeVarint32();
        if ok {
          ok, bytes := Read(length);
        }
      } else if wireType == WT_32BIT {
        ok, bytes := Read(4);
      } else {
        ok := false;
      }
    }

    method DecodeTag() returns (ok: bool, tag: nat, wireType: nat, eof: bool)
      requires Ok()
      modifies this
      ensures Ok()
      ensures var t := PbDecode.DecodeTag(old(Left()));
              && ok == t.Tag? && (ok ==> tag == t.tag && wireType == t.wireType && MovedTo(t.rest))
              && (!ok && old(Left()) != [] ==> eof == t.End?)
              && (t.End? ==> state + bytesLeft == old(state + bytesLeft))
    {
      var temp;
      tag, wireType := 0, 0;
      ok, temp, eof := DecodeVarint32();
      if !ok {
        return;
      }
      if temp == 0 {
        return false, 0, 0, true;
      }
      tag, wireType := temp / 8, temp % 8;
    }

    // ----------------------------------------------------------- substreams

    /** A stream over the next length-prefixed bytes; the parent gives them up. */
    method MakeStringSubstream() returns (ok: bool, sub: IStream)
      requires Ok()
      modifies this
      ensures Ok() && fresh(sub) && sub.Ok() && sub.buf == buf
      ensures ok == ReadPrefixed(old(Left())).Got?
      ensures ok ==> sub.Left() == ReadPrefixed(old(Left())).value
                     && sub.state + sub.bytesLeft + bytesLeft == old(state + bytesLeft)
                     && buf[sub.state + sub.bytesLeft..old(state + bytesLeft)] == ReadPrefixed(old(Left())).rest
    {
      var size, eof;
      ok, size, eof := DecodeVarint32();
      sub := new IStream(buf, state, bytesLeft);
      if !ok || bytesLeft < size {
        ok := false;
        return;
      }
      sub := new IStream(buf, state, size);
      bytesLeft := bytesLeft - size;
    }

    /** Skips what the substream has left and continues after it. */
    method CloseStringSubstream(sub: IStream)
      requires sub != this && sub.Ok() && sub.buf == buf && sub.state + sub.bytesLeft + bytesLeft <= |buf|
      modifies this, sub
      ensures Ok() && bytesLeft == old(bytesLeft) && state == old(sub.state + sub.bytesLeft)
    {
      if sub.bytesLeft > 0 {
        var ok, bytes := sub.Read(sub.bytesLeft);
      }
      state := sub.state;
    }

    // --------------------------------------------------------------- values

    method DecodeRaw(count: nat) returns (ok: bool, v: Value)
      requires Ok()
      modifies this
      ensures Agrees(ok, v, ReadRaw(old(Left()), count))
    {
      var bytes;
      ok, bytes := Read(count);
      v := Raw(bytes);
    }

    method DecodeNumber(ty: Type) returns (ok: bool, v: Value)
      requires Ok() && (ty.Varint? || ty.Uvarint? || ty.Svarint?)
      modifies this
      ensures Agrees(ok, v, DecodeScalar(ty, old(Left())))
    {
      var n;
      ok, n := DecodeVarint();
      v := Number(0);
      if !ok {
        return;
      }
      match ty
      case Varint(size) =>
        ok := InRange(Signed(n, size), size);
        v := Number(Signed(n, size));
      case Svarint(size) =>
        ok := InRange(UnZigZag(n), size);
        v := Number(UnZigZag(n));
      case Uvarint(size) =>
        ok := n < 2 * SignedTop(size);
        v := Number(n);
    }

    method DecodeSized(ty: Type) returns (ok: bool, v: Value)
      requires Ok() && (ty.Bytes? || ty.Str? || ty.FixedBytes?)
      modifies this
      ensures Agrees(ok, v, DecodeScalar(ty, old(Left())))
    {
      var size, eof;
      ok, size, eof := DecodeVarint32();
      v := Raw([]);
      if !ok {
        return;
      }
      match ty
      case Bytes(cap) =>
        if size > cap {
          return false, v;
        }
        ok, v := DecodeRaw(size);
      case Str(cap) =>
        if size + 1 > cap {
          return false, v;
        }
        ok, v := DecodeRaw(size);
      case FixedBytes(len) =>
        if size == 0 {
          return true, Zero(ty);
        }
        if size != len {
          return false, v;
        }
        ok, v := DecodeRaw(len);
    }

    method DecodeScalarValue(ty: Type) returns (ok: bool, v: Value)
      requires Ok() && !ty.Message?
      modifies this
      ensures Agrees(ok, v, DecodeScalar(ty, old(Left())))
    {
      var n, bytes, eof;
      match ty
      case Bool =>
        ok, n, eof := DecodeVarint32();
        v := Flag(n != 0);
      case Fixed32 =>
        ok, bytes := Read(4);
        v := Number(FromLittleEndian(bytes));
      case Fixed64 =>
        ok, bytes := Read(8);
        v := Number(FromLittleEndian(bytes));
      case Varint(_) => ok, v := DecodeNumber(ty);
      case Uvarint(_) => ok, v := DecodeNumber(ty);
      case Svarint(_) => ok, v := DecodeNumber(ty);
      case Bytes(_) => ok, v := DecodeSized(ty);
      case Str(_) => ok, v := DecodeSized(ty);
      case FixedBytes(_) => ok, v := DecodeSized(ty);
    }

    /** `into` is what the destination holds. */
    method DecodeInto(ty: Type, into: Value, anew: bool) returns (ok: bool, v: Value)
      requires Ok() && TypeOk(ty)
      modifies this
      ensures Agrees(ok, v, DecodeValue(ty, old(Left()), into, anew))
      decreases ty, 0
    {
      if ty.Message? {
        ok, v := DecodeSubmessage(ty.fields, into, anew);
      } else {
        ok, v := DecodeScalarValue(ty);
      }
    }

    method DecodeSubmessage(sub: seq<Field>, into: Value, anew: bool) returns (ok: bool, v: Value)
      requires Ok() && FieldsOk(sub)
      modifies this
      ensures Agrees(ok, v, DecodeValue(Message(sub), old(Left()), into, anew))
      decreases sub, 5
    {
      var stream;
      ok, stream := MakeStringSubstream();
      v := Struct([]);
      if !ok {
        return;
      }
      ghost var end := stream.state + stream.bytesLeft;
      var start := if !anew && into.Struct? && |into.slots| == |sub| then into.slots else InitialSlots(sub);
      var slots;
      ok, slots := stream.DecodeNoInit(sub, start);
      if ok {
        CloseStringSubstream(stream);
        v := Struct(slots);
      }
    }

    /** A packed array in its own substream. */
    method DecodePackedItems(f: Field, items: seq<Value>, max: nat) returns (ok: bool, r: seq<Value>)
      requires Ok() && Packable(f.ty)
      modifies this
      ensures ok == DecodePacked(f.ty, old(Left()), items, max).Got?
      ensures ok ==> r == DecodePacked(f.ty, old(Left()), items, max).value && Ok() && bytesLeft == 0
                     && state == old(state + bytesLeft)
    {
      r := items;
      while bytesLeft > 0 && |r| < max
        invariant Ok() && state + bytesLeft == old(state + bytesLeft)
        invariant DecodePacked(f.ty, old(Left()), items, max) == DecodePacked(f.ty, Left(), r, max)
        decreases bytesLeft
      {
        var v;
        ok, v := DecodeScalarValue(f.ty);
        if !ok {
          return;
        }
        r := r + [v];
      }
      ok := bytesLeft == 0;
    }

    method DecodeStaticField(f: Field, wireType: nat, slot: Slot) returns (ok: bool, r: Slot)
      requires Ok() && FieldOk(f)
      modifies this
      ensures Agrees(ok, r, DecodeSlot(f, wireType, old(Left()), slot))
      decreases f, 2
    {
      var v;
      match slot
      case Single(into) =>
        ok, v := DecodeInto(f.ty, into, false);
        r := Single(v);
      case Flagged(_, into) =>
        ok, v := DecodeInto(f.ty, into, false);
        r := Flagged(true, v);
      case Arm(chosen, into) =>
        ok, v := DecodeInto(f.ty, into, !chosen);
        r := Arm(true, v);
      case List(items) =>
        if !f.rule.Repeated? {
          return false, slot;
        }
        ok, r := DecodeRepeated(f, wireType, items);
    }

    method DecodePackedField(f: Field, items: seq<Value>) returns (ok: bool, r: seq<Value>)
      requires Ok() && Packable(f.ty) && f.rule.Repeated?
      modifies this
      ensures Ok() && (ok <==>
                ReadPrefixed(old(Left())).Got?
                && DecodePacked(f.ty, ReadPrefixed(old(Left())).value, items, f.rule.max).Got?)
      ensures ok ==> r == DecodePacked(f.ty, ReadPrefixed(old(Left())).value, items, f.rule.max).value
                     && MovedTo(ReadPrefixed(old(Left())).rest)
    {
      var stream;
      ok, stream := MakeStringSubstream();
      r := items;
      if ok {
        ok, r := stream.DecodePackedItems(f, items, f.rule.max);
        if ok {
          CloseStringSubstream(stream);
        }
      }
    }

    method DecodeRepeated(f: Field, wireType: nat, items: seq<Value>) returns (ok: bool, r: Slot)
      requires Ok() && FieldOk(f) && f.rule.Repeated?
      modifies this
      ensures Agrees(ok, r, DecodeSlot(f, wireType, old(Left()), List(items)))
      decreases f, 1
    {
      r := List(items);
      if wireType == WT_STRING && Packable(f.ty) {
        var values;
        ok, values := DecodePackedField(f, items);
        r := List(values);
      } else if |items| >= f.rule.max {
        ok := false;
      } else {
        var v;
        ok, v := DecodeInto(f.ty, Zero(f.ty), true);
        r := List(items + [v]);
      }
    }

    // ------------------------------------------------------------- messages

    /** One round of the decoding loop: a tag, then a known field, an unknown one to skip, or the end. */
    method DecodeOneField(iter: FieldIter, slots: seq<Slot>, bits: seq<bool>)
      returns (ok: bool, ended: bool, slots2: seq<Slot>, bits2: seq<bool>)
      requires Ok() && iter.Ok() && FieldsOk(iter.fields) && |slots| == |iter.fields| && |bits| == MAX_REQUIRED_FIELDS
      requires bytesLeft > 0
      modifies this, iter
      ensures iter.Ok() && |slots2| == |iter.fields| && |bits2| == MAX_REQUIRED_FIELDS
      ensures var d := DecodeFields(iter.fields, old(Left()), slots, SeenSet(bits));
              if !ok then d.Failed?
              else
                && Ok() && state + bytesLeft == old(state + bytesLeft) && (!ended ==> bytesLeft < old(bytesLeft))
                && d == if ended then Finish(iter.fields, slots2, SeenSet(bits2))
                   else DecodeFields(iter.fields, Left(), slots2, SeenSet(bits2))
      decreases iter.fields, 3
    {
      var tag, wireType, found;
      slots2, bits2 := slots, bits;
      ok, tag, wireType, ended := DecodeTag();
      if !ok {
        ok := ended;
        return;
      }
      ended := false;
      found := iter.Find(tag);
      if !found {
        ok := SkipField(wireType);
        return;
      }
      var i := iter.pos;
      FoundIs(iter.fields, i, tag);
      assert FieldOk(iter.fields[i]);
      if iter.fields[i].rule.Required? && iter.requiredFieldIndex < MAX_REQUIRED_FIELDS {
        SetBit(bits, iter.requiredFieldIndex);
        bits2 := bits[iter.requiredFieldIndex := true];
      }
      var slot;
      ok, slot := DecodeStaticField(iter.fields[i], wireType, slots[i]);
      slots2 := SetSlot(iter.fields, slots, i, slot);
    }

    /** The decoding loop over tags, with its record of required fields seen. */
    method DecodeNoInit(fields: seq<Field>, start: seq<Slot>) returns (ok: bool, slots: seq<Slot>)
      requires Ok() && FieldsOk(fields) && |start| == |fields|
      modifies this
      ensures var d := DecodeFields(fields, old(Left()), start, {});
              ok == d.Done? && (ok ==> slots == d.slots)
      ensures ok ==> Ok() && state + bytesLeft == old(state + bytesLeft)
      decreases fields, 4
    {
      var iter := new FieldIter(fields);
      var bits := seq(MAX_REQUIRED_FIELDS, i => false);
      assert SeenSet(bits) == {};
      slots := start;
      var ended := false;
      while !ended && bytesLeft > 0
        invariant Ok() && state + bytesLeft == old(state + bytesLeft) && iter.Ok() && fresh(iter)
        invariant |slots| == |fields| && |bits| == MAX_REQUIRED_FIELDS
        invariant DecodeFields(fields, old(Left()), start, {})
               == if ended then Finish(fields, slots, SeenSet(bits))
                  else DecodeFields(fields, Left(), slots, SeenSet(bits))
        decreases if ended then 0 else bytesLeft + 1
      {
        ok, ended, slots, bits := DecodeOneField(iter, slots, bits);
        if !ok {
          return;
        }
      }
      ok := AllRequiredSeen(iter, bits);
    }

    /** Defaults first, then the loop. */
    method DecodeMessage(fields: seq<Field>) returns (ok: bool, slots: seq<Slot>)
      requires Ok() && FieldsOk(fields)
      modifies this
      ensures var d := Decode(fields, old(Left()));
              ok == d.Done? && (ok ==> slots == d.slots)
    {
      ok, slots := DecodeNoInit(fields, InitialSlots(fields));
    }
  }

  // --------------------------------------------------------- required fields

  ghost function SeenSet(bits: seq<bool>): set<nat> {
    set k: nat | k < |bits| && bits[k]
  }

  lemma SetBit(bits: seq<bool>, k: nat)
    requires k < |bits|
    ensures SeenSet(bits[k := true]) == SeenSet(bits) + {k}
  {
  }

  /** Counts the required fields by walking to the end, then checks their bits. */
  method AllRequiredSeen(iter: FieldIter, bits: seq<bool>) returns (ok: bool)
    requires iter.Ok() && |bits| == MAX_REQUIRED_FIELDS
    modifies iter
    ensures ok == AllSeen(iter.fields, SeenSet(bits))
  {
    var count := iter.requiredFieldIndex;
    if |iter.fields| > 0 {
      var at := iter.pos;
      while true
        invariant iter.Ok() && iter.pos == at < |iter.fields| && count == RequiredIndex(iter.fields, at)
        decreases |iter.fields| - at
      {
        var more := iter.Next();
        if !more {
          break;
        }
        at, count := iter.pos, iter.requiredFieldIndex;
      }
      if iter.fields[at].rule.Required? {
        count := count + 1;
      }
    }
    if count > MAX_REQUIRED_FIELDS {
      count := MAX_REQUIRED_FIELDS;
    }
    assert forall k :: 0 <= k < |bits| ==> (k in SeenSet(bits) <==> bits[k]);
    ok := true;
    for i := 0 to count
      invariant ok == forall k :: 0 <= k < i ==> bits[k]
    {
      ok := ok && bits[i];
    }
  }

  // ------------------------------------------------------------ end to end

  /** A message written by the encoder is read back by the decoder, up to the contents of absent fields. */
  method EncodeThenDecode(fields: seq<Field>, slots: seq<Slot>, limit: nat) returns (ok: bool, slots2: seq<Slot>)
    requires FieldsOk(fields) && SlotsOk(fields, slots, Terminated)
    ensures SlotsOk(fields, slots, Shaped)
    ensures ok ==> SameSlots(fields, slots2, slots)
    ensures |MessageBytes(fields, slots)| < TWO_32 && |MessageBytes(fields, slots)| <= limit ==> ok
  {
    TerminatedSlots(fields, slots);
    slots2 := [];
    var os := new PbOStream.OStream.Into([], limit);
    ok := os.EncodeMessage(fields, slots);
    if !ok || |os.out| >= TWO_32 {
      ok := false;
      return;
    }
    assert os.out == MessageBytes(fields, slots);
    var stream := new IStream(os.out, 0, |os.out|);
    assert stream.Left() == os.out;
    PbRoundTrip.DecodeUndoesEncode(fields, slots);
    ok, slots2 := stream.DecodeMessage(fields);
  }
}
