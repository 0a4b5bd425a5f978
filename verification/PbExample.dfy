/** The wire format by example: the messages that the Protocol Buffers documentation uses to explain it. */
module PbExample {
  import opened PbVarints
  import opened PbMessages
  import opened PbEncode

  function Number32(tag: nat, rule: Rule): Field {
    Field(tag, rule, Varint(4), Number(0))
  }

  lemma Varints()
    ensures VarintBytes(150) == [0x96, 0x01] && VarintBytes(270) == [0x8e, 0x02]
    ensures VarintBytes(86942) == [0x9e, 0xa7, 0x05]
  {
    assert VarintBytes(150) == [150 % 128 + 128] + VarintBytes(1);
    assert VarintBytes(270) == [270 % 128 + 128] + VarintBytes(2);
    assert VarintBytes(679) == [679 % 128 + 128] + VarintBytes(5);
    assert VarintBytes(86942) == [86942 % 128 + 128] + VarintBytes(679);
  }

  lemma OneSlot(f: Field, s: Slot)
    requires SlotsOk([f], [s], Shaped)
    ensures SlotOk(f, s, Shaped) && MessageBytes([f], [s]) == SlotBytes(f, s)
  {
    assert SlotOk([f][0], [s][0], Shaped);
    assert FieldsBytes([f], [s], 1) == [];
  }

  /** Field 1 with the integer 150. */
  lemma Integer()
    ensures var f, s := Number32(1, Required), Single(Number(150));
            SlotsOk([f], [s], Shaped) && MessageBytes([f], [s]) == [0x08, 0x96, 0x01]
  {
    Varints();
    OneSlot(Number32(1, Required), Single(Number(150)));
  }

  /** Field 2 with the string "testing". */
  lemma Text()
    ensures var f, s := Field(2, Required, Str(8), Raw([])), Single(Raw([0x74, 0x65, 0x73, 0x74, 0x69, 0x6e, 0x67]));
            && SlotsOk([f], [s], Shaped)
            && MessageBytes([f], [s]) == [0x12, 0x07, 0x74, 0x65, 0x73, 0x74, 0x69, 0x6e, 0x67]
  {
    OneSlot(Field(2, Required, Str(8), Raw([])), Single(Raw([0x74, 0x65, 0x73, 0x74, 0x69, 0x6e, 0x67])));
  }

  /** Field 3 with the first message inside. */
  lemma Nested()
    ensures var f := Field(3, Required, Message([Number32(1, Required)]), Struct([]));
            var s := Single(Struct([Single(Number(150))]));
            SlotsOk([f], [s], Shaped) && MessageBytes([f], [s]) == [0x1a, 0x03, 0x08, 0x96, 0x01]
  {
    Integer();
    OneSlot(Field(3, Required, Message([Number32(1, Required)]), Struct([])), Single(Struct([Single(Number(150))])));
  }

  lemma ThreeItems(ty: Type, a: Value, b: Value, c: Value)
    requires ItemsOk(ty, [a, b, c], Shaped)
    ensures ValueOk(ty, a, Shaped) && ValueOk(ty, b, Shaped) && ValueOk(ty, c, Shaped)
    ensures ItemsBytes(ty, [a, b, c]) == ValueBytes(ty, a) + (ValueBytes(ty, b) + ValueBytes(ty, c))
  {
    assert [a, b, c][0] == a && [a, b, c][1] == b && [a, b, c][2] == c;
    assert [a, b, c][1..] == [b, c] && [b, c][1..] == [c] && [c][1..] == [];
    assert ItemsBytes(ty, [c]) == ValueBytes(ty, c) + [] == ValueBytes(ty, c);
  }

  /** Field 4 with the packed array 3, 270, 86942. */
  lemma Packed()
    ensures var f, s := Number32(4, Repeated(3)), List([Number(3), Number(270), Number(86942)]);
            && SlotsOk([f], [s], Shaped)
            && MessageBytes([f], [s]) == [0x22, 0x06, 0x03, 0x8e, 0x02, 0x9e, 0xa7, 0x05]
  {
    Varints();
    ThreeItems(Varint(4), Number(3), Number(270), Number(86942));
    OneSlot(Number32(4, Repeated(3)), List([Number(3), Number(270), Number(86942)]));
  }

  /** A zero in a field without a has flag is not written, an optional one is. */
  lemma Zeros()
    ensures SlotsOk([Number32(1, Singular)], [Single(Number(0))], Shaped)
            && MessageBytes([Number32(1, Singular)], [Single(Number(0))]) == []
    ensures SlotsOk([Number32(1, Optional)], [Flagged(true, Number(0))], Shaped)
            && MessageBytes([Number32(1, Optional)], [Flagged(true, Number(0))]) == [0x08, 0x00]
  {
    OneSlot(Number32(1, Singular), Single(Number(0)));
    OneSlot(Number32(1, Optional), Flagged(true, Number(0)));
  }

  /** Minus one takes one byte in zigzag form; a fixed 32-bit one has its low byte first. */
  lemma SignedAndFixed()
    ensures var f, s := Field(1, Required, Svarint(4), Number(0)), Single(Number(-1));
            SlotsOk([f], [s], Shaped) && MessageBytes([f], [s]) == [0x08, 0x01]
    ensures var f, s := Field(5, Required, Fixed32, Number(0)), Single(Number(258));
            SlotsOk([f], [s], Shaped) && MessageBytes([f], [s]) == [0x2d, 0x02, 0x01, 0x00, 0x00]
  {
    OneSlot(Field(1, Required, Svarint(4), Number(0)), Single(Number(-1)));
    OneSlot(Field(5, Required, Fixed32, Number(0)), Single(Number(258)));
    assert LittleEndian(1, 3) == [1] + LittleEndian(0, 2) && LittleEndian(0, 2) == [0] + LittleEndian(0, 1);
  }
}
