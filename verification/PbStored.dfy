/** Whatever bytes arrive, a message that is accepted fits its destination: buffers, arrays, integers, one-ofs. */
module PbStored {
  import opened PbVarints
  import opened PbMessages
  import opened PbEncode
  import opened PbDecode

  // ----------------------------------------------------------- what must hold

  /** The value is within its storage. Strings leave room for a terminator and may hold any bytes. */
  ghost predicate Stored(ty: Type, v: Value)
    decreases ty, 0
  {
    match ty
    case Bytes(cap) => v.Raw? && |v.bytes| <= cap
    case Str(cap) => v.Raw? && |v.bytes| < cap
    case Message(fields) => v.Struct? && SlotsStored(fields, v.slots)
    case _ => ValueOk(ty, v, Terminated)
  }

  /** Every slot is within its storage, and a one-of has one arm chosen at most. */
  ghost predicate SlotsStored(fields: seq<Field>, slots: seq<Slot>)
    decreases fields, 1
  {
    && |slots| == |fields|
    && (forall i :: 0 <= i < |fields| ==> SlotStored(fields[i], slots[i]))
    && OneChosen(fields, slots)
  }

  ghost predicate OneChosen(fields: seq<Field>, slots: seq<Slot>)
    requires |slots| == |fields|
  {
    forall i, j :: 0 <= i < |fields| && 0 <= j < |fields| && i != j && SameGroup(fields[i], fields[j]) ==>
      !(IsChosen(slots[i]) && IsChosen(slots[j]))
  }

  /** Also where the field is absent, since its storage may be decoded over. */
  ghost predicate SlotStored(f: Field, s: Slot)
    decreases f, 2
  {
    match f.rule
    case Optional => s.Flagged? && Stored(f.ty, s.v)
    case Repeated(max) =>
      s.List? && |s.items| <= max && forall k :: 0 <= k < |s.items| ==> Stored(f.ty, s.items[k])
    case OneOf(_) => s.Arm? && Stored(f.ty, s.v)
    case _ => s.Single? && Stored(f.ty, s.v)
  }

  // ------------------------------------------------------------ initial values

  lemma {:induction false} InitialStored(fields: seq<Field>)
    requires FieldsOk(fields)
    ensures SlotsStored(fields, InitialSlots(fields))
    decreases fields, 1
  {
    forall i | 0 <= i < |fields|
      ensures SlotStored(fields[i], InitialSlots(fields)[i])
    {
      assert FieldOk(fields[i]);
      InitialValueStored(fields[i]);
    }
  }

  lemma {:induction false} InitialValueStored(f: Field)
    requires FieldOk(f)
    ensures Stored(f.ty, InitialValue(f))
    decreases f, 0
  {
    if f.ty.Message? {
      InitialStored(f.ty.fields);
    }
  }

  // ------------------------------------------------------------------- scalars

  lemma {:induction false} LittleEndianBounded(s: seq<byte>)
    ensures FromLittleEndian(s) < Pow256(|s|)
  {
    if s != [] {
      LittleEndianBounded(s[1..]);
    }
  }

  lemma FixedBounded(s: seq<byte>)
    ensures |s| == 4 ==> FromLittleEndian(s) < TWO_32
    ensures |s| == 8 ==> FromLittleEndian(s) < TWO_64
  {
    LittleEndianBounded(s);
    assert Pow256(4) == TWO_32;
    assert Pow256(8) == 0x1_0000_0000 * Pow256(4);
  }

  lemma ScalarStored(ty: Type, s: seq<byte>)
    requires TypeOk(ty) && DecodeScalar(ty, s).Got?
    ensures Stored(ty, DecodeScalar(ty, s).value)
  {
    hide FromLittleEndian, ReadVarint32, ReadVarint64;
    if ty.Fixed32? {
      FixedBounded(ReadBytes(s, 4).value);
    } else if ty.Fixed64? {
      FixedBounded(ReadBytes(s, 8).value);
    }
  }

  lemma {:induction false} PackedStored(ty: Type, s: seq<byte>, items: seq<Value>, max: nat)
    requires TypeOk(ty) && Packable(ty) && |items| <= max && forall k :: 0 <= k < |items| ==> Stored(ty, items[k])
    ensures var d := DecodePacked(ty, s, items, max);
            d.Got? ==> |d.value| <= max && forall k :: 0 <= k < |d.value| ==> Stored(ty, d.value[k])
    decreases |s|
  {
    hide Stored, DecodeScalar;
    if s != [] && |items| < max {
      var v := DecodeScalar(ty, s);
      if v.Got? {
        ScalarStored(ty, s);
        PackedStored(ty, v.rest, items + [v.value], max);
      }
    }
  }

  // ------------------------------------------------------------ the induction

  lemma {:induction false} ValueStored(ty: Type, s: seq<byte>, into: Value, anew: bool)
    requires TypeOk(ty) && (anew || Stored(ty, into)) && DecodeValue(ty, s, into, anew).Got?
    ensures Stored(ty, DecodeValue(ty, s, into, anew).value)
    decreases ty, 0
  {
    if ty.Message? {
      var body := ReadPrefixed(s);
      InitialStored(ty.fields);
      FieldsStored(ty.fields, body.value, if anew then InitialSlots(ty.fields) else into.slots, {});
    } else {
      ScalarStored(ty, s);
    }
  }

  lemma {:induction false} SlotDecodedStored(f: Field, wireType: nat, s: seq<byte>, slot: Slot)
    requires FieldOk(f) && SlotStored(f, slot) && DecodeSlot(f, wireType, s, slot).Got?
    ensures SlotStored(f, DecodeSlot(f, wireType, s, slot).value)
    decreases f, 2
  {
    match slot
    case Single(v) => ValueStored(f.ty, s, v, false);
    case Flagged(_, v) => ValueStored(f.ty, s, v, false);
    case Arm(chosen, v) => ValueStored(f.ty, s, v, !chosen);
    case List(items) =>
      if wireType == WT_STRING && Packable(f.ty) {
        PackedStored(f.ty, ReadPrefixed(s).value, items, f.rule.max);
      } else {
        ValueStored(f.ty, s, Zero(f.ty), true);
      }
  }

  lemma SetStored(fields: seq<Field>, slots: seq<Slot>, i: nat, slot: Slot)
    requires i < |fields| && SlotsStored(fields, slots) && SlotStored(fields[i], slot)
    ensures SlotsStored(fields, SetSlot(fields, slots, i, slot))
  {
    hide Stored;
    var r := SetSlot(fields, slots, i, slot);
    forall j | 0 <= j < |fields|
      ensures SlotStored(fields[j], r[j])
    {
      assert SlotStored(fields[j], slots[j]);
    }
  }

  lemma {:induction false} FieldsStored(fields: seq<Field>, s: seq<byte>, slots: seq<Slot>, seen: set<nat>)
    requires FieldsOk(fields) && SlotsStored(fields, slots)
    ensures var d := DecodeFields(fields, s, slots, seen); d.Done? ==> SlotsStored(fields, d.slots)
    decreases fields, 3, |s|, 0
  {
    hide SlotsStored, SetSlot, DecodeSlot, SkipField, AllSeen;
    if s != [] {
      var t := DecodeTag(s);
      if t.Tag? {
        var at := FindField(fields, t.tag);
        if at.Missing? {
          var skipped := SkipField(t.wireType, t.rest);
          if skipped.Got? {
            FieldsStored(fields, skipped.rest, slots, seen);
          }
        } else {
          FieldDecoded(fields, at.index, t.wireType, t.rest, slots, seen);
        }
      }
    }
  }

  /** One known field, then the rest. */
  lemma {:induction false} FieldDecoded(fields: seq<Field>, i: nat, wireType: nat, s: seq<byte>, slots: seq<Slot>,
                                        seen: set<nat>)
    requires FieldsOk(fields) && SlotsStored(fields, slots) && i < |fields|
    ensures |slots| == |fields|
    ensures var d := DecodeSlot(fields[i], wireType, s, slots[i]);
            d.Got? ==>
              var e := DecodeFields(fields, d.rest, SetSlot(fields, slots, i, d.value), Saw(fields, i, seen));
              e.Done? ==> SlotsStored(fields, e.slots)
    decreases fields, 3, |s|, 1
  {
    assert SlotStored(fields[i], slots[i]) && FieldOk(fields[i]);
    var d := DecodeSlot(fields[i], wireType, s, slots[i]);
    if d.Got? {
      SlotDecodedStored(fields[i], wireType, s, slots[i]);
      SetStored(fields, slots, i, d.value);
      FieldsStored(fields, d.rest, SetSlot(fields, slots, i, d.value), Saw(fields, i, seen));
    }
  }

  /**
   * Any bytes at all: if decoding accepts them, every value is within its buffer, its array and its
   * integer width, recursively, and no one-of has two arms.
   */
  lemma AcceptedIsStored(fields: seq<Field>, s: seq<byte>)
    requires FieldsOk(fields)
    ensures var d := Decode(fields, s); d.Done? ==> SlotsStored(fields, d.slots)
  {
    InitialStored(fields);
    FieldsStored(fields, s, InitialSlots(fields), {});
  }
}
