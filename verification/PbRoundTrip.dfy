/** Decoding undoes encoding, for every well-formed message tree. */
module PbRoundTrip {
  import opened PbVarints
  import opened PbMessages
  import opened PbEncode
  import opened PbDecode

  // ------------------------------------------------------- fields left out

  lemma {:induction false} DefaultValueSame(f: Field, v: Value)
    requires FieldOk(f) && f.rule.Singular? && IsDefault(f.ty, v) && ValueOk(f.ty, v, Shaped)
    ensures SameValue(f.ty, InitialValue(f), v)
    decreases f, 0
  {
    if f.ty.Message? {
      var sub := f.ty.fields;
      assert FieldsOk(sub);
      forall i | 0 <= i < |sub|
        ensures SameSlot(sub[i], InitialSlot(sub[i]), v.slots[i])
      {
        SlotDefaultSame(sub[i], v.slots[i]);
      }
    }
  }

  /** A field the encoder leaves out is equal to what initialisation puts there. */
  lemma {:induction false} SlotDefaultSame(f: Field, s: Slot)
    requires FieldOk(f) && SlotOk(f, s, Shaped) && SlotIsDefault(f, s)
    ensures SameSlot(f, InitialSlot(f), s)
    decreases f, 1
  {
    if s.Single? {
      DefaultValueSame(f, s.v);
    }
  }

  // ----------------------------------------------------------------- scalars

  lemma PrefixedRoundTrip(b: seq<byte>, rest: seq<byte>)
    requires |b| < TWO_32
    ensures ReadPrefixed(Prefixed(b) + rest) == Got(b, rest)
    ensures ReadVarint32(Prefixed(b) + rest) == Got(|b|, b + rest)
  {
    Varint32RoundTrip(|b|, b + rest);
    assert Prefixed(b) + rest == VarintBytes(|b|) + (b + rest);
    assert (b + rest)[..|b|] == b && (b + rest)[|b|..] == rest;
  }

  lemma SignedUndoes(n: int, size: nat)
    requires IntSize(size) && InRange(n, size)
    ensures Unsigned(n) < TWO_64 && Signed(Unsigned(n), size) == n
  {
    if size != 8 {
      assert TWO_64 % TWO_32 == 0 && 0 - TWO_31 <= n < TWO_31;
      if n < 0 {
        assert (n + TWO_64) % TWO_32 == n + TWO_32 by {
          assert n + TWO_64 == (TWO_32 - 1) * TWO_32 + (n + TWO_32);
        }
      }
    }
  }

  lemma UnZigZagUndoes(n: int, size: nat)
    requires IntSize(size) && InRange(n, size)
    ensures ZigZag(n) < TWO_64 && UnZigZag(ZigZag(n)) == n
  {
  }

  lemma NumberRoundTrip(ty: Type, n: int, rest: seq<byte>)
    requires (ty.Varint? || ty.Uvarint? || ty.Svarint?) && TypeOk(ty) && ValueOk(ty, Number(n), Shaped)
    ensures DecodeScalar(ty, ValueBytes(ty, Number(n)) + rest) == Got(Number(n), rest)
  {
    match ty
    case Varint(size) =>
      SignedUndoes(n, size);
      Varint64RoundTrip(Unsigned(n), rest);
    case Uvarint(size) =>
      Varint64RoundTrip(n, rest);
    case Svarint(size) =>
      UnZigZagUndoes(n, size);
      Varint64RoundTrip(ZigZag(n), rest);
  }

  lemma FixedRoundTrip(n: nat, count: nat, rest: seq<byte>)
    requires n < Pow256(count)
    ensures ReadBytes(LittleEndian(n, count) + rest, count) == Got(LittleEndian(n, count), rest)
    ensures FromLittleEndian(LittleEndian(n, count)) == n
  {
    LittleEndianRoundTrip(n, count);
    var b := LittleEndian(n, count);
    assert (b + rest)[..count] == b && (b + rest)[count..] == rest;
  }

  lemma Pow256Values()
    ensures Pow256(4) == TWO_32 && Pow256(8) == TWO_64
  {
    assert Pow256(4) == TWO_32;
  }

  lemma RawRoundTrip(ty: Type, v: Value, rest: seq<byte>)
    requires (ty.Bytes? || ty.Str? || ty.FixedBytes?) && TypeOk(ty) && ValueOk(ty, v, Terminated)
    requires ValueOk(ty, v, Shaped)
    ensures DecodeScalar(ty, ValueBytes(ty, v) + rest) == Got(v, rest)
  {
    var b := v.bytes;
    PrefixedRoundTrip(b, rest);
    assert (b + rest)[..|b|] == b && (b + rest)[|b|..] == rest;
    assert |b| == 0 ==> b + rest == rest && b == [];
  }

  lemma ScalarRoundTrip(ty: Type, v: Value, rest: seq<byte>)
    requires !ty.Message? && TypeOk(ty) && ValueOk(ty, v, Terminated) && ValueOk(ty, v, Shaped)
    ensures DecodeScalar(ty, ValueBytes(ty, v) + rest) == Got(v, rest)
  {
    Pow256Values();
    match ty
    case Bool => Varint32RoundTrip(if v.b then 1 else 0, rest);
    case Fixed32 => FixedRoundTrip(v.n, 4, rest);
    case Fixed64 => FixedRoundTrip(v.n, 8, rest);
    case Varint(_) => NumberRoundTrip(ty, v.n, rest);
    case Uvarint(_) => NumberRoundTrip(ty, v.n, rest);
    case Svarint(_) => NumberRoundTrip(ty, v.n, rest);
    case _ => RawRoundTrip(ty, v, rest);
  }

  lemma PackedStep(ty: Type, v: Value, rest: seq<byte>, done: seq<Value>, max: nat)
    requires Packable(ty) && TypeOk(ty) && ValueOk(ty, v, Terminated) && ValueOk(ty, v, Shaped) && |done| < max
    ensures DecodePacked(ty, ValueBytes(ty, v) + rest, done, max) == DecodePacked(ty, rest, done + [v], max)
  {
    ScalarRoundTrip(ty, v, rest);
  }

  lemma Shift<T>(a: seq<T>, x: T, b: seq<T>)
    ensures a + [x] + b == a + ([x] + b)
  {
  }

  lemma {:induction false} PackedRoundTrip(ty: Type, items: seq<Value>, done: seq<Value>, max: nat)
    requires Packable(ty) && TypeOk(ty) && ItemsOk(ty, items, Terminated) && ItemsOk(ty, items, Shaped)
    requires |done| + |items| <= max
    ensures DecodePacked(ty, ItemsBytes(ty, items), done, max) == Got(done + items, [])
    decreases |items|
  {
    if items == [] {
      assert done + items == done;
    } else {
      PackedStep(ty, items[0], ItemsBytes(ty, items[1..]), done, max);
      PackedRoundTrip(ty, items[1..], done + [items[0]], max);
      Shift(done, items[0], items[1..]);
      assert [items[0]] + items[1..] == items;
    }
  }

  // --------------------------------------------------------- one tagged value

  lemma TagRoundTrip(f: Field, wireType: nat, rest: seq<byte>)
    requires 1 <= f.tag < 0x2000_0000 && wireType < 8
    ensures DecodeTag(TagBytes(f, wireType) + rest) == Tag(f.tag, wireType, rest)
  {
    Varint32RoundTrip(f.tag * 8 + wireType, rest);
  }

  lemma {:induction false} FindIs(fields: seq<Field>, i: nat)
    requires i < |fields| && forall j, k :: 0 <= j < k < |fields| ==> fields[j].tag != fields[k].tag
    ensures FindField(fields, fields[i].tag) == At(i)
    decreases |fields|
  {
    if i < |fields| - 1 {
      FindIs(fields[..|fields| - 1], i);
    }
  }

  /** One round of the loop on a field's tag and what the field's decoder makes of the rest. */
  lemma LoopStep(fields: seq<Field>, i: nat, wireType: nat, s: seq<byte>, slots: seq<Slot>, seen: set<nat>)
    requires FieldsOk(fields) && i < |fields| == |slots| && wireType < 8
    requires DecodeSlot(fields[i], wireType, s, slots[i]).Got?
    ensures DecodeFields(fields, TagBytes(fields[i], wireType) + s, slots, seen)
         == var d := DecodeSlot(fields[i], wireType, s, slots[i]);
            DecodeFields(fields, d.rest, SetSlot(fields, slots, i, d.value), Saw(fields, i, seen))
  {
    assert FieldOk(fields[i]);
    TagRoundTrip(fields[i], wireType, s);
    FindIs(fields, i);
  }

  /** No other arm of the field's group is chosen in the destination. */
  ghost predicate Alone(fields: seq<Field>, slots: seq<Slot>, i: nat)
    requires i < |fields| == |slots|
  {
    forall j :: 0 <= j < |fields| && j != i && SameGroup(fields[i], fields[j]) ==> !IsChosen(slots[j])
  }

  lemma SetAlone(fields: seq<Field>, slots: seq<Slot>, i: nat, slot: Slot)
    requires i < |fields| == |slots| && Alone(fields, slots, i)
    ensures SetSlot(fields, slots, i, slot) == slots[i := slot]
  {
  }

  /** LoopStep when the field's bytes decode to a known slot and no other arm is chosen. */
  lemma LoopTo(fields: seq<Field>, i: nat, wireType: nat, body: seq<byte>, s: seq<byte>, slots: seq<Slot>,
               seen: set<nat>, out: Slot, rest: seq<byte>)
    requires FieldsOk(fields) && i < |fields| == |slots| && wireType < 8 && Alone(fields, slots, i)
    requires s == TagBytes(fields[i], wireType) + body
    requires DecodeSlot(fields[i], wireType, body, slots[i]) == Got(out, rest)
    ensures DecodeFields(fields, s, slots, seen) == DecodeFields(fields, rest, slots[i := out], Saw(fields, i, seen))
  {
    LoopStep(fields, i, wireType, body, slots, seen);
    SetAlone(fields, slots, i, out);
  }

  lemma Regroup(a: seq<byte>, b: seq<byte>, rest: seq<byte>)
    ensures a + b + rest == a + (b + rest)
  {
  }

  // ------------------------------------------------------------ the induction

  /** The destination of a value is as initialisation leaves it. */
  ghost predicate Clean(ty: Type, into: Value, anew: bool) {
    ty.Message? && !anew ==> into == Struct(InitialSlots(ty.fields))
  }

  lemma {:induction false} ValueRoundTrip(ty: Type, v: Value, into: Value, anew: bool, rest: seq<byte>)
    requires TypeOk(ty) && ValueOk(ty, v, Terminated) && ValueOk(ty, v, Shaped) && |ValueBytes(ty, v)| < TWO_32
    requires Clean(ty, into, anew)
    ensures var d := DecodeValue(ty, ValueBytes(ty, v) + rest, into, anew);
            d.Got? && d.rest == rest && SameValue(ty, d.value, v)
    decreases ty, 0
  {
    if ty.Message? {
      var body := FieldsBytes(ty.fields, v.slots, 0);
      PrefixedRoundTrip(body, rest);
      FieldsRoundTrip(ty.fields, v.slots, 0, InitialSlots(ty.fields), {});
    } else {
      ScalarRoundTrip(ty, v, rest);
    }
  }

  /** A field holding one value: required, present optional, chosen arm. */
  lemma {:induction false} OneRoundTrip(f: Field, s: Slot, rest: seq<byte>)
    requires FieldOk(f) && SlotOk(f, s, Terminated) && SlotOk(f, s, Shaped) && !s.List? && !SlotIsDefault(f, s)
    requires |SlotBytes(f, s)| < TWO_32
    ensures SlotBytes(f, s) == TagBytes(f, WireType(f.ty)) + ValueBytes(f.ty, s.v)
    ensures var d := DecodeSlot(f, WireType(f.ty), ValueBytes(f.ty, s.v) + rest, InitialSlot(f));
            d.Got? && d.rest == rest && SameSlot(f, d.value, s)
    decreases f, 2
  {
    ValueRoundTrip(f.ty, s.v, InitialValue(f), s.Arm?, rest);
  }

  lemma {:induction false} ItemRoundTrip(f: Field, item: Value, rest: seq<byte>)
    requires FieldOk(f) && ValueOk(f.ty, item, Terminated) && ValueOk(f.ty, item, Shaped)
             && |ValueBytes(f.ty, item)| < TWO_32
    ensures var d := DecodeValue(f.ty, ValueBytes(f.ty, item) + rest, Zero(f.ty), true);
            d.Got? && d.rest == rest && SameValue(f.ty, d.value, item)
    decreases f, 0
  {
    ValueRoundTrip(f.ty, item, Zero(f.ty), true, rest);
  }

  /** The items of a repeated field, each behind its own tag, also where they could be packed. */
  lemma {:induction false} TaggedRoundTrip(fields: seq<Field>, i: nat, items: seq<Value>, done: seq<Value>,
                                           slots: seq<Slot>, rest: seq<byte>, seen: set<nat>)
    returns (out: seq<Value>)
    requires FieldsOk(fields) && i < |fields| == |slots| && fields[i].rule.Repeated?
    requires ItemsOk(fields[i].ty, items, Terminated) && ItemsOk(fields[i].ty, items, Shaped)
    requires |done| + |items| <= fields[i].rule.max && |TaggedItems(fields[i], items)| < TWO_32
    ensures |out| == |items| && forall k :: 0 <= k < |items| ==> SameValue(fields[i].ty, out[k], items[k])
    ensures DecodeFields(fields, TaggedItems(fields[i], items) + rest, slots[i := List(done)], seen)
         == DecodeFields(fields, rest, slots[i := List(done + out)], seen)
    decreases fields, 2, |items|
  {
    var f := fields[i];
    if items == [] {
      out := [];
      assert TaggedItems(f, items) + rest == rest && done + out == done;
    } else {
      var more := TaggedItems(f, items[1..]) + rest;
      var first := TaggedFirst(fields, i, items[0], done, slots, more, seen);
      Regroup(OneBytes(f, items[0]), TaggedItems(f, items[1..]), rest);
      var others := TaggedRoundTrip(fields, i, items[1..], done + [first], slots, rest, seen);
      out := [first] + others;
      Shift(done, first, others);
    }
  }

  lemma {:induction false} TaggedFirst(fields: seq<Field>, i: nat, item: Value, done: seq<Value>, slots: seq<Slot>,
                                       rest: seq<byte>, seen: set<nat>)
    returns (v: Value)
    requires FieldsOk(fields) && i < |fields| == |slots| && fields[i].rule.Repeated?
    requires ValueOk(fields[i].ty, item, Terminated) && ValueOk(fields[i].ty, item, Shaped)
    requires |done| < fields[i].rule.max && |OneBytes(fields[i], item)| < TWO_32
    ensures SameValue(fields[i].ty, v, item)
    ensures DecodeFields(fields, OneBytes(fields[i], item) + rest, slots[i := List(done)], seen)
         == DecodeFields(fields, rest, slots[i := List(done + [v])], seen)
    decreases fields, 1
  {
    var f, st := fields[i], slots[i := List(done)];
    assert FieldOk(f);
    ItemRoundTrip(f, item, rest);
    v := DecodeValue(f.ty, ValueBytes(f.ty, item) + rest, Zero(f.ty), true).value;
    assert st[i := List(done + [v])] == slots[i := List(done + [v])];
    Regroup(TagBytes(f, WireType(f.ty)), ValueBytes(f.ty, item), rest);
    LoopTo(fields, i, WireType(f.ty), ValueBytes(f.ty, item) + rest, OneBytes(f, item) + rest, st, seen,
           List(done + [v]), rest);
  }

  lemma {:induction false} OneField(fields: seq<Field>, i: nat, s: Slot, slots: seq<Slot>, rest: seq<byte>,
                                    seen: set<nat>) returns (out: Slot)
    requires FieldsOk(fields) && i < |fields| == |slots| && slots[i] == InitialSlot(fields[i])
    requires SlotOk(fields[i], s, Terminated) && SlotOk(fields[i], s, Shaped) && |SlotBytes(fields[i], s)| < TWO_32
    requires !s.List? && !SlotIsDefault(fields[i], s) && Alone(fields, slots, i)
    ensures SameSlot(fields[i], out, s)
    ensures DecodeFields(fields, SlotBytes(fields[i], s) + rest, slots, seen)
         == DecodeFields(fields, rest, slots[i := out], Saw(fields, i, seen))
    decreases fields, 2
  {
    var f := fields[i];
    OneRoundTrip(f, s, rest);
    var body := ValueBytes(f.ty, s.v) + rest;
    out := DecodeSlot(f, WireType(f.ty), body, slots[i]).value;
    Regroup(TagBytes(f, WireType(f.ty)), ValueBytes(f.ty, s.v), rest);
    LoopTo(fields, i, WireType(f.ty), body, SlotBytes(f, s) + rest, slots, seen, out, rest);
  }

  /** One field's bytes take the destination from its initial slot to the encoded one. */
  lemma {:induction false} FieldRoundTrip(fields: seq<Field>, i: nat, s: Slot, slots: seq<Slot>, rest: seq<byte>,
                                          seen: set<nat>) returns (out: Slot)
    requires FieldsOk(fields) && i < |fields| == |slots| && slots[i] == InitialSlot(fields[i])
    requires SlotOk(fields[i], s, Terminated) && SlotOk(fields[i], s, Shaped) && |SlotBytes(fields[i], s)| < TWO_32
    requires Alone(fields, slots, i) || SlotIsDefault(fields[i], s)
    ensures SameSlot(fields[i], out, s)
    ensures DecodeFields(fields, SlotBytes(fields[i], s) + rest, slots, seen)
         == DecodeFields(fields, rest, slots[i := out],
                         if SlotIsDefault(fields[i], s) then seen else Saw(fields, i, seen))
    decreases fields, 3
  {
    if SlotIsDefault(fields[i], s) {
      SlotDefaultSame(fields[i], s);
      out := slots[i];
      assert SlotBytes(fields[i], s) + rest == rest && slots[i := out] == slots;
    } else if s.List? {
      out := ListRoundTrip(fields, i, s.items, slots, rest, seen);
    } else {
      out := OneField(fields, i, s, slots, rest, seen);
    }
  }

  lemma {:induction false} ListRoundTrip(fields: seq<Field>, i: nat, items: seq<Value>, slots: seq<Slot>,
                                         rest: seq<byte>, seen: set<nat>) returns (out: Slot)
    requires FieldsOk(fields) && i < |fields| == |slots| && slots[i] == List([]) && fields[i].rule.Repeated?
             && items != []
    requires SlotOk(fields[i], List(items), Terminated) && SlotOk(fields[i], List(items), Shaped)
    requires |SlotBytes(fields[i], List(items))| < TWO_32
    ensures SameSlot(fields[i], out, List(items))
    ensures DecodeFields(fields, SlotBytes(fields[i], List(items)) + rest, slots, seen)
         == DecodeFields(fields, rest, slots[i := out], Saw(fields, i, seen))
    decreases fields, 2, |items| + 1
  {
    var f := fields[i];
    assert FieldOk(f);
    if Packable(f.ty) {
      out := List(items);
      PackedField(fields, i, items, slots, rest, seen);
    } else {
      var values := TaggedRoundTrip(fields, i, items, [], slots, rest, seen);
      out := List(values);
      assert slots[i := List([])] == slots && [] + values == values;
    }
  }

  lemma PackedSlot(f: Field, items: seq<Value>, rest: seq<byte>)
    requires FieldOk(f) && f.rule.Repeated? && Packable(f.ty) && |items| <= f.rule.max
    requires ItemsOk(f.ty, items, Terminated) && ItemsOk(f.ty, items, Shaped) && |ItemsBytes(f.ty, items)| < TWO_32
    ensures DecodeSlot(f, WT_STRING, Prefixed(ItemsBytes(f.ty, items)) + rest, List([])) == Got(List(items), rest)
  {
    PrefixedRoundTrip(ItemsBytes(f.ty, items), rest);
    PackedRoundTrip(f.ty, items, [], f.rule.max);
    assert [] + items == items;
  }

  lemma PackedField(fields: seq<Field>, i: nat, items: seq<Value>, slots: seq<Slot>, rest: seq<byte>, seen: set<nat>)
    requires FieldsOk(fields) && i < |fields| == |slots| && slots[i] == List([]) && fields[i].rule.Repeated?
             && items != []
    requires SlotOk(fields[i], List(items), Terminated) && SlotOk(fields[i], List(items), Shaped)
             && Packable(fields[i].ty)
    requires |SlotBytes(fields[i], List(items))| < TWO_32
    ensures DecodeFields(fields, SlotBytes(fields[i], List(items)) + rest, slots, seen)
         == DecodeFields(fields, rest, slots[i := List(items)], Saw(fields, i, seen))
  {
    var f := fields[i];
    assert FieldOk(f);
    PackedSlot(f, items, rest);
    var body := Prefixed(ItemsBytes(f.ty, items)) + rest;
    Regroup(TagBytes(f, WT_STRING), Prefixed(ItemsBytes(f.ty, items)), rest);
    LoopTo(fields, i, WT_STRING, body, SlotBytes(f, List(items)) + rest, slots, seen, List(items), rest);
  }

  /** The required fields before `i` that the decoder checks for have been seen. */
  ghost predicate SeenUpTo(fields: seq<Field>, i: nat, seen: set<nat>)
    requires i <= |fields|
  {
    forall k :: 0 <= k < Min(RequiredIndex(fields, i), MAX_REQUIRED_FIELDS) ==> k in seen
  }

  /** Fields before `i` are decoded, the rest are as initialised. */
  ghost predicate DoneUpTo(fields: seq<Field>, slots: seq<Slot>, i: nat, st: seq<Slot>)
    requires i <= |fields| == |slots|
  {
    && |st| == |fields|
    && (forall j :: 0 <= j < i ==> SameSlot(fields[j], st[j], slots[j]))
    && forall j :: i <= j < |fields| ==> st[j] == InitialSlot(fields[j])
  }

  lemma PresentAlone(fields: seq<Field>, slots: seq<Slot>, i: nat, st: seq<Slot>)
    requires i < |fields| && SlotsOk(fields, slots, Shaped) && DoneUpTo(fields, slots, i, st)
             && !SlotIsDefault(fields[i], slots[i])
    ensures Alone(fields, st, i)
  {
    assert SlotOk(fields[i], slots[i], Shaped);
    forall j | 0 <= j < |fields| && j != i && SameGroup(fields[i], fields[j])
      ensures !IsChosen(st[j])
    {
      assert SlotOk(fields[j], slots[j], Shaped);
      if j < i {
        assert SameGroup(fields[j], fields[i]) && SameSlot(fields[j], st[j], slots[j]);
      }
    }
  }

  lemma SeenNext(fields: seq<Field>, i: nat, s: Slot, seen: set<nat>)
    requires i < |fields| && SlotOk(fields[i], s, Shaped) && SeenUpTo(fields, i, seen)
    ensures SeenUpTo(fields, i + 1, if SlotIsDefault(fields[i], s) then seen else Saw(fields, i, seen))
  {
    assert fields[i].rule.Required? ==> !SlotIsDefault(fields[i], s);
  }

  lemma DoneNext(fields: seq<Field>, slots: seq<Slot>, i: nat, st: seq<Slot>, out: Slot)
    requires i < |fields| == |slots| && DoneUpTo(fields, slots, i, st) && SameSlot(fields[i], out, slots[i])
    ensures DoneUpTo(fields, slots, i + 1, st[i := out])
  {
  }

  lemma {:induction false} FieldsRoundTrip(fields: seq<Field>, slots: seq<Slot>, i: nat, st: seq<Slot>, seen: set<nat>)
    requires FieldsOk(fields) && SlotsOk(fields, slots, Terminated) && SlotsOk(fields, slots, Shaped)
    requires i <= |fields| && |FieldsBytes(fields, slots, i)| < TWO_32
    requires DoneUpTo(fields, slots, i, st) && SeenUpTo(fields, i, seen)
    ensures var d := DecodeFields(fields, FieldsBytes(fields, slots, i), st, seen);
            d.Done? && SameSlots(fields, d.slots, slots)
    decreases fields, 4, |fields| - i
  {
    if i < |fields| {
      var rest := FieldsBytes(fields, slots, i + 1);
      assert SlotOk(fields[i], slots[i], Terminated) && SlotOk(fields[i], slots[i], Shaped);
      var absent := SlotIsDefault(fields[i], slots[i]);
      if !absent {
        PresentAlone(fields, slots, i, st);
      }
      var out := FieldRoundTrip(fields, i, slots[i], st, rest, seen);
      DoneNext(fields, slots, i, st, out);
      SeenNext(fields, i, slots[i], seen);
      FieldsRoundTrip(fields, slots, i + 1, st[i := out], if absent then seen else Saw(fields, i, seen));
    }
  }

  /**
   * Decoding the bytes of any well-formed message gives the message back, up to the contents
   * of absent fields, with nothing left unread and no required field missing.
   */
  lemma DecodeUndoesEncode(fields: seq<Field>, slots: seq<Slot>)
    requires FieldsOk(fields) && SlotsOk(fields, slots, Terminated)
    ensures SlotsOk(fields, slots, Shaped)
    ensures |MessageBytes(fields, slots)| < TWO_32 ==>
              var d := Decode(fields, MessageBytes(fields, slots));
              d.Done? && SameSlots(fields, d.slots, slots)
  {
    TerminatedSlots(fields, slots);
    if |MessageBytes(fields, slots)| < TWO_32 {
      FieldsRoundTrip(fields, slots, 0, InitialSlots(fields), {});
    }
  }
}
