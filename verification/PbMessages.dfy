/** nanopb descriptors and message values, and what equality up to absent fields means. */
module PbMessages {
  import opened PbVarints

  /** Sizes are in bytes: 1, 2, 4 or 8 for integers, the capacity of the buffer otherwise. */
  datatype Type =
    | Bool | Varint(size: nat) | Uvarint(size: nat) | Svarint(size: nat) | Fixed32 | Fixed64
    | Bytes(cap: nat) | Str(cap: nat) | FixedBytes(len: nat) | Message(fields: seq<Field>)

  /** `Singular` is an optional field without a has flag; one-of fields of a group share storage. */
  datatype Rule = Required | Optional | Singular | Repeated(max: nat) | OneOf(group: nat)

  datatype Field = Field(tag: nat, rule: Rule, ty: Type, init: Value)

  datatype Value = Flag(b: bool) | Number(n: int) | Raw(bytes: seq<byte>) | Struct(slots: seq<Slot>)

  /** The storage of one field: a value, a value with a has flag, a counted array, or an arm of a one-of. */
  datatype Slot =
    | Single(v: Value)
    | Flagged(has: bool, v: Value)
    | List(items: seq<Value>)
    | Arm(chosen: bool, v: Value)

  // ------------------------------------------------------------ well-formed

  predicate IntSize(size: nat) {
    size == 1 || size == 2 || size == 4 || size == 8
  }

  /** One more than the largest signed value of a size. */
  function SignedTop(size: nat): nat {
    if size == 1 then 0x80 else if size == 2 then 0x8000 else if size == 4 then TWO_31 else TWO_63
  }

  /**
   * How much is asked of a value: that it has the storage its type describes, that lengths
   * and counts are also within their buffers, or that strings also leave room for a terminator.
   */
  datatype Level = Shaped | Bounded | Terminated

  predicate ValueOk(ty: Type, v: Value, lv: Level)
    decreases ty, 0
  {
    match ty
    case Bool => v.Flag?
    case Varint(size) => v.Number? && 0 - SignedTop(size) <= v.n < SignedTop(size)
    case Svarint(size) => v.Number? && 0 - SignedTop(size) <= v.n < SignedTop(size)
    case Uvarint(size) => v.Number? && 0 <= v.n < 2 * SignedTop(size)
    case Fixed32 => v.Number? && 0 <= v.n < TWO_32
    case Fixed64 => v.Number? && 0 <= v.n < TWO_64
    case Bytes(cap) => v.Raw? && (lv.Shaped? || |v.bytes| <= cap)
    case Str(cap) =>
      v.Raw? && |v.bytes| <= cap && (lv.Terminated? ==> |v.bytes| < cap)
      && forall i :: 0 <= i < |v.bytes| ==> v.bytes[i] != 0
    case FixedBytes(len) => v.Raw? && |v.bytes| == len
    case Message(fields) => v.Struct? && SlotsOk(fields, v.slots, lv)
  }

  predicate SlotsOk(fields: seq<Field>, slots: seq<Slot>, lv: Level)
    decreases fields, 1
  {
    && |slots| == |fields|
    && (forall i :: 0 <= i < |fields| ==> SlotOk(fields[i], slots[i], lv))
    && forall i, j :: 0 <= i < j < |fields| && SameGroup(fields[i], fields[j]) ==>
          !(IsChosen(slots[i]) && IsChosen(slots[j]))
  }

  predicate SameGroup(f: Field, g: Field) {
    f.rule.OneOf? && g.rule.OneOf? && f.rule.group == g.rule.group
  }

  predicate IsChosen(s: Slot) {
    s.Arm? && s.chosen
  }

  predicate SlotOk(f: Field, s: Slot, lv: Level)
    decreases f, 2
  {
    match f.rule
    case Required => s.Single? && ValueOk(f.ty, s.v, lv)
    case Singular => s.Single? && ValueOk(f.ty, s.v, lv)
    case Optional => s.Flagged? && (s.has ==> ValueOk(f.ty, s.v, lv))
    case Repeated(max) => s.List? && (lv.Shaped? || |s.items| <= max) && ItemsOk(f.ty, s.items, lv)
    case OneOf(_) => s.Arm? && (s.chosen ==> ValueOk(f.ty, s.v, lv))
  }

  predicate ItemsOk(ty: Type, items: seq<Value>, lv: Level)
    decreases ty, 1
  {
    forall i :: 0 <= i < |items| ==> ValueOk(ty, items[i], lv)
  }

  // What leaves room for terminators is within its buffers and has the right shape.

  lemma {:induction false} TerminatedValue(ty: Type, v: Value)
    requires ValueOk(ty, v, Terminated)
    ensures ValueOk(ty, v, Shaped) && ValueOk(ty, v, Bounded)
    decreases ty, 0
  {
    if ty.Message? {
      TerminatedSlots(ty.fields, v.slots);
    }
  }

  lemma {:induction false} TerminatedSlots(fields: seq<Field>, slots: seq<Slot>)
    requires SlotsOk(fields, slots, Terminated)
    ensures SlotsOk(fields, slots, Shaped) && SlotsOk(fields, slots, Bounded)
    decreases fields, 1
  {
    forall i | 0 <= i < |fields|
      ensures SlotOk(fields[i], slots[i], Shaped) && SlotOk(fields[i], slots[i], Bounded)
    {
      TerminatedSlot(fields[i], slots[i]);
    }
  }

  lemma {:induction false} TerminatedSlot(f: Field, s: Slot)
    requires SlotOk(f, s, Terminated)
    ensures SlotOk(f, s, Shaped) && SlotOk(f, s, Bounded)
    decreases f, 2
  {
    if s.List? {
      forall i | 0 <= i < |s.items|
        ensures ValueOk(f.ty, s.items[i], Shaped) && ValueOk(f.ty, s.items[i], Bounded)
      {
        TerminatedValue(f.ty, s.items[i]);
      }
    } else if ValueOk(f.ty, s.v, Terminated) {
      TerminatedValue(f.ty, s.v);
    }
  }

  predicate TypeOk(ty: Type)
    decreases ty, 0
  {
    match ty
    case Varint(size) => IntSize(size)
    case Uvarint(size) => IntSize(size)
    case Svarint(size) => IntSize(size)
    case Bytes(cap) => cap < TWO_32
    case Str(cap) => cap < TWO_32
    case FixedBytes(len) => len < TWO_32
    case Message(fields) => FieldsOk(fields)
    case _ => true
  }

  /** Distinct tags in the range the wire format has room for, and legal initial values. */
  predicate FieldsOk(fields: seq<Field>)
    decreases fields, 1
  {
    && (forall i :: 0 <= i < |fields| ==> FieldOk(fields[i]))
    && forall i, j :: 0 <= i < j < |fields| ==> fields[i].tag != fields[j].tag
  }

  predicate FieldOk(f: Field)
    decreases f, 2
  {
    && 1 <= f.tag < 0x2000_0000 && TypeOk(f.ty)
    && (!f.ty.Message? ==> ValueOk(f.ty, f.init, Terminated))
    && (f.rule.Singular? && !f.ty.Message? ==> ZeroInit(f))
  }

  predicate ZeroInit(f: Field) {
    f.init == Zero(f.ty)
  }

  // -------------------------------------------------------------- defaults

  function Zero(ty: Type): Value {
    match ty
    case Bool => Flag(false)
    case Bytes(_) => Raw([])
    case Str(_) => Raw([])
    case FixedBytes(len) => Raw(seq(len, i => 0))
    case Message(_) => Struct([])
    case _ => Number(0)
  }

  /** What initialisation puts in a field before decoding. */
  function InitialValue(f: Field): Value
    decreases f, 1
  {
    match f.ty
    case Message(sub) => Struct(InitialSlots(sub))
    case _ => f.init
  }

  function InitialSlots(fields: seq<Field>): (r: seq<Slot>)
    ensures |r| == |fields|
    ensures forall i :: 0 <= i < |fields| ==> r[i] == InitialSlot(fields[i])
    decreases fields, 3
  {
    seq(|fields|, i requires 0 <= i < |fields| => InitialSlot(fields[i]))
  }

  function InitialSlot(f: Field): Slot
    decreases f, 2
  {
    match f.rule
    case Required => Single(InitialValue(f))
    case Singular => Single(InitialValue(f))
    case Optional => Flagged(false, InitialValue(f))
    case Repeated(_) => List([])
    case OneOf(_) => Arm(false, InitialValue(f))
  }

  /** Whether a field without a has flag is left out: its value is all zeros, recursively. */
  predicate IsDefault(ty: Type, v: Value)
    decreases ty, 0
  {
    match ty
    case Message(sub) =>
      v.Struct? && |v.slots| == |sub| && forall i :: 0 <= i < |sub| ==> SlotIsDefault(sub[i], v.slots[i])
    case FixedBytes(len) => len == 0
    case _ => v == Zero(ty)
  }

  predicate SlotIsDefault(f: Field, s: Slot)
    decreases f, 1
  {
    match s
    case Single(v) => f.rule.Singular? && IsDefault(f.ty, v)
    case Flagged(has, _) => !has
    case List(items) => items == []
    case Arm(chosen, _) => !chosen
  }

  // ------------------------------------------- equality up to absent fields

  predicate SameValue(ty: Type, a: Value, b: Value)
    decreases ty, 0
  {
    match ty
    case Message(sub) => a.Struct? && b.Struct? && SameSlots(sub, a.slots, b.slots)
    case _ => a == b
  }

  predicate SameSlots(fields: seq<Field>, a: seq<Slot>, b: seq<Slot>)
    decreases fields, 1
  {
    |a| == |b| == |fields| && forall i :: 0 <= i < |fields| ==> SameSlot(fields[i], a[i], b[i])
  }

  /** Contents of an absent field do not matter. */
  predicate SameSlot(f: Field, a: Slot, b: Slot)
    decreases f, 1
  {
    match a
    case Single(v) => b.Single? && SameValue(f.ty, v, b.v)
    case Flagged(has, v) => b.Flagged? && has == b.has && (has ==> SameValue(f.ty, v, b.v))
    case List(items) =>
      b.List? && |items| == |b.items| && forall i :: 0 <= i < |items| ==> SameValue(f.ty, items[i], b.items[i])
    case Arm(chosen, v) => b.Arm? && chosen == b.chosen && (chosen ==> SameValue(f.ty, v, b.v))
  }
}
