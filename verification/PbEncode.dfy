/** The nanopb encoder: the bytes of a message, and the stream code that writes them after sizing them. */
module PbEncode {
  import opened PbVarints
  import opened PbMessages

  // ------------------------------------------------------ bytes of a message

  const WT_VARINT: nat := 0
  const WT_64BIT: nat := 1
  const WT_STRING: nat := 2
  const WT_32BIT: nat := 5

  function WireType(ty: Type): nat {
    match ty
    case Bool => WT_VARINT
    case Varint(_) => WT_VARINT
    case Uvarint(_) => WT_VARINT
    case Svarint(_) => WT_VARINT
    case Fixed32 => WT_32BIT
    case Fixed64 => WT_64BIT
    case _ => WT_STRING
  }

  predicate Packable(ty: Type) {
    WireType(ty) != WT_STRING
  }

  function TagBytes(f: Field, wireType: nat): seq<byte> {
    VarintBytes(f.tag * 8 + wireType)
  }

  function Prefixed(s: seq<byte>): seq<byte> {
    VarintBytes(|s|) + s
  }

  /** Two's complement in 64 bits. */
  function Unsigned(n: int): nat
    requires 0 - TWO_63 <= n < TWO_63
  {
    if n < 0 then n + TWO_64 else n
  }

  function ZigZag(n: int): nat {
    if n < 0 then 0 - 2 * n - 1 else 2 * n
  }

  function ValueBytes(ty: Type, v: Value): seq<byte>
    requires ValueOk(ty, v, Shaped)
    decreases ty, 0
  {
    match ty
    case Bool => VarintBytes(if v.b then 1 else 0)
    case Varint(_) => VarintBytes(Unsigned(v.n))
    case Uvarint(_) => VarintBytes(v.n)
    case Svarint(_) => VarintBytes(ZigZag(v.n))
    case Fixed32 => LittleEndian(v.n, 4)
    case Fixed64 => LittleEndian(v.n, 8)
    case Message(sub) => Prefixed(FieldsBytes(sub, v.slots, 0))
    case _ => Prefixed(v.bytes)
  }

  /** The fields from number `i` on. */
  function FieldsBytes(fields: seq<Field>, slots: seq<Slot>, i: nat): seq<byte>
    requires SlotsOk(fields, slots, Shaped) && i <= |fields|
    decreases fields, 3, |fields| - i
  {
    if i == |fields| then [] else SlotBytes(fields[i], slots[i]) + FieldsBytes(fields, slots, i + 1)
  }

  function OneBytes(f: Field, v: Value): seq<byte>
    requires ValueOk(f.ty, v, Shaped)
    decreases f, 0
  {
    TagBytes(f, WireType(f.ty)) + ValueBytes(f.ty, v)
  }

  function SlotBytes(f: Field, s: Slot): seq<byte>
    requires SlotOk(f, s, Shaped)
    decreases f, 2
  {
    match s
    case Single(v) => if f.rule.Singular? && IsDefault(f.ty, v) then [] else OneBytes(f, v)
    case Flagged(has, v) => if has then OneBytes(f, v) else []
    case Arm(chosen, v) => if chosen then OneBytes(f, v) else []
    case List(items) =>
      if items == [] then []
      else if Packable(f.ty) then TagBytes(f, WT_STRING) + Prefixed(ItemsBytes(f.ty, items))
      else TaggedItems(f, items)
  }

  function ItemsBytes(ty: Type, items: seq<Value>): seq<byte>
    requires ItemsOk(ty, items, Shaped)
    decreases ty, 1, |items|
  {
    if items == [] then [] else ValueBytes(ty, items[0]) + ItemsBytes(ty, items[1..])
  }

  function TaggedItems(f: Field, items: seq<Value>): seq<byte>
    requires ItemsOk(f.ty, items, Shaped)
    decreases f, 1, |items|
  {
    if items == [] then [] else OneBytes(f, items[0]) + TaggedItems(f, items[1..])
  }

  /** A message without a length. */
  function MessageBytes(fields: seq<Field>, slots: seq<Slot>): seq<byte>
    requires SlotsOk(fields, slots, Shaped)
  {
    FieldsBytes(fields, slots, 0)
  }
}
