/** The nanopb decoder as a function of the bytes left and the destination so far. */
module PbDecode {
  import opened PbVarints
  import opened PbMessages
  import opened PbEncode

  const MAX_REQUIRED_FIELDS: nat := 64

  datatype Find = At(index: nat) | Missing

  /** The field with a tag. */
  function FindField(fields: seq<Field>, tag: nat): (r: Find)
    ensures r.At? ==> r.index < |fields| && fields[r.index].tag == tag
    ensures r.Missing? ==> forall i :: 0 <= i < |fields| ==> fields[i].tag != tag
    decreases |fields|
  {
    if fields == [] then Missing
    else if fields[|fields| - 1].tag == tag then At(|fields| - 1)
    else FindField(fields[..|fields| - 1], tag)
  }

  /** How many required fields come before field `i`. */
  function RequiredIndex(fields: seq<Field>, i: nat): nat
    requires i <= |fields|
  {
    if i == 0 then 0 else RequiredIndex(fields, i - 1) + if fields[i - 1].rule.Required? then 1 else 0
  }

  // ---------------------------------------------------------------- skipping

  function SkipVarint(s: seq<byte>): (r: Read<bool>)
    ensures r.Got? ==> |r.rest| < |s|
  {
    if s == [] then Bad else if s[0] >= 128 then SkipVarint(s[1..]) else Got(true, s[1..])
  }

  function SkipBytes(s: seq<byte>, count: nat): (r: Read<bool>)
    ensures r.Got? ==> |r.rest| <= |s|
  {
    if |s| < count then Bad else Got(true, s[count..])
  }

  function SkipField(wireType: nat, s: seq<byte>): (r: Read<bool>)
    ensures r.Got? ==> |r.rest| <= |s|
  {
    if wireType == WT_VARINT then SkipVarint(s)
    else if wireType == WT_64BIT then SkipBytes(s, 8)
    else if wireType == WT_STRING then
      var len := ReadVarint32(s);
      if len.Bad? then Bad else SkipBytes(len.rest, len.value)
    else if wireType == WT_32BIT then SkipBytes(s, 4)
    else Bad
  }

  // ------------------------------------------------------------------ values

  /** A 64-bit pattern as a signed number; patterns for narrower fields are first cut to 32 bits. */
  function Signed(n: nat, size: nat): int {
    if size == 8 then if n < TWO_63 then n else n - TWO_64
    else if n % TWO_32 < TWO_31 then n % TWO_32 else n % TWO_32 - TWO_32
  }

  function UnZigZag(n: nat): int {
    if n % 2 == 1 then 0 - n / 2 - 1 else n / 2
  }

  predicate InRange(n: int, size: nat) {
    0 - SignedTop(size) <= n < SignedTop(size)
  }

  /** A length, then that many bytes: the bytes, and what follows. */
  function ReadPrefixed(s: seq<byte>): (r: Read<seq<byte>>)
    ensures r.Got? ==> |r.value| + |r.rest| < |s|
  {
    var len := ReadVarint32(s);
    if len.Bad? then Bad else ReadBytes(len.rest, len.value)
  }

  function DecodeScalar(ty: Type, s: seq<byte>): (r: Read<Value>)
    ensures r.Got? ==> |r.rest| <= |s| && (Packable(ty) ==> |r.rest| < |s|)
  {
    match ty
    case Bool =>
      var n := ReadVarint32(s);
      if n.Bad? then Bad else Got(Flag(n.value != 0), n.rest)
    case Varint(size) =>
      var n := ReadVarint64(s);
      if n.Bad? || !InRange(Signed(n.value, size), size) then Bad else Got(Number(Signed(n.value, size)), n.rest)
    case Uvarint(size) =>
      var n := ReadVarint64(s);
      if n.Bad? || n.value >= 2 * SignedTop(size) then Bad else Got(Number(n.value), n.rest)
    case Svarint(size) =>
      var n := ReadVarint64(s);
      if n.Bad? || !InRange(UnZigZag(n.value), size) then Bad else Got(Number(UnZigZag(n.value)), n.rest)
    case Fixed32 =>
      var b := ReadBytes(s, 4);
      if b.Bad? then Bad else Got(Number(FromLittleEndian(b.value)), b.rest)
    case Fixed64 =>
      var b := ReadBytes(s, 8);
      if b.Bad? then Bad else Got(Number(FromLittleEndian(b.value)), b.rest)
    case Bytes(cap) =>
      var n := ReadVarint32(s);
      if n.Bad? || n.value > cap then Bad else ReadRaw(n.rest, n.value)
    case Str(cap) =>
      var n := ReadVarint32(s);
      if n.Bad? || n.value + 1 > cap then Bad else ReadRaw(n.rest, n.value)
    case FixedBytes(len) =>
      var n := ReadVarint32(s);
      if n.Bad? then Bad
      else if n.value == 0 then Got(Zero(ty), n.rest)
      else if n.value != len then Bad
      else ReadRaw(n.rest, len)
    case Message(_) => Bad
  }

  function ReadRaw(s: seq<byte>, count: nat): (r: Read<Value>)
    ensures r.Got? ==> |r.rest| <= |s|
  {
    var b := ReadBytes(s, count);
    if b.Bad? then Bad else Got(Raw(b.value), b.rest)
  }

  /** `into` is what the destination holds; a submessage is decoded over it unless it is to start fresh. */
  function DecodeValue(ty: Type, s: seq<byte>, into: Value, anew: bool): (r: Read<Value>)
    ensures r.Got? ==> |r.rest| <= |s| && (Packable(ty) ==> |r.rest| < |s|)
    decreases ty, 0
  {
    match ty
    case Message(sub) =>
      var body := ReadPrefixed(s);
      if body.Bad? then Bad
      else
        var start := if !anew && into.Struct? && |into.slots| == |sub| then into.slots else InitialSlots(sub);
        var d := DecodeFields(sub, body.value, start, {});
        if d.Failed? then Bad else Got(Struct(d.slots), body.rest)
    case _ => DecodeScalar(ty, s)
  }

  // ------------------------------------------------------------------ fields

  /** A packed array: items until the bytes run out; too many is an error. */
  function DecodePacked(ty: Type, s: seq<byte>, items: seq<Value>, max: nat): (r: Read<seq<Value>>)
    requires Packable(ty)
    decreases |s|
  {
    if s == [] then Got(items, [])
    else if |items| >= max then Bad
    else
      var v := DecodeScalar(ty, s);
      if v.Bad? then Bad else DecodePacked(ty, v.rest, items + [v.value], max)
  }

  function DecodeSlot(f: Field, wireType: nat, s: seq<byte>, slot: Slot): (r: Read<Slot>)
    ensures r.Got? ==> |r.rest| <= |s|
    decreases f, 2
  {
    match slot
    case Single(v) =>
      var d := DecodeValue(f.ty, s, v, false);
      if d.Bad? then Bad else Got(Single(d.value), d.rest)
    case Flagged(_, v) =>
      var d := DecodeValue(f.ty, s, v, false);
      if d.Bad? then Bad else Got(Flagged(true, d.value), d.rest)
    case Arm(chosen, v) =>
      // An arm just chosen starts from defaults.
      var d := DecodeValue(f.ty, s, v, !chosen);
      if d.Bad? then Bad else Got(Arm(true, d.value), d.rest)
    case List(items) =>
      if !f.rule.Repeated? then Bad
      else if wireType == WT_STRING && Packable(f.ty) then
        var body := ReadPrefixed(s);
        if body.Bad? then Bad
        else
          var d := DecodePacked(f.ty, body.value, items, f.rule.max);
          if d.Bad? then Bad else Got(List(d.value), body.rest)
      else if |items| >= f.rule.max then Bad
      else
        var d := DecodeValue(f.ty, s, Zero(f.ty), true);
        if d.Bad? then Bad else Got(List(items + [d.value]), d.rest)
  }

  /** Stores a slot; choosing an arm of a one-of drops the other arms. */
  function SetSlot(fields: seq<Field>, slots: seq<Slot>, i: nat, slot: Slot): (r: seq<Slot>)
    requires i < |fields| == |slots|
    ensures |r| == |fields|
  {
    seq(|fields|, j requires 0 <= j < |fields| =>
      if j == i then slot
      else if SameGroup(fields[i], fields[j]) && slots[j].Arm? then slots[j].(chosen := false)
      else slots[j])
  }

  datatype Tag = Tag(tag: nat, wireType: nat, rest: seq<byte>) | End | NoTag

  /** A zero tag ends the message early. */
  function DecodeTag(s: seq<byte>): (r: Tag)
    ensures r.Tag? ==> |r.rest| < |s|
  {
    var n := ReadVarint32(s);
    if n.Bad? then NoTag else if n.value == 0 then End else Tag(n.value / 8, n.value % 8, n.rest)
  }

  datatype Decoded = Done(slots: seq<Slot>) | Failed

  function Saw(fields: seq<Field>, i: nat, seen: set<nat>): set<nat>
    requires i < |fields|
  {
    if fields[i].rule.Required? && RequiredIndex(fields, i) < MAX_REQUIRED_FIELDS
    then seen + {RequiredIndex(fields, i)} else seen
  }

  function Min(a: nat, b: nat): nat {
    if a < b then a else b
  }

  /** Only the first 64 required fields are checked for. */
  predicate AllSeen(fields: seq<Field>, seen: set<nat>) {
    forall k :: 0 <= k < Min(RequiredIndex(fields, |fields|), MAX_REQUIRED_FIELDS) ==> k in seen
  }

  function Finish(fields: seq<Field>, slots: seq<Slot>, seen: set<nat>): (r: Decoded)
    requires |slots| == |fields|
    ensures r.Done? ==> |r.slots| == |fields|
  {
    if AllSeen(fields, seen) then Done(slots) else Failed
  }

  /** The decoding loop. */
  function DecodeFields(fields: seq<Field>, s: seq<byte>, slots: seq<Slot>, seen: set<nat>): (r: Decoded)
    requires |slots| == |fields|
    ensures r.Done? ==> |r.slots| == |fields|
    decreases fields, 3, |s|
  {
    if s == [] then Finish(fields, slots, seen)
    else
      match DecodeTag(s)
      case NoTag => Failed
      case End => Finish(fields, slots, seen)
      case Tag(tag, wireType, rest) =>
        match FindField(fields, tag)
        case Missing =>
          var skipped := SkipField(wireType, rest);
          if skipped.Bad? then Failed else DecodeFields(fields, skipped.rest, slots, seen)
        case At(i) =>
          var d := DecodeSlot(fields[i], wireType, rest, slots[i]);
          if d.Bad? then Failed
          else DecodeFields(fields, d.rest, SetSlot(fields, slots, i, d.value), Saw(fields, i, seen))
  }

  /** Initialise the destination, then decode. */
  function Decode(fields: seq<Field>, s: seq<byte>): Decoded {
    DecodeFields(fields, s, InitialSlots(fields), {})
  }
}
