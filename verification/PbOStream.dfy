/** The encoder's streams: sizing streams only count, writing streams fill a limited buffer. */
module PbOStream {
  import opened PbVarints
  import opened PbMessages
  import opened PbEncode

  /** All packed items have the same size when the type is fixed. */
  function FixedSize(ty: Type): nat {
    if ty.Fixed32? then 4 else if ty.Fixed64? then 8 else 0
  }

  lemma {:induction false} FixedItemsSize(ty: Type, items: seq<Value>)
    requires (ty.Fixed32? || ty.Fixed64?) && ItemsOk(ty, items, Shaped)
    ensures |ItemsBytes(ty, items)| == FixedSize(ty) * |items|
  {
    if items != [] {
      FixedItemsSize(ty, items[1..]);
    }
  }

  lemma ItemsSplit(ty: Type, items: seq<Value>, i: nat)
    requires ItemsOk(ty, items, Shaped) && i < |items|
    ensures ItemsOk(ty, items[i..], Shaped) && ItemsOk(ty, items[i + 1..], Shaped)
    ensures ItemsBytes(ty, items[i..]) == ValueBytes(ty, items[i]) + ItemsBytes(ty, items[i + 1..])
  {
    assert items[i..][1..] == items[i + 1..] && items[i..][0] == items[i];
  }

  lemma TaggedSplit(f: Field, items: seq<Value>, i: nat)
    requires ItemsOk(f.ty, items, Shaped) && i < |items|
    ensures ItemsOk(f.ty, items[i..], Shaped) && ItemsOk(f.ty, items[i + 1..], Shaped)
    ensures TaggedItems(f, items[i..]) == OneBytes(f, items[i]) + TaggedItems(f, items[i + 1..])
  {
    assert items[i..][1..] == items[i + 1..] && items[i..][0] == items[i];
  }

  lemma {:induction false} DefaultIsBounded(f: Field, v: Value)
    requires IsDefault(f.ty, v) && ValueOk(f.ty, v, Shaped)
    ensures ValueOk(f.ty, v, Bounded)
    decreases f
  {
    if f.ty.Message? {
      var sub := f.ty.fields;
      forall i | 0 <= i < |sub|
        ensures SlotOk(sub[i], v.slots[i], Bounded)
      {
        assert SlotOk(sub[i], v.slots[i], Shaped) && SlotIsDefault(sub[i], v.slots[i]);
        if v.slots[i].Single? {
          DefaultIsBounded(sub[i], v.slots[i].v);
        }
      }
    }
  }

  lemma PackableIsBounded(ty: Type, items: seq<Value>)
    requires Packable(ty) && ItemsOk(ty, items, Shaped)
    ensures ItemsOk(ty, items, Bounded)
  {
    forall i | 0 <= i < |items|
      ensures ValueOk(ty, items[i], Bounded)
    {
      assert ValueOk(ty, items[i], Shaped);
    }
  }

  class OStream {
    const sizing: bool
    const maxSize: nat
    var bytesWritten: nat
    var out: seq<byte>

    ghost predicate Room()
      reads this
    {
      sizing || bytesWritten <= maxSize
    }

    /** Whether `n` more bytes may be written. */
    ghost predicate Fits(n: nat)
      reads this
    {
      sizing || bytesWritten + n <= maxSize
    }

    constructor Sizing()
      ensures sizing && bytesWritten == 0 && Room()
    {
      sizing, maxSize, bytesWritten, out := true, 0, 0, [];
    }

    constructor Into(out: seq<byte>, maxSize: nat)
      ensures !sizing && this.maxSize == maxSize && bytesWritten == 0 && this.out == out && Room()
    {
      sizing, this.maxSize, bytesWritten, this.out := false, maxSize, 0, out;
    }

    /** `b` has been added to what had been written before. */
    twostate predicate Added(b: seq<byte>)
      reads this
    {
      bytesWritten == old(bytesWritten) + |b| && out == old(out) + if sizing then [] else b
    }

    method Write(b: seq<byte>) returns (ok: bool)
      requires Room()
      modifies this
      ensures Room() && ok == old(Fits(|b|)) && (ok ==> Added(b)) && (!ok ==> unchanged(this))
    {
      if |b| > 0 && !sizing {
        if bytesWritten + |b| > maxSize {
          return false;
        }
        out := out + b;
      }
      bytesWritten := bytesWritten + |b|;
      ok := true;
    }

    method EncodeVarint(n: nat) returns (ok: bool)
      requires Room()
      modifies this
      ensures Room() && ok == old(Fits(|VarintBytes(n)|)) && (ok ==> Added(VarintBytes(n)))
    {
      var buffer := PbVarints.EncodeVarint(n);
      ok := Write(buffer);
    }

    method EncodeTag(f: Field, wireType: nat) returns (ok: bool)
      requires Room()
      modifies this
      ensures Room() && ok == old(Fits(|TagBytes(f, wireType)|)) && (ok ==> Added(TagBytes(f, wireType)))
    {
      ok := EncodeVarint(f.tag * 8 + wireType);
    }

    method EncodeString(b: seq<byte>) returns (ok: bool)
      requires Room()
      modifies this
      ensures Room() && ok == old(Fits(|Prefixed(b)|)) && (ok ==> Added(Prefixed(b)))
    {
      ok := EncodeVarint(|b|);
      if ok {
        ok := Write(b);
      }
    }

    // -------------------------------------------------------------- messages

    /** One value, without its tag. */
    method EncodeValue(ty: Type, v: Value) returns (ok: bool)
      requires Room() && ValueOk(ty, v, Shaped)
      modifies this
      ensures Room() && ok == (ValueOk(ty, v, Bounded) && old(Fits(|ValueBytes(ty, v)|)))
      ensures ok ==> Added(ValueBytes(ty, v))
      decreases ty, 0
    {
      match ty
      case Bool => ok := EncodeVarint(if v.b then 1 else 0);
      case Varint(_) => ok := EncodeVarint(Unsigned(v.n));
      case Uvarint(_) => ok := EncodeVarint(v.n);
      case Svarint(_) => ok := EncodeVarint(ZigZag(v.n));
      case Fixed32 => ok := Write(LittleEndian(v.n, 4));
      case Fixed64 => ok := Write(LittleEndian(v.n, 8));
      case Bytes(cap) =>
        if |v.bytes| > cap {
          return false;
        }
        ok := EncodeString(v.bytes);
      case Str(_) => ok := EncodeString(v.bytes);
      case FixedBytes(_) => ok := EncodeString(v.bytes);
      case Message(sub) => ok := EncodeSubmessage(sub, v.slots);
    }

    /** Sizes the message with a counting stream, writes the length, then the message. */
    method EncodeSubmessage(fields: seq<Field>, slots: seq<Slot>) returns (ok: bool)
      requires Room() && SlotsOk(fields, slots, Shaped)
      modifies this
      ensures Room()
      ensures ok == (SlotsOk(fields, slots, Bounded) && old(Fits(|Prefixed(MessageBytes(fields, slots))|)))
      ensures ok ==> Added(Prefixed(MessageBytes(fields, slots)))
      decreases fields, 5
    {
      var sizer := new OStream.Sizing();
      ok := sizer.EncodeMessage(fields, slots);
      if !ok {
        return;
      }
      var size := sizer.bytesWritten;
      ok := EncodeVarint(size);
      if !ok {
        return;
      }
      if sizing {
        bytesWritten := bytesWritten + size;
        return;
      }
      if bytesWritten + size > maxSize {
        return false;
      }
      var sub := new OStream.Into(out, size);
      ok := sub.EncodeMessage(fields, slots);
      bytesWritten, out := bytesWritten + sub.bytesWritten, sub.out;
      if sub.bytesWritten != size {
        // "submsg size changed": both passes write the same bytes, so this never fires.
        assert false;
      }
    }

    /** The number of bytes a packed array will take. */
    method PackedSize(ty: Type, items: seq<Value>) returns (size: nat)
      requires Packable(ty) && ItemsOk(ty, items, Shaped)
      ensures size == |ItemsBytes(ty, items)|
      decreases ty, 3
    {
      if ty.Fixed32? {
        FixedItemsSize(ty, items);
        size := 4 * |items|;
      } else if ty.Fixed64? {
        FixedItemsSize(ty, items);
        size := 8 * |items|;
      } else {
        var sizer := new OStream.Sizing();
        var ok := sizer.EncodeItems(ty, items);
        size := sizer.bytesWritten;
      }
    }

    /** Item `i` of a packed array. */
    method EncodeItem(ty: Type, items: seq<Value>, i: nat) returns (ok: bool)
      requires Room() && Packable(ty) && ItemsOk(ty, items, Shaped) && i < |items|
      requires ItemsOk(ty, items, Bounded)
      modifies this
      ensures Room() && ItemsOk(ty, items[i..], Shaped) && ItemsOk(ty, items[i + 1..], Shaped)
      ensures !ok ==> !old(Fits(|ItemsBytes(ty, items[i..])|))
      ensures ok ==> bytesWritten + |ItemsBytes(ty, items[i + 1..])| == old(bytesWritten) + |ItemsBytes(ty, items[i..])|
      ensures ok && sizing ==> out == old(out)
      ensures ok && !sizing ==> out + ItemsBytes(ty, items[i + 1..]) == old(out) + ItemsBytes(ty, items[i..])
      decreases ty, 1
    {
      ItemsSplit(ty, items, i);
      ok := EncodeValue(ty, items[i]);
    }

    method EncodeItems(ty: Type, items: seq<Value>) returns (ok: bool)
      requires Room() && Packable(ty) && ItemsOk(ty, items, Shaped)
      modifies this
      ensures Room() && ok == old(Fits(|ItemsBytes(ty, items)|)) && (ok ==> Added(ItemsBytes(ty, items)))
      decreases ty, 2
    {
      ghost var all := ItemsBytes(ty, items);
      PackableIsBounded(ty, items);
      assert items[0..] == items;
      for i := 0 to |items|
        invariant Room()
        invariant bytesWritten + |ItemsBytes(ty, items[i..])| == old(bytesWritten) + |all|
        invariant sizing ==> out == old(out)
        invariant !sizing ==> out + ItemsBytes(ty, items[i..]) == old(out) + all
      {
        ok := EncodeItem(ty, items, i);
        if !ok {
          return;
        }
      }
      ok := true;
    }

    method EncodeTagged(f: Field, items: seq<Value>) returns (ok: bool)
      requires Room() && ItemsOk(f.ty, items, Shaped)
      modifies this
      ensures Room() && ok == (ItemsOk(f.ty, items, Bounded) && old(Fits(|TaggedItems(f, items)|)))
      ensures ok ==> Added(TaggedItems(f, items))
      decreases f, 1
    {
      ghost var all := TaggedItems(f, items);
      assert items[0..] == items;
      for i := 0 to |items|
        invariant Room() && forall k :: 0 <= k < i ==> ValueOk(f.ty, items[k], Bounded)
        invariant bytesWritten + |TaggedItems(f, items[i..])| == old(bytesWritten) + |all|
        invariant sizing ==> out == old(out)
        invariant !sizing ==> out + TaggedItems(f, items[i..]) == old(out) + all
      {
        TaggedSplit(f, items, i);
        ok := EncodeOne(f, items[i]);
        if !ok {
          return;
        }
      }
      ok := true;
    }

    /** A tag and a value. */
    method EncodeOne(f: Field, v: Value) returns (ok: bool)
      requires Room() && ValueOk(f.ty, v, Shaped)
      modifies this
      ensures Room() && ok == (ValueOk(f.ty, v, Bounded) && old(Fits(|OneBytes(f, v)|)))
      ensures ok ==> Added(OneBytes(f, v))
      decreases f, 0
    {
      ok := EncodeTag(f, WireType(f.ty));
      if ok {
        ok := EncodeValue(f.ty, v);
      }
    }

    /** Counted arrays: packed when the type allows it. */
    method EncodeArray(f: Field, items: seq<Value>) returns (ok: bool)
      requires Room() && f.rule.Repeated? && SlotOk(f, List(items), Shaped)
      modifies this
      ensures Room() && ok == (SlotOk(f, List(items), Bounded) && old(Fits(|SlotBytes(f, List(items))|)))
      ensures ok ==> Added(SlotBytes(f, List(items)))
      decreases f, 2
    {
      if |items| == 0 {
        return true;
      }
      if |items| > f.rule.max {
        return false;
      }
      if Packable(f.ty) {
        PackableIsBounded(f.ty, items);
        ok := EncodePacked(f, items);
      } else {
        ok := EncodeTagged(f, items);
      }
    }

    method EncodePacked(f: Field, items: seq<Value>) returns (ok: bool)
      requires Room() && Packable(f.ty) && ItemsOk(f.ty, items, Shaped)
      modifies this
      ensures var b := TagBytes(f, WT_STRING) + Prefixed(ItemsBytes(f.ty, items));
              Room() && ok == old(Fits(|b|)) && (ok ==> Added(b))
      decreases f, 1
    {
      ok := EncodeTag(f, WT_STRING);
      if !ok {
        return;
      }
      var size := PackedSize(f.ty, items);
      ok := EncodeVarint(size);
      if !ok {
        return;
      }
      if sizing {
        bytesWritten := bytesWritten + size;
        return;
      }
      ok := EncodeItems(f.ty, items);
    }

    method EncodeField(f: Field, s: Slot) returns (ok: bool)
      requires Room() && SlotOk(f, s, Shaped)
      modifies this
      ensures Room() && ok == (SlotOk(f, s, Bounded) && old(Fits(|SlotBytes(f, s)|)))
      ensures ok ==> Added(SlotBytes(f, s))
      decreases f, 3
    {
      match s
      case Single(v) =>
        if f.rule.Singular? && IsDefault(f.ty, v) {
          DefaultIsBounded(f, v);
          return true;
        }
        ok := EncodeOne(f, v);
      case Flagged(has, v) =>
        if !has {
          return true;
        }
        ok := EncodeOne(f, v);
      case Arm(chosen, v) =>
        if !chosen {
          return true;
        }
        ok := EncodeOne(f, v);
      case List(items) => ok := EncodeArray(f, items);
    }

    /** All fields in order: succeeds exactly when every length is within bounds and the bytes fit. */
    method EncodeMessage(fields: seq<Field>, slots: seq<Slot>) returns (ok: bool)
      requires Room() && SlotsOk(fields, slots, Shaped)
      modifies this
      ensures Room() && ok == (SlotsOk(fields, slots, Bounded) && old(Fits(|MessageBytes(fields, slots)|)))
      ensures ok ==> Added(MessageBytes(fields, slots))
      decreases fields, 4
    {
      for i := 0 to |fields|
        invariant Room() && forall k :: 0 <= k < i ==> SlotOk(fields[k], slots[k], Bounded)
        invariant bytesWritten + |FieldsBytes(fields, slots, i)| == old(bytesWritten) + |MessageBytes(fields, slots)|
        invariant sizing ==> out == old(out)
        invariant !sizing ==> out + FieldsBytes(fields, slots, i) == old(out) + MessageBytes(fields, slots)
      {
        ok := EncodeField(fields[i], slots[i]);
        if !ok {
          return;
        }
      }
      ok := true;
    }
  }
}
