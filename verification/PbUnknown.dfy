/** A receiver that knows only some fields of a message decodes those and ignores the others. */
module PbUnknown {
  import opened PbVarints
  import opened PbMessages
  import opened PbEncode
  import opened PbDecode
  import opened PbRoundTrip

  // ---------------------------------------------------------- skipping bytes

  lemma {:induction false} SkipVarintBytes(n: nat, rest: seq<byte>)
    ensures SkipVarint(VarintBytes(n) + rest) == Got(true, rest)
    decreases n
  {
    VarintStep(n, rest);
    if n >= 128 {
      SkipVarintBytes(n / 128, rest);
    }
  }

  lemma SkipCount(b: seq<byte>, rest: seq<byte>)
    ensures SkipBytes(b + rest, |b|) == Got(true, rest)
  {
  }

  lemma SkipPrefixed(b: seq<byte>, rest: seq<byte>)
    requires |b| < TWO_32
    ensures SkipField(WT_STRING, Prefixed(b) + rest) == Got(true, rest)
  {
    Varint32RoundTrip(|b|, b + rest);
    Regroup(VarintBytes(|b|), b, rest);
    SkipCount(b, rest);
  }

  /** Skipping by wire type passes over exactly the bytes of one value. */
  lemma SkipValue(ty: Type, v: Value, rest: seq<byte>)
    requires ValueOk(ty, v, Shaped) && |ValueBytes(ty, v)| < TWO_32
    ensures SkipField(WireType(ty), ValueBytes(ty, v) + rest) == Got(true, rest)
  {
    match ty
    case Bool => SkipVarintBytes(if v.b then 1 else 0, rest);
    case Varint(_) => SkipVarintBytes(Unsigned(v.n), rest);
    case Uvarint(_) => SkipVarintBytes(v.n, rest);
    case Svarint(_) => SkipVarintBytes(ZigZag(v.n), rest);
    case Fixed32 => SkipCount(LittleEndian(v.n, 4), rest);
    case Fixed64 => SkipCount(LittleEndian(v.n, 8), rest);
    case Message(sub) => SkipPrefixed(FieldsBytes(sub, v.slots, 0), rest);
    case _ => SkipPrefixed(v.bytes, rest);
  }

  // --------------------------------------------------------- skipping fields

  ghost predicate Unknown(fields: seq<Field>, g: Field) {
    1 <= g.tag < 0x2000_0000 && forall i :: 0 <= i < |fields| ==> fields[i].tag != g.tag
  }

  /** One round of the loop on an unknown tag changes nothing but the bytes left. */
  lemma SkipRound(fields: seq<Field>, g: Field, wireType: nat, body: seq<byte>, s: seq<byte>, rest: seq<byte>,
                  st: seq<Slot>, seen: set<nat>)
    requires Unknown(fields, g) && |st| == |fields| && wireType < 8
    requires s == TagBytes(g, wireType) + body && SkipField(wireType, body) == Got(true, rest)
    ensures DecodeFields(fields, s, st, seen) == DecodeFields(fields, rest, st, seen)
  {
    TagRoundTrip(g, wireType, body);
  }

  lemma SkipOne(fields: seq<Field>, g: Field, v: Value, rest: seq<byte>, st: seq<Slot>, seen: set<nat>)
    requires Unknown(fields, g) && |st| == |fields| && ValueOk(g.ty, v, Shaped) && |ValueBytes(g.ty, v)| < TWO_32
    ensures DecodeFields(fields, OneBytes(g, v) + rest, st, seen) == DecodeFields(fields, rest, st, seen)
  {
    var tag, body := TagBytes(g, WireType(g.ty)), ValueBytes(g.ty, v);
    SkipValue(g.ty, v, rest);
    Regroup(tag, body, rest);
    SkipRound(fields, g, WireType(g.ty), body + rest, OneBytes(g, v) + rest, rest, st, seen);
  }

  lemma {:induction false} SkipItems(fields: seq<Field>, g: Field, items: seq<Value>, rest: seq<byte>, st: seq<Slot>,
                                     seen: set<nat>)
    requires Unknown(fields, g) && |st| == |fields| && ItemsOk(g.ty, items, Shaped) && |TaggedItems(g, items)| < TWO_32
    ensures DecodeFields(fields, TaggedItems(g, items) + rest, st, seen) == DecodeFields(fields, rest, st, seen)
    decreases |items|
  {
    if items == [] {
      assert TaggedItems(g, items) + rest == rest;
    } else {
      var more := TaggedItems(g, items[1..]);
      Regroup(OneBytes(g, items[0]), more, rest);
      SkipOne(fields, g, items[0], more + rest, st, seen);
      SkipItems(fields, g, items[1..], rest, st, seen);
    }
  }

  /** All bytes of an unknown field, whatever its rule, are skipped. */
  lemma SkipSlot(fields: seq<Field>, g: Field, s: Slot, rest: seq<byte>, st: seq<Slot>, seen: set<nat>)
    requires Unknown(fields, g) && |st| == |fields| && SlotOk(g, s, Shaped) && |SlotBytes(g, s)| < TWO_32
    ensures DecodeFields(fields, SlotBytes(g, s) + rest, st, seen) == DecodeFields(fields, rest, st, seen)
  {
    if SlotBytes(g, s) == [] {
      assert SlotBytes(g, s) + rest == rest;
    } else if s.List? && Packable(g.ty) {
      var tag, body := TagBytes(g, WT_STRING), Prefixed(ItemsBytes(g.ty, s.items));
      SkipPrefixed(ItemsBytes(g.ty, s.items), rest);
      Regroup(tag, body, rest);
      SkipRound(fields, g, WT_STRING, body + rest, SlotBytes(g, s) + rest, rest, st, seen);
    } else if s.List? {
      SkipItems(fields, g, s.items, rest, st, seen);
    } else {
      SkipOne(fields, g, s.v, rest, st, seen);
    }
  }

  // --------------------------------------------------------- older receivers

  /** `older` and `known` are the fields of `newer` at the rising places `at`, and their slots. */
  ghost predicate Selects(newer: seq<Field>, slots: seq<Slot>, at: seq<nat>, older: seq<Field>, known: seq<Slot>) {
    && |slots| == |newer| && |older| == |known| == |at|
    && (forall i, j :: 0 <= i < j < |at| ==> at[i] < at[j])
    && forall i :: 0 <= i < |at| ==> at[i] < |newer| && older[i] == newer[at[i]] && known[i] == slots[at[i]]
  }

  lemma SelectionOk(newer: seq<Field>, slots: seq<Slot>, at: seq<nat>, older: seq<Field>, known: seq<Slot>)
    requires Selects(newer, slots, at, older, known) && FieldsOk(newer)
    requires SlotsOk(newer, slots, Terminated)
    ensures FieldsOk(older) && SlotsOk(older, known, Terminated)
  {
    forall i, j | 0 <= i < j < |older|
      ensures older[i].tag != older[j].tag
      ensures SameGroup(older[i], older[j]) ==> !(IsChosen(known[i]) && IsChosen(known[j]))
    {
      assert at[i] < at[j];
    }
    forall i | 0 <= i < |older|
      ensures FieldOk(older[i]) && SlotOk(older[i], known[i], Terminated)
    {
      assert FieldOk(newer[at[i]]) && SlotOk(newer[at[i]], slots[at[i]], Terminated);
    }
  }

  /** The first `i` selected places are exactly those before `n`. */
  ghost predicate CutAt(at: seq<nat>, i: nat, n: nat) {
    i <= |at| && forall j :: 0 <= j < |at| ==> (j < i <==> at[j] < n)
  }

  lemma CutNext(newer: seq<Field>, slots: seq<Slot>, at: seq<nat>, older: seq<Field>, known: seq<Slot>, i: nat, n: nat)
    requires Selects(newer, slots, at, older, known) && CutAt(at, i, n) && n < |newer|
    ensures if i < |at| && at[i] == n then CutAt(at, i + 1, n + 1) && older[i] == newer[n] && known[i] == slots[n]
            else CutAt(at, i, n + 1) && forall j :: 0 <= j < |at| ==> at[j] != n
  {
  }

  lemma NotSelected(newer: seq<Field>, slots: seq<Slot>, at: seq<nat>, older: seq<Field>, known: seq<Slot>, n: nat)
    requires Selects(newer, slots, at, older, known) && FieldsOk(newer) && n < |newer|
             && forall j :: 0 <= j < |at| ==> at[j] != n
    ensures Unknown(older, newer[n])
  {
    assert FieldOk(newer[n]);
    forall j | 0 <= j < |older|
      ensures older[j].tag != newer[n].tag
    {
      assert at[j] < n || n < at[j];
    }
  }

  lemma CutLast(at: seq<nat>, i: nat, n: nat)
    requires CutAt(at, i, n) && forall j :: 0 <= j < |at| ==> at[j] < n
    ensures i == |at|
  {
    var last := |at| - 1;
    assert |at| > 0 ==> at[last] < n;
  }

  lemma NothingLeft(older: seq<Field>, known: seq<Slot>, st: seq<Slot>, seen: set<nat>)
    requires |known| == |older| && DoneUpTo(older, known, |older|, st) && SeenUpTo(older, |older|, seen)
    ensures var d := DecodeFields(older, [], st, seen); d.Done? && SameSlots(older, d.slots, known)
  {
  }

  lemma {:induction false} SelectedRoundTrip(newer: seq<Field>, slots: seq<Slot>, at: seq<nat>, older: seq<Field>,
                                             known: seq<Slot>,
                                             n: nat, i: nat, st: seq<Slot>, seen: set<nat>)
    requires Selects(newer, slots, at, older, known) && FieldsOk(newer) && FieldsOk(older)
    requires SlotsOk(newer, slots, Terminated) && SlotsOk(newer, slots, Shaped)
    requires SlotsOk(older, known, Terminated) && SlotsOk(older, known, Shaped)
    requires n <= |newer| && CutAt(at, i, n) && |FieldsBytes(newer, slots, n)| < TWO_32
    requires DoneUpTo(older, known, i, st) && SeenUpTo(older, i, seen)
    ensures var d := DecodeFields(older, FieldsBytes(newer, slots, n), st, seen);
            d.Done? && SameSlots(older, d.slots, known)
    decreases |newer| - n
  {
    hide FieldsOk, SlotBytes, CutAt, SeenUpTo, DecodeFields, Unknown, SameSlots;
    if n < |newer| {
      CutNext(newer, slots, at, older, known, i, n);
      var rest := FieldsBytes(newer, slots, n + 1);
      assert SlotOk(newer[n], slots[n], Terminated) && SlotOk(newer[n], slots[n], Shaped);
      if i < |at| && at[i] == n {
        var absent := SlotIsDefault(older[i], known[i]);
        if !absent {
          PresentAlone(older, known, i, st);
        }
        var out := FieldRoundTrip(older, i, known[i], st, rest, seen);
        DoneNext(older, known, i, st, out);
        SeenNext(older, i, known[i], seen);
        SelectedRoundTrip(newer, slots, at, older, known, n + 1, i + 1, st[i := out],
                          if absent then seen else Saw(older, i, seen));
      } else {
        NotSelected(newer, slots, at, older, known, n);
        SkipSlot(older, newer[n], slots[n], rest, st, seen);
        SelectedRoundTrip(newer, slots, at, older, known, n + 1, i, st, seen);
      }
    } else {
      CutLast(at, i, n);
      NothingLeft(older, known, st, seen);
    }
  }

  /**
   * Decoding with any selection of a message's fields gives exactly those fields back: bytes of
   * fields the receiver does not know, anywhere in the message, have no effect.
   */
  lemma UnknownFieldsIgnored(newer: seq<Field>, slots: seq<Slot>, at: seq<nat>, older: seq<Field>, known: seq<Slot>)
    requires FieldsOk(newer) && SlotsOk(newer, slots, Terminated) && Selects(newer, slots, at, older, known)
    ensures SlotsOk(newer, slots, Shaped)
    ensures |MessageBytes(newer, slots)| < TWO_32 ==>
              var d := Decode(older, MessageBytes(newer, slots)); d.Done? && SameSlots(older, d.slots, known)
  {
    SelectionOk(newer, slots, at, older, known);
    TerminatedSlots(newer, slots);
    TerminatedSlots(older, known);
    if |MessageBytes(newer, slots)| < TWO_32 {
      SelectedRoundTrip(newer, slots, at, older, known, 0, 0, InitialSlots(older), {});
    }
  }
}
