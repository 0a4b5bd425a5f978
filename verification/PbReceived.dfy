/**
 * Messages as a receiver may get them: with fields left out, in another order, a submessage in two
 * parts, an array unpacked. What is accepted, and what it decodes to.
 */
module PbReceived {
  import opened PbVarints
  import opened PbMessages
  import opened PbEncode
  import opened PbDecode
  import opened PbRoundTrip
  import opened PbUnknown

  // ---------------------------------------------------- counting required ones

  ghost function RequiredBefore(fields: seq<Field>, i: nat): set<nat>
    requires i <= |fields|
  {
    set j: nat | j < i && fields[j].rule.Required?
  }

  /** A required field among the first 64 of them. */
  ghost predicate Checked(fields: seq<Field>, n: nat) {
    n < |fields| && fields[n].rule.Required? && |RequiredBefore(fields, n)| < 64
  }

  lemma {:induction false} RequiredIndexCounts(fields: seq<Field>, i: nat)
    requires i <= |fields|
    ensures RequiredIndex(fields, i) == |RequiredBefore(fields, i)|
  {
    if i == 0 {
      assert RequiredBefore(fields, 0) == {};
    } else {
      RequiredIndexCounts(fields, i - 1);
      var more := if fields[i - 1].rule.Required? then {i - 1} else {};
      assert RequiredBefore(fields, i) == RequiredBefore(fields, i - 1) + more;
    }
  }

  lemma {:induction false} IndexRises(fields: seq<Field>, n: nat, m: nat)
    requires n < m <= |fields| && fields[n].rule.Required?
    ensures RequiredIndex(fields, n) < RequiredIndex(fields, m)
    decreases m
  {
    if n + 1 < m {
      IndexRises(fields, n, m - 1);
    }
  }

  /** Each number below the count is that of some required field. */
  lemma {:induction false} FieldWithIndex(fields: seq<Field>, k: nat, m: nat) returns (n: nat)
    requires m <= |fields| && k < RequiredIndex(fields, m)
    ensures n < m && fields[n].rule.Required? && RequiredIndex(fields, n) == k
    decreases m
  {
    if k < RequiredIndex(fields, m - 1) {
      n := FieldWithIndex(fields, k, m - 1);
    } else {
      n := m - 1;
    }
  }

  // --------------------------------------------------------- what was decoded

  /** `older` and `known` are fields of the message and their slots, each at most once, in any order. */
  ghost predicate Sends(fields: seq<Field>, slots: seq<Slot>, at: seq<nat>, older: seq<Field>, known: seq<Slot>) {
    && |slots| == |fields| && |older| == |known| == |at|
    && (forall i, j :: 0 <= i < j < |at| ==> at[i] != at[j])
    && forall i :: 0 <= i < |at| ==> at[i] < |fields| && older[i] == fields[at[i]] && known[i] == slots[at[i]]
  }

  /** Field `n` was sent between places `from` and `i`. */
  ghost predicate Sent(at: seq<nat>, from: nat, i: nat, n: nat)
    requires i <= |at|
  {
    exists j :: from <= j < i && at[j] == n
  }

  /** Of the fields checked for, exactly those sent from `from` on have been seen. */
  ghost predicate SeenSent(fields: seq<Field>, at: seq<nat>, from: nat, i: nat, seen: set<nat>)
    requires i <= |at|
  {
    forall n: nat :: Checked(fields, n) ==> (RequiredIndex(fields, n) in seen <==> Sent(at, from, i, n))
  }

  /** The fields sent are decoded, the rest are as initialised. */
  ghost predicate Holds(fields: seq<Field>, at: seq<nat>, known: seq<Slot>, i: nat, st: seq<Slot>)
    requires i <= |at| == |known|
  {
    && |st| == |fields|
    && (forall j :: 0 <= j < i ==> at[j] < |fields| && SameSlot(fields[at[j]], st[at[j]], known[j]))
    && forall n :: 0 <= n < |fields| && !Sent(at, 0, i, n) ==> st[n] == InitialSlot(fields[n])
  }

  lemma SendsOk(fields: seq<Field>, slots: seq<Slot>, at: seq<nat>, older: seq<Field>, known: seq<Slot>)
    requires Sends(fields, slots, at, older, known) && SlotsOk(fields, slots, Terminated)
    ensures SlotsOk(older, known, Terminated)
  {
    forall i, j | 0 <= i < j < |older| && SameGroup(older[i], older[j])
      ensures !(IsChosen(known[i]) && IsChosen(known[j]))
    {
      assert at[i] != at[j] && SameGroup(older[j], older[i]);
    }
    forall i | 0 <= i < |older|
      ensures SlotOk(older[i], known[i], Terminated)
    {
      assert SlotOk(fields[at[i]], slots[at[i]], Terminated);
    }
  }

  lemma SentNext(at: seq<nat>, from: nat, i: nat, n: nat)
    requires from <= i < |at|
    ensures Sent(at, from, i + 1, n) <==> Sent(at, from, i, n) || at[i] == n
  {
  }

  lemma SeenSentNext(fields: seq<Field>, at: seq<nat>, from: nat, i: nat, s: Slot, seen: set<nat>)
    requires from <= i < |at| && at[i] < |fields| && SlotOk(fields[at[i]], s, Shaped)
    requires SeenSent(fields, at, from, i, seen)
    ensures SeenSent(fields, at, from, i + 1,
                     if SlotIsDefault(fields[at[i]], s) then seen else Saw(fields, at[i], seen))
  {
    hide Sent;
    var a := at[i];
    assert fields[a].rule.Required? ==> !SlotIsDefault(fields[a], s);
    RequiredIndexCounts(fields, a);
    forall n: nat | Checked(fields, n)
      ensures Sent(at, from, i + 1, n) <==> Sent(at, from, i, n) || a == n
      ensures fields[a].rule.Required? && RequiredIndex(fields, n) == RequiredIndex(fields, a) ==> a == n
    {
      SentNext(at, from, i, n);
      if fields[a].rule.Required? {
        if n < a {
          IndexRises(fields, n, a);
        } else if a < n {
          IndexRises(fields, a, n);
        }
      }
    }
  }

  lemma HoldsNext(fields: seq<Field>, at: seq<nat>, known: seq<Slot>, i: nat, st: seq<Slot>, out: Slot)
    requires i < |at| == |known| && Holds(fields, at, known, i, st) && at[i] < |fields|
    requires (forall j :: 0 <= j < i ==> at[j] != at[i]) && SameSlot(fields[at[i]], out, known[i])
    ensures Holds(fields, at, known, i + 1, st[at[i] := out])
  {
    hide SameSlot, Sent;
    forall n | 0 <= n < |fields|
      ensures Sent(at, 0, i + 1, n) <==> Sent(at, 0, i, n) || at[i] == n
    {
      SentNext(at, 0, i, n);
    }
  }

  /** No other arm of its group has been chosen. */
  lemma SentAlone(fields: seq<Field>, slots: seq<Slot>, at: seq<nat>, older: seq<Field>, known: seq<Slot>, i: nat,
                  st: seq<Slot>)
    requires Sends(fields, slots, at, older, known) && SlotsOk(older, known, Shaped) && i < |at|
    requires Holds(fields, at, known, i, st) && !SlotIsDefault(older[i], known[i])
    ensures Alone(fields, st, at[i])
  {
    assert SlotOk(older[i], known[i], Shaped);
    forall m | 0 <= m < |fields| && m != at[i] && SameGroup(fields[at[i]], fields[m])
      ensures !IsChosen(st[m])
    {
      if Sent(at, 0, i, m) {
        var j :| 0 <= j < i && at[j] == m;
        assert SlotOk(older[j], known[j], Shaped) && SameGroup(older[j], older[i]);
      }
    }
  }

  lemma NotYetSent(at: seq<nat>, i: nat)
    requires i < |at| && forall j :: 0 <= j < i ==> at[j] != at[i]
    ensures !Sent(at, 0, i, at[i])
  {
  }

  // ------------------------------------------------------------- the decision

  /** All fields that are checked for were sent from `from` on. */
  ghost predicate AllSent(fields: seq<Field>, at: seq<nat>, from: nat) {
    forall n: nat :: Checked(fields, n) ==> Sent(at, from, |at|, n)
  }

  lemma AllSeenIffSent(fields: seq<Field>, at: seq<nat>, from: nat, seen: set<nat>)
    requires SeenSent(fields, at, from, |at|, seen)
    ensures AllSeen(fields, seen) <==> AllSent(fields, at, from)
  {
    if AllSeen(fields, seen) {
      forall n: nat | Checked(fields, n)
        ensures Sent(at, from, |at|, n)
      {
        RequiredIndexCounts(fields, n);
        IndexRises(fields, n, |fields|);
      }
    }
    if AllSent(fields, at, from) {
      forall k: nat | k < RequiredIndex(fields, |fields|) && k < MAX_REQUIRED_FIELDS
        ensures k in seen
      {
        var n := FieldWithIndex(fields, k, |fields|);
        RequiredIndexCounts(fields, n);
        assert Checked(fields, n);
      }
    }
  }

  lemma AllRead(fields: seq<Field>, at: seq<nat>, known: seq<Slot>, from: nat, st: seq<Slot>, seen: set<nat>)
    requires |known| == |at| && Holds(fields, at, known, |at|, st) && SeenSent(fields, at, from, |at|, seen)
    ensures DecodeFields(fields, [], st, seen) == if AllSent(fields, at, from) then Done(st) else Failed
  {
    AllSeenIffSent(fields, at, from, seen);
  }

  /** The fields sent from `i` on, decoded over a destination that holds those sent before; `tail` may follow. */
  lemma {:induction false} SentRoundTrip(fields: seq<Field>, slots: seq<Slot>, at: seq<nat>, older: seq<Field>,
                                         known: seq<Slot>, from: nat, i: nat, tail: seq<byte>, st: seq<Slot>,
                                         seen: set<nat>)
    returns (end: seq<Slot>, seen2: set<nat>)
    requires Sends(fields, slots, at, older, known) && FieldsOk(fields)
    requires SlotsOk(older, known, Terminated) && SlotsOk(older, known, Shaped)
    requires from <= i <= |at| && |FieldsBytes(older, known, i)| < TWO_32
    requires Holds(fields, at, known, i, st) && SeenSent(fields, at, from, i, seen)
    ensures |end| == |fields| && Holds(fields, at, known, |at|, end) && SeenSent(fields, at, from, |at|, seen2)
    ensures DecodeFields(fields, FieldsBytes(older, known, i) + tail, st, seen)
         == DecodeFields(fields, tail, end, seen2)
    decreases |at| - i
  {
    hide FieldsOk, SlotBytes, SeenSent, DecodeFields, Holds, Sent;
    HoldsLength(fields, at, known, i, st);
    if i < |at| {
      var more := FieldsBytes(older, known, i + 1);
      assert SlotOk(older[i], known[i], Terminated) && SlotOk(older[i], known[i], Shaped);
      var absent := SlotIsDefault(older[i], known[i]);
      NotYetSent(at, i);
      if !absent {
        SentAlone(fields, slots, at, older, known, i, st);
      }
      var out := FieldRoundTrip(fields, at[i], known[i], st, more + tail, seen);
      Regroup(SlotBytes(older[i], known[i]), more, tail);
      HoldsNext(fields, at, known, i, st, out);
      SeenSentNext(fields, at, from, i, known[i], seen);
      end, seen2 := SentRoundTrip(fields, slots, at, older, known, from, i + 1, tail, st[at[i] := out],
                                  if absent then seen else Saw(fields, at[i], seen));
    } else {
      end, seen2 := st, seen;
      assert [] + tail == tail;
    }
  }

  /** The same with nothing behind. */
  lemma SentAll(fields: seq<Field>, slots: seq<Slot>, at: seq<nat>, older: seq<Field>, known: seq<Slot>, from: nat,
                st: seq<Slot>) returns (end: seq<Slot>)
    requires Sends(fields, slots, at, older, known) && FieldsOk(fields)
    requires SlotsOk(older, known, Terminated) && SlotsOk(older, known, Shaped)
    requires from <= |at| && |FieldsBytes(older, known, from)| < TWO_32 && Holds(fields, at, known, from, st)
    ensures Holds(fields, at, known, |at|, end)
    ensures DecodeFields(fields, FieldsBytes(older, known, from), st, {})
         == if AllSent(fields, at, from) then Done(end) else Failed
  {
    hide FieldsOk, SlotBytes, SeenSent, DecodeFields, Holds, AllSent, Sent;
    HoldsLength(fields, at, known, from, st);
    NothingSeen(fields, at, from);
    var seen;
    end, seen := SentRoundTrip(fields, slots, at, older, known, from, from, [], st, {});
    assert FieldsBytes(older, known, from) + [] == FieldsBytes(older, known, from);
    AllRead(fields, at, known, from, end, seen);
  }

  lemma NothingSeen(fields: seq<Field>, at: seq<nat>, from: nat)
    requires from <= |at|
    ensures SeenSent(fields, at, from, from, {})
  {
  }

  lemma NothingHeld(fields: seq<Field>, at: seq<nat>, known: seq<Slot>)
    requires |at| == |known|
    ensures Holds(fields, at, known, 0, InitialSlots(fields))
  {
  }

  lemma HoldsLength(fields: seq<Field>, at: seq<nat>, known: seq<Slot>, i: nat, st: seq<Slot>)
    requires i <= |at| == |known| && Holds(fields, at, known, i, st)
    ensures |st| == |fields|
    ensures i < |at| && at[i] < |fields| && !Sent(at, 0, i, at[i]) ==> st[at[i]] == InitialSlot(fields[at[i]])
  {
  }

  /**
   * A message with some of its fields, in any order, is accepted exactly when none of the first 64
   * required fields is missing. The fields sent then have their values and the others their defaults.
   */
  lemma AcceptedIffRequiredSent(fields: seq<Field>, slots: seq<Slot>, at: seq<nat>, older: seq<Field>, known: seq<Slot>)
    requires FieldsOk(fields) && SlotsOk(fields, slots, Terminated) && Sends(fields, slots, at, older, known)
    ensures SlotsOk(older, known, Shaped)
    ensures |MessageBytes(older, known)| < TWO_32 ==>
              var d := Decode(fields, MessageBytes(older, known));
              && (d.Done? <==> AllSent(fields, at, 0))
              && (d.Done? ==> Holds(fields, at, known, |at|, d.slots))
  {
    SendsOk(fields, slots, at, older, known);
    TerminatedSlots(older, known);
    if |MessageBytes(older, known)| < TWO_32 {
      var end := SentAll(fields, slots, at, older, known, 0, InitialSlots(fields));
    }
  }

  lemma ZeroTag(fields: seq<Field>, rest: seq<byte>, st: seq<Slot>, seen: set<nat>)
    requires |st| == |fields|
    ensures DecodeFields(fields, [0] + rest, st, seen) == DecodeFields(fields, [], st, seen)
  {
    assert ([0] + rest)[0] == 0;
  }

  /** A zero byte where a tag is due ends the message: whatever follows is not looked at. */
  lemma ZeroTagEnds(fields: seq<Field>, slots: seq<Slot>, at: seq<nat>, older: seq<Field>, known: seq<Slot>,
                    rest: seq<byte>)
    requires FieldsOk(fields) && SlotsOk(fields, slots, Terminated) && Sends(fields, slots, at, older, known)
    ensures SlotsOk(older, known, Shaped)
    ensures |MessageBytes(older, known)| < TWO_32 ==>
              var d := Decode(fields, MessageBytes(older, known) + ([0] + rest));
              && (d.Done? <==> AllSent(fields, at, 0))
              && (d.Done? ==> Holds(fields, at, known, |at|, d.slots))
  {
    SendsOk(fields, slots, at, older, known);
    TerminatedSlots(older, known);
    if |MessageBytes(older, known)| < TWO_32 {
      hide SeenSent, Holds, FieldsOk, SlotsOk, FieldsBytes, DecodeFields, AllSent;
      NothingHeld(fields, at, known);
      NothingSeen(fields, at, 0);
      var end, seen := SentRoundTrip(fields, slots, at, older, known, 0, 0, [0] + rest, InitialSlots(fields), {});
      ZeroTag(fields, rest, end, seen);
      AllRead(fields, at, known, 0, end, seen);
    }
  }

  /** A selection of a message's fields, sent in their order, leaves out a required one: decoding it fails. */
  lemma MissingRequiredFails(fields: seq<Field>, slots: seq<Slot>, at: seq<nat>, older: seq<Field>, known: seq<Slot>,
                             n: nat)
    requires FieldsOk(fields) && SlotsOk(fields, slots, Terminated) && Selects(fields, slots, at, older, known)
    requires Checked(fields, n) && n !in at
    ensures SlotsOk(older, known, Shaped)
    ensures |MessageBytes(older, known)| < TWO_32 ==> Decode(fields, MessageBytes(older, known)).Failed?
  {
    AcceptedIffRequiredSent(fields, slots, at, older, known);
    assert !Sent(at, 0, |at|, n);
  }

  /** With a required field in the descriptor, an empty message fails. */
  lemma EmptyMessageFails(fields: seq<Field>, slots: seq<Slot>, n: nat)
    requires FieldsOk(fields) && SlotsOk(fields, slots, Terminated) && n < |fields| && fields[n].rule.Required?
    ensures Decode(fields, []).Failed?
  {
    var first := FirstRequired(fields, n);
    MissingRequiredFails(fields, slots, [], [], [], first);
  }

  /** Some required field comes first, and is checked for. */
  lemma FirstRequired(fields: seq<Field>, n: nat) returns (first: nat)
    requires n < |fields| && fields[n].rule.Required?
    ensures Checked(fields, first)
  {
    IndexRises(fields, n, n + 1);
    first := FieldWithIndex(fields, 0, n + 1);
    RequiredIndexCounts(fields, first);
  }

  // ------------------------------------------------ a submessage in two parts

  /** All fields of the message are sent. */
  ghost predicate SendsAll(fields: seq<Field>, slots: seq<Slot>, at: seq<nat>, older: seq<Field>, known: seq<Slot>) {
    Sends(fields, slots, at, older, known) && forall n :: 0 <= n < |fields| ==> Sent(at, 0, |at|, n)
  }

  ghost predicate NoneRequired(fields: seq<Field>) {
    forall n :: 0 <= n < |fields| ==> !fields[n].rule.Required?
  }

  lemma HoldsAll(fields: seq<Field>, slots: seq<Slot>, at: seq<nat>, older: seq<Field>, known: seq<Slot>, st: seq<Slot>)
    requires SendsAll(fields, slots, at, older, known) && Holds(fields, at, known, |at|, st)
    ensures SameSlots(fields, st, slots)
  {
    hide SameSlot;
    forall n | 0 <= n < |fields|
      ensures SameSlot(fields[n], st[n], slots[n])
    {
      assert Sent(at, 0, |at|, n);
    }
  }

  lemma SentOnce(fields: seq<Field>, slots: seq<Slot>, at: seq<nat>, older: seq<Field>, known: seq<Slot>, m: nat,
                 n: nat)
    requires Sends(fields, slots, at, older, known) && m <= |at|
    ensures !Sent(at[..m], 0, m, n) || !Sent(at, m, |at|, n)
  {
    if Sent(at[..m], 0, m, n) {
      var j :| 0 <= j < m && at[..m][j] == n;
      assert forall k :: m <= k < |at| ==> at[j] != at[k];
    }
  }

  /** No field is in both parts, so both have all that is checked for exactly if nothing is required. */
  lemma PartsComplete(fields: seq<Field>, slots: seq<Slot>, at: seq<nat>, older: seq<Field>, known: seq<Slot>, m: nat)
    requires Sends(fields, slots, at, older, known) && m <= |at|
    ensures AllSent(fields, at[..m], 0) && AllSent(fields, at, m) <==> NoneRequired(fields)
  {
    if AllSent(fields, at[..m], 0) && AllSent(fields, at, m) {
      forall n: nat | n < |fields| && fields[n].rule.Required?
        ensures false
      {
        var first := FirstRequired(fields, n);
        SentOnce(fields, slots, at, older, known, m, first);
      }
    }
  }

  /** The first `m` fields sent. */
  lemma FirstPart(fields: seq<Field>, slots: seq<Slot>, at: seq<nat>, older: seq<Field>, known: seq<Slot>, m: nat,
                  st: seq<Slot>)
    requires Sends(fields, slots, at, older, known) && m <= |at|
    ensures Sends(fields, slots, at[..m], older[..m], known[..m])
    ensures Holds(fields, at[..m], known[..m], m, st) ==> Holds(fields, at, known, m, st)
  {
    hide SameSlot;
    forall n: nat
      ensures Sent(at[..m], 0, m, n) <==> Sent(at, 0, m, n)
    {
      if Sent(at, 0, m, n) {
        var j :| 0 <= j < m && at[j] == n;
        assert at[..m][j] == n;
      }
    }
  }

  /** The bodies of the two parts, and the second decoded over what the first left. */
  lemma PartsDecode(fields: seq<Field>, slots: seq<Slot>, at: seq<nat>, older: seq<Field>, known: seq<Slot>, m: nat)
    requires FieldsOk(fields) && SlotsOk(fields, slots, Terminated) && SendsAll(fields, slots, at, older, known)
    requires m <= |at|
    ensures SlotsOk(older[..m], known[..m], Shaped) && SlotsOk(older, known, Shaped)
    ensures |MessageBytes(older[..m], known[..m])| < TWO_32 && |FieldsBytes(older, known, m)| < TWO_32 ==>
              var d := InTwo(fields, MessageBytes(older[..m], known[..m]), FieldsBytes(older, known, m));
              && (d.Done? <==> NoneRequired(fields))
              && (d.Done? ==> SameSlots(fields, d.slots, slots))
  {
    hide FieldsOk, DecodeFields, Holds, AllSent, NoneRequired, SlotsOk, FieldsBytes;
    SendsOk(fields, slots, at, older, known);
    TerminatedSlots(older, known);
    FirstPart(fields, slots, at, older, known, m, []);
    SendsOk(fields, slots, at[..m], older[..m], known[..m]);
    TerminatedSlots(older[..m], known[..m]);
    if |MessageBytes(older[..m], known[..m])| < TWO_32 && |FieldsBytes(older, known, m)| < TWO_32 {
      NothingHeld(fields, at[..m], known[..m]);
      var end1 := SentAll(fields, slots, at[..m], older[..m], known[..m], 0, InitialSlots(fields));
      FirstPart(fields, slots, at, older, known, m, end1);
      HoldsLength(fields, at, known, m, end1);
      var end2 := SentAll(fields, slots, at, older, known, m, end1);
      PartsComplete(fields, slots, at, older, known, m);
      HoldsAll(fields, slots, at, older, known, end2);
    }
  }

  /** The slot of a present field that holds one value. */
  function Present(f: Field, v: Value): Slot
    requires !f.rule.Repeated?
  {
    match f.rule
    case Optional => Flagged(true, v)
    case OneOf(_) => Arm(true, v)
    case _ => Single(v)
  }

  /** Decoding a submessage over what the slot holds. */
  lemma SubmessageSlot(f: Field, b: seq<byte>, rest: seq<byte>, slot: Slot, start: seq<Slot>)
    requires f.ty.Message? && !f.rule.Repeated? && |b| < TWO_32 && |start| == |f.ty.fields|
    requires slot == Present(f, Struct(start)) || (slot == InitialSlot(f) && start == InitialSlots(f.ty.fields))
    ensures DecodeSlot(f, WT_STRING, Prefixed(b) + rest, slot)
         == var d := DecodeFields(f.ty.fields, b, start, {});
            if d.Done? then Got(Present(f, Struct(d.slots)), rest) else Bad
  {
    PrefixedRoundTrip(b, rest);
  }

  /** One round of the loop, whatever the field's decoder makes of the bytes. */
  lemma LoopRound(fields: seq<Field>, i: nat, b: seq<byte>, rest: seq<byte>, slots: seq<Slot>, seen: set<nat>)
    requires FieldsOk(fields) && i < |fields| == |slots| && Alone(fields, slots, i)
    ensures DecodeFields(fields, TagBytes(fields[i], WT_STRING) + b + rest, slots, seen)
         == var d := DecodeSlot(fields[i], WT_STRING, b + rest, slots[i]);
            if d.Bad? then Failed else DecodeFields(fields, d.rest, slots[i := d.value], Saw(fields, i, seen))
  {
    var f := fields[i];
    assert FieldOk(f);
    Regroup(TagBytes(f, WT_STRING), b, rest);
    TagRoundTrip(f, WT_STRING, b + rest);
    FindIs(fields, i);
    var d := DecodeSlot(f, WT_STRING, b + rest, slots[i]);
    if d.Got? {
      SetAlone(fields, slots, i, d.value);
    }
  }

  /** A submessage's bytes behind the field's tag. */
  function PartBytes(f: Field, body: seq<byte>): seq<byte> {
    TagBytes(f, WT_STRING) + Prefixed(body)
  }

  /** The second part decoded over what the first leaves. */
  ghost function InTwo(sub: seq<Field>, b1: seq<byte>, b2: seq<byte>): (d: Decoded)
    ensures d.Done? ==> |d.slots| == |sub|
  {
    var d1 := DecodeFields(sub, b1, InitialSlots(sub), {});
    if d1.Failed? then Failed else DecodeFields(sub, b2, d1.slots, {})
  }

  lemma TwoRounds(fields: seq<Field>, i: nat, b1: seq<byte>, b2: seq<byte>, rest: seq<byte>, slots: seq<Slot>,
                  seen: set<nat>)
    requires FieldsOk(fields) && i < |fields| == |slots| && slots[i] == InitialSlot(fields[i])
    requires fields[i].ty.Message? && !fields[i].rule.Repeated? && Alone(fields, slots, i)
    requires |b1| < TWO_32 && |b2| < TWO_32
    ensures DecodeFields(fields, PartBytes(fields[i], b1) + (PartBytes(fields[i], b2) + rest), slots, seen)
         == var d := InTwo(fields[i].ty.fields, b1, b2);
            if d.Failed? then Failed
            else DecodeFields(fields, rest, slots[i := Present(fields[i], Struct(d.slots))], Saw(fields, i, seen))
  {
    hide FieldsOk, DecodeFields, DecodeSlot, InitialSlots, InitialSlot, TagBytes, Prefixed;
    var f := fields[i];
    LoopRound(fields, i, Prefixed(b1), PartBytes(f, b2) + rest, slots, seen);
    SubmessageSlot(f, b1, PartBytes(f, b2) + rest, slots[i], InitialSlots(f.ty.fields));
    var d1 := DecodeFields(f.ty.fields, b1, InitialSlots(f.ty.fields), {});
    if d1.Done? {
      var st := slots[i := Present(f, Struct(d1.slots))];
      LoopRound(fields, i, Prefixed(b2), rest, st, Saw(fields, i, seen));
      SubmessageSlot(f, b2, rest, st[i], d1.slots);
      var d := InTwo(f.ty.fields, b1, b2);
      if d.Done? {
        assert st[i := Present(f, Struct(d.slots))] == slots[i := Present(f, Struct(d.slots))];
      }
    }
  }

  /**
   * A submessage that comes in two parts, each with some of its fields, is put together if it has no
   * required fields; otherwise one of the parts lacks a required field and decoding fails.
   */
  lemma SplitSubmessage(fields: seq<Field>, i: nat, v: seq<Slot>, at: seq<nat>, older: seq<Field>, known: seq<Slot>,
                        m: nat, rest: seq<byte>, slots: seq<Slot>, seen: set<nat>) returns (out: seq<Slot>)
    requires FieldsOk(fields) && i < |fields| == |slots| && slots[i] == InitialSlot(fields[i])
    requires fields[i].ty.Message? && !fields[i].rule.Repeated? && Alone(fields, slots, i)
    requires SlotsOk(fields[i].ty.fields, v, Terminated) && SendsAll(fields[i].ty.fields, v, at, older, known)
    requires m <= |at|
    ensures SlotsOk(older[..m], known[..m], Shaped) && SlotsOk(older, known, Shaped)
    ensures var f := fields[i]; var b1, b2 := MessageBytes(older[..m], known[..m]), FieldsBytes(older, known, m);
            |b1| < TWO_32 && |b2| < TWO_32 ==>
              && (NoneRequired(f.ty.fields) ==> SameSlots(f.ty.fields, out, v))
              && DecodeFields(fields, PartBytes(f, b1) + (PartBytes(f, b2) + rest), slots, seen)
                 == if NoneRequired(f.ty.fields)
                    then DecodeFields(fields, rest, slots[i := Present(f, Struct(out))], Saw(fields, i, seen))
                    else Failed
  {
    hide DecodeFields, InitialSlots, InitialSlot, SlotsOk, SameSlots, Sent, NoneRequired, FieldsBytes, PartBytes, InTwo;
    assert FieldOk(fields[i]);
    PartsDecode(fields[i].ty.fields, v, at, older, known, m);
    out := v;
    var b1, b2 := MessageBytes(older[..m], known[..m]), FieldsBytes(older, known, m);
    if |b1| < TWO_32 && |b2| < TWO_32 {
      TwoRounds(fields, i, b1, b2, rest, slots, seen);
      var d := InTwo(fields[i].ty.fields, b1, b2);
      if d.Done? {
        out := d.slots;
      }
    }
  }

  // --------------------------------------------------------- unpacked arrays

  lemma SameScalars(ty: Type, a: seq<Value>, b: seq<Value>)
    requires Packable(ty) && |a| == |b| && forall k :: 0 <= k < |b| ==> SameValue(ty, a[k], b[k])
    ensures a == b
  {
  }

  /** An array that could be packed decodes to the same when every item comes behind a tag of its own. */
  lemma UnpackedArray(fields: seq<Field>, i: nat, items: seq<Value>, slots: seq<Slot>, rest: seq<byte>, seen: set<nat>)
    requires FieldsOk(fields) && i < |fields| == |slots| && slots[i] == List([]) && fields[i].rule.Repeated?
    requires Packable(fields[i].ty) && items != []
    requires SlotOk(fields[i], List(items), Terminated) && SlotOk(fields[i], List(items), Shaped)
    requires |TaggedItems(fields[i], items)| < TWO_32 && |SlotBytes(fields[i], List(items))| < TWO_32
    ensures DecodeFields(fields, TaggedItems(fields[i], items) + rest, slots, seen)
         == DecodeFields(fields, SlotBytes(fields[i], List(items)) + rest, slots, seen)
         == DecodeFields(fields, rest, slots[i := List(items)], seen)
  {
    hide DecodeFields, TaggedItems, SlotBytes;
    var out := TaggedRoundTrip(fields, i, items, [], slots, rest, seen);
    SameScalars(fields[i].ty, out, items);
    assert slots[i := List([])] == slots && [] + items == items;
    PackedField(fields, i, items, slots, rest, seen);
  }
}
