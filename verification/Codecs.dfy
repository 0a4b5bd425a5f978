/** Codings of user keys and values as bytes: one for all integers, and one for the keys of any store. */
module Codecs {
  import opened Keys
  import opened Db
  import opened PbVarints
  import opened DiskBytes
  import opened TornLog
  import B = BatchCoding
  import E = EditCoding
  import M = Manifest

  // ----------------------------------------------------------------- integers

  /** The base-256 digits of a number, low digit first. */
  function Digits(n: nat): (r: seq<byte>)
    ensures |r| <= n
  {
    if n == 0 then [] else [n % 256] + Digits(n / 256)
  }

  lemma {:induction false} DigitsRead(n: nat)
    ensures FromLittleEndian(Digits(n)) == n
  {
    if n > 0 {
      DigitsRead(n / 256);
      assert Digits(n)[1..] == Digits(n / 256);
    }
  }

  function Magnitude(k: int): nat {
    if k < 0 then -k else k
  }

  /** A sign, then the digits. */
  function IntBytes(k: int): seq<byte> {
    [if k < 0 then 1 else 0] + Digits(Magnitude(k))
  }

  function IntOf(s: seq<byte>): int {
    if s == [] then 0 else if s[0] == 1 then -(FromLittleEndian(s[1..]) as int) else FromLittleEndian(s[1..])
  }

  lemma IntReads(k: int)
    ensures IntOf(IntBytes(k)) == k
  {
    DigitsRead(Magnitude(k));
    assert IntBytes(k)[1..] == Digits(Magnitude(k));
  }

  // --------------------------------------------------------------------- text

  function CharOf(n: nat): char {
    if n < 0xD800 || 0xE000 <= n < 0x11_0000 then n as char else '?'
  }

  /** Four bytes a character. */
  function TextBytes(v: string): (r: seq<byte>)
    ensures |r| == 4 * |v|
  {
    if v == [] then [] else LittleEndian(v[0] as int, 4) + TextBytes(v[1..])
  }

  function TextOf(s: seq<byte>): string {
    if |s| < 4 then [] else [CharOf(FromLittleEndian(s[..4]))] + TextOf(s[4..])
  }

  lemma {:induction false} TextReads(v: string)
    ensures TextOf(TextBytes(v)) == v
  {
    if v != [] {
      var s := TextBytes(v);
      assert Pow256(4) == 0x1_0000_0000;
      LittleEndianRoundTrip(v[0] as int, 4);
      TextReads(v[1..]);
      assert s[..4] == LittleEndian(v[0] as int, 4) && s[4..] == TextBytes(v[1..]);
      assert v == [v[0]] + v[1..];
    }
  }

  // ------------------------------------------------------------------ codecs

  /** Keys that are integers, and all values. */
  function IntegerCodec(): Codec {
    Codec((k: UserKey) => IntBytes(k.Floor), (s: seq<byte>) => IntOf(s) as real, TextBytes, TextOf)
  }

  lemma IntegerCoded(k: int)
    ensures KeyCoded(IntegerCodec(), k as real)
  {
    IntReads(k);
  }

  lemma TextCoded(v: string)
    ensures ValueCoded(IntegerCodec(), v)
  {
    TextReads(v);
  }

  function IndexOf(keys: seq<UserKey>, k: UserKey): (i: nat)
    ensures i <= |keys| && (k in keys ==> i < |keys| && keys[i] == k)
  {
    if keys == [] || keys[0] == k then 0 else 1 + IndexOf(keys[1..], k)
  }

  /** Any listed keys, by their place in the list. */
  function ListCodec(keys: seq<UserKey>): Codec {
    Codec((k: UserKey) => Digits(IndexOf(keys, k)),
          (s: seq<byte>) => if FromLittleEndian(s) < |keys| then keys[FromLittleEndian(s)] else 0.0, TextBytes, TextOf)
  }

  lemma ListCoded(keys: seq<UserKey>, k: UserKey)
    requires k in keys
    ensures KeyCoded(ListCodec(keys), k)
  {
    DigitsRead(IndexOf(keys, k));
  }

  lemma {:induction false} Listed(keys: set<UserKey>) returns (list: seq<UserKey>)
    ensures forall k :: k in keys <==> k in list
  {
    list := [];
    if k :| k in keys {
      var rest := Listed(keys - {k});
      list := [k] + rest;
    }
  }

  // -------------------------------------------------------- any store's keys

  /** The user keys of an edit's compaction pointers and file bounds. */
  ghost function EditKeys(e: M.Edit): set<UserKey> {
    (set u | u in e.pointers :: u.1.user) + (set p | p in e.added :: p.1.smallest.user)
        + (set p | p in e.added :: p.1.largest.user)
  }

  /** All user keys on the disk. */
  ghost function DiskKeys(s: State): set<UserKey> {
    (set n, b, op | n in s.logs && b in s.logs[n] && op in b.ops :: op.user)
        + (set e, k | e in s.manifest && k in EditKeys(e) :: k)
  }

  /** Everything on the disk is small enough for its fields in this coding, and the table files are there. */
  ghost predicate SizesFit(c: Codec, name: seq<byte>, tables: nat -> seq<Entry>, s: State) {
    && (forall n, b :: n in s.logs && b in s.logs[n] ==> b.sn < TWO_64 && B.RecordsOk(RecordsOf(c, b.ops)))
    && forall i :: 0 <= i < |s.manifest| ==> EditSmall(c, name, tables, s.manifest[i])
  }

  ghost predicate EditSmall(c: Codec, name: seq<byte>, tables: nat -> seq<Entry>, e: M.Edit) {
    && E.Encodable(Coded(c, name, e)) && (forall u :: u in e.pointers ==> u.1.sn <= MAX_SEQUENCE)
    && forall p :: p in e.added ==>
         p.1.smallest.sn <= MAX_SEQUENCE && p.1.largest.sn <= MAX_SEQUENCE && tables(p.1.number) == p.1.entries
  }

  ghost predicate AllCoded(c: Codec, s: State) {
    (forall k :: k in DiskKeys(s) ==> KeyCoded(c, k)) && forall v :: ValueCoded(c, v)
  }

  lemma EditCoded(c: Codec, name: seq<byte>, tables: nat -> seq<Entry>, e: M.Edit)
    requires EditSmall(c, name, tables, e) && forall k :: k in EditKeys(e) ==> KeyCoded(c, k)
    ensures EditStored(c, tables, e)
  {
    hide KeyCoded, Coded, E.Encodable;
    forall u | u in e.pointers
      ensures u.1.user in EditKeys(e)
    {
    }
    forall p | p in e.added
      ensures p.1.smallest.user in EditKeys(e) && p.1.largest.user in EditKeys(e)
    {
    }
  }

  /** The disk then fits; the coding of the keys asks nothing more of the state. */
  lemma CodedFits(c: Codec, name: seq<byte>, tables: nat -> seq<Entry>, s: State)
    requires AllCoded(c, s) && SizesFit(c, name, tables, s)
    ensures DiskFits(c, name, tables, s)
  {
    hide KeyCoded, ValueCoded, Coded, E.Encodable, EditSmall, EditStored, EditKeys;
    forall n, b | n in s.logs && b in s.logs[n]
      ensures BatchFits(c, b)
    {
      forall i | 0 <= i < |b.ops|
        ensures OpCoded(c, b.ops[i])
      {
        assert b.ops[i] in b.ops && b.ops[i].user in DiskKeys(s);
      }
    }
    forall i | 0 <= i < |s.manifest|
      ensures EditStored(c, tables, s.manifest[i]) && E.Encodable(Coded(c, name, s.manifest[i]))
    {
      EditIsCoded(c, name, tables, s, i);
    }
  }

  lemma EditIsCoded(c: Codec, name: seq<byte>, tables: nat -> seq<Entry>, s: State, i: nat)
    requires AllCoded(c, s) && i < |s.manifest| && EditSmall(c, name, tables, s.manifest[i])
    ensures EditStored(c, tables, s.manifest[i]) && E.Encodable(Coded(c, name, s.manifest[i]))
  {
    hide KeyCoded, ValueCoded, Coded, EditStored, E.Encodable, EditKeys;
    forall k | k in EditKeys(s.manifest[i])
      ensures KeyCoded(c, k)
    {
      assert s.manifest[i] in s.manifest && k in DiskKeys(s);
    }
    EditCoded(c, name, tables, s.manifest[i]);
  }

  /** Whatever keys and values a store holds, there is a coding for all of them. */
  lemma EveryStoreCoded(s: State) returns (c: Codec)
    ensures AllCoded(c, s)
  {
    var list := Listed(DiskKeys(s));
    c := ListCodec(list);
    forall k | k in DiskKeys(s)
      ensures KeyCoded(c, k)
    {
      ListCoded(list, k);
    }
    forall v
      ensures ValueCoded(c, v)
    {
      TextReads(v);
    }
  }
}
