/** Version edits as bytes: decoding into a fresh edit undoes encoding. */
module EditCoding {
  import opened Wrappers
  import opened PbVarints
  import opened Coding
  import Lsm

  datatype FileMeta = FileMeta(number: nat, size: nat, smallest: seq<byte>, largest: seq<byte>)

  datatype VersionEdit = VersionEdit(
    comparator: Option<seq<byte>>, logNumber: Option<nat>, prevLogNumber: Option<nat>, nextFileNumber: Option<nat>,
    lastSequence: Option<nat>, compactPointers: seq<(nat, seq<byte>)>, deleted: set<(nat, nat)>,
    newFiles: seq<(nat, FileMeta)>)

  const FRESH: VersionEdit := VersionEdit(None, None, None, None, None, [], {}, [])

  /** One tagged piece of an edit. */
  datatype Field =
    | Comparator(name: seq<byte>)
    | LogNumber(n: nat)
    | NextFileNumber(n: nat)
    | LastSequence(n: nat)
    | CompactPointer(level: nat, key: seq<byte>)
    | DeletedFile(level: nat, n: nat)
    | NewFile(level: nat, file: FileMeta)
    | PrevLogNumber(n: nat)

  function Tag(f: Field): nat {
    match f
    case Comparator(_) => 1
    case LogNumber(_) => 2
    case NextFileNumber(_) => 3
    case LastSequence(_) => 4
    case CompactPointer(_, _) => 5
    case DeletedFile(_, _) => 6
    case NewFile(_, _) => 7
    case PrevLogNumber(_) => 9
  }

  function PutFile(f: FileMeta): seq<byte> {
    VarintBytes(f.number) + (VarintBytes(f.size) + (PutSlice(f.smallest) + PutSlice(f.largest)))
  }

  function Body(f: Field): seq<byte> {
    match f
    case Comparator(name) => PutSlice(name)
    case LogNumber(n) => VarintBytes(n)
    case NextFileNumber(n) => VarintBytes(n)
    case LastSequence(n) => VarintBytes(n)
    case CompactPointer(level, key) => VarintBytes(level) + PutSlice(key)
    case DeletedFile(level, n) => VarintBytes(level) + VarintBytes(n)
    case NewFile(level, file) => VarintBytes(level) + PutFile(file)
    case PrevLogNumber(n) => VarintBytes(n)
  }

  function Put(f: Field): seq<byte> {
    VarintBytes(Tag(f)) + Body(f)
  }

  predicate KeyOk(key: seq<byte>) {
    0 < |key| < TWO_32
  }

  /** Numbers fit their width, levels exist, and internal keys are not empty. */
  predicate FieldOk(f: Field) {
    match f
    case Comparator(name) => |name| < TWO_32
    case LogNumber(n) => n < TWO_64
    case NextFileNumber(n) => n < TWO_64
    case LastSequence(n) => n < TWO_64
    case CompactPointer(level, key) => level < Lsm.NUM_LEVELS && KeyOk(key)
    case DeletedFile(level, n) => level < Lsm.NUM_LEVELS && n < TWO_64
    case NewFile(level, file) =>
      level < Lsm.NUM_LEVELS && file.number < TWO_64 && file.size < TWO_64 && KeyOk(file.smallest)
          && KeyOk(file.largest)
    case PrevLogNumber(n) => n < TWO_64
  }

  // ------------------------------------------------------------------ parsing

  function GetKey(s: seq<byte>): (r: Read<seq<byte>>)
    ensures r.Got? ==> |r.rest| <= |s|
  {
    var key := GetSlice(s);
    if key.Bad? || key.value == [] then Bad else key
  }

  function GetLevel(s: seq<byte>): (r: Read<nat>)
    ensures r.Got? ==> |r.rest| <= |s|
  {
    var level := GetVarint32(s);
    if level.Bad? || level.value >= Lsm.NUM_LEVELS then Bad else level
  }

  function GetFile(s: seq<byte>): (r: Read<FileMeta>)
    ensures r.Got? ==> |r.rest| <= |s|
  {
    var number := ReadVarint64(s);
    if number.Bad? then Bad
    else
      var size := ReadVarint64(number.rest);
      if size.Bad? then Bad
      else
        var smallest := GetKey(size.rest);
        if smallest.Bad? then Bad
        else
          var largest := GetKey(smallest.rest);
          if largest.Bad? then Bad else Got(FileMeta(number.value, size.value, smallest.value, largest.value),
                                            largest.rest)
  }

  /** A number, as the field `make` makes of it. */
  function GetNumber(s: seq<byte>, make: nat -> Field): (r: Read<Field>)
    ensures r.Got? ==> |r.rest| <= |s|
  {
    var n := ReadVarint64(s);
    if n.Bad? then Bad else Got(make(n.value), n.rest)
  }

  function GetPointer(s: seq<byte>): (r: Read<Field>)
    ensures r.Got? ==> |r.rest| <= |s|
  {
    var level := GetLevel(s);
    if level.Bad? then Bad
    else
      var key := GetKey(level.rest);
      if key.Bad? then Bad else Got(CompactPointer(level.value, key.value), key.rest)
  }

  function GetDeletion(s: seq<byte>): (r: Read<Field>)
    ensures r.Got? ==> |r.rest| <= |s|
  {
    var level := GetLevel(s);
    if level.Bad? then Bad else GetNumber(level.rest, (n: nat) => DeletedFile(level.value, n))
  }

  function GetNewFile(s: seq<byte>): (r: Read<Field>)
    ensures r.Got? ==> |r.rest| <= |s|
  {
    var level := GetLevel(s);
    if level.Bad? then Bad
    else
      var file := GetFile(level.rest);
      if file.Bad? then Bad else Got(NewFile(level.value, file.value), file.rest)
  }

  function GetComparator(s: seq<byte>): (r: Read<Field>)
    ensures r.Got? ==> |r.rest| <= |s|
  {
    var name := GetSlice(s);
    if name.Bad? then Bad else Got(Comparator(name.value), name.rest)
  }

  /** The reader for a tag; an unknown tag is an error. */
  function Parser(tag: nat): seq<byte> -> Read<Field> {
    match tag
    case 1 => GetComparator
    case 2 => ((s: seq<byte>) => GetNumber(s, (n: nat) => LogNumber(n)))
    case 3 => ((s: seq<byte>) => GetNumber(s, (n: nat) => NextFileNumber(n)))
    case 4 => ((s: seq<byte>) => GetNumber(s, (n: nat) => LastSequence(n)))
    case 5 => GetPointer
    case 6 => GetDeletion
    case 7 => GetNewFile
    case 9 => ((s: seq<byte>) => GetNumber(s, (n: nat) => PrevLogNumber(n)))
    case _ => ((s: seq<byte>) => Bad)
  }

  /** What follows a tag. */
  function GetField(tag: nat, s: seq<byte>): (r: Read<Field>)
    ensures r.Got? ==> |r.rest| <= |s|
  {
    Parser(tag)(s)
  }

  function With(e: VersionEdit, f: Field): VersionEdit {
    match f
    case Comparator(name) => e.(comparator := Some(name))
    case LogNumber(n) => e.(logNumber := Some(n))
    case NextFileNumber(n) => e.(nextFileNumber := Some(n))
    case LastSequence(n) => e.(lastSequence := Some(n))
    case CompactPointer(level, key) => e.(compactPointers := e.compactPointers + [(level, key)])
    case DeletedFile(level, n) => e.(deleted := e.deleted + {(level, n)})
    case NewFile(level, file) => e.(newFiles := e.newFiles + [(level, file)])
    case PrevLogNumber(n) => e.(prevLogNumber := Some(n))
  }

  lemma WholeLevel(level: nat, rest: seq<byte>)
    requires level < Lsm.NUM_LEVELS
    ensures GetLevel(VarintBytes(level) + rest) == Got(level, rest)
  {
    GetPutVarint32(level, rest);
  }

  lemma WholeFile(f: FileMeta, rest: seq<byte>)
    requires f.number < TWO_64 && f.size < TWO_64 && KeyOk(f.smallest) && KeyOk(f.largest)
    ensures GetFile(PutFile(f) + rest) == Got(f, rest)
  {
    var s4 := PutSlice(f.largest) + rest;
    var s3 := PutSlice(f.smallest) + s4;
    var s2 := VarintBytes(f.size) + s3;
    assert PutFile(f) + rest == VarintBytes(f.number) + s2;
    Varint64RoundTrip(f.number, s2);
    Varint64RoundTrip(f.size, s3);
    WholeSlice(f.smallest, s4);
    WholeSlice(f.largest, rest);
  }

  lemma WholePointer(f: Field, rest: seq<byte>)
    requires FieldOk(f) && f.CompactPointer?
    ensures GetField(Tag(f), Body(f) + rest) == Got(f, rest)
  {
    assert Body(f) + rest == VarintBytes(f.level) + (PutSlice(f.key) + rest);
    WholeLevel(f.level, PutSlice(f.key) + rest);
    WholeSlice(f.key, rest);
  }

  lemma WholeDeletion(f: Field, rest: seq<byte>)
    requires FieldOk(f) && f.DeletedFile?
    ensures GetField(Tag(f), Body(f) + rest) == Got(f, rest)
  {
    assert Body(f) + rest == VarintBytes(f.level) + (VarintBytes(f.n) + rest);
    WholeLevel(f.level, VarintBytes(f.n) + rest);
    Varint64RoundTrip(f.n, rest);
  }

  lemma WholeNewFile(f: Field, rest: seq<byte>)
    requires FieldOk(f) && f.NewFile?
    ensures GetField(Tag(f), Body(f) + rest) == Got(f, rest)
  {
    LevelThenFile(f.level, f.file, rest);
    ParsesNewFile(Body(f) + rest);
  }

  lemma ParsesNewFile(s: seq<byte>)
    ensures GetField(7, s) == GetNewFile(s)
  {
  }

  lemma LevelThenFile(level: nat, file: FileMeta, rest: seq<byte>)
    requires level < Lsm.NUM_LEVELS
    requires file.number < TWO_64 && file.size < TWO_64 && KeyOk(file.smallest) && KeyOk(file.largest)
    ensures GetNewFile(VarintBytes(level) + PutFile(file) + rest) == Got(NewFile(level, file), rest)
  {
    hide VarintBytes, PutFile;
    assert VarintBytes(level) + PutFile(file) + rest == VarintBytes(level) + (PutFile(file) + rest);
    WholeLevel(level, PutFile(file) + rest);
    WholeFile(file, rest);
  }

  lemma WholeNumber(f: Field, rest: seq<byte>)
    requires FieldOk(f) && (f.LogNumber? || f.NextFileNumber? || f.LastSequence? || f.PrevLogNumber?)
    ensures GetField(Tag(f), Body(f) + rest) == Got(f, rest)
  {
    Varint64RoundTrip(f.n, rest);
  }

  lemma WholeName(f: Field, rest: seq<byte>)
    requires FieldOk(f) && f.Comparator?
    ensures GetField(Tag(f), Body(f) + rest) == Got(f, rest)
  {
    WholeSlice(f.name, rest);
  }

  /** A field reads back as written. */
  lemma WholeField(f: Field, rest: seq<byte>)
    requires FieldOk(f)
    ensures GetField(Tag(f), Body(f) + rest) == Got(f, rest)
  {
    match f
    case Comparator(_) => WholeName(f, rest);
    case CompactPointer(_, _) => WholePointer(f, rest);
    case DeletedFile(_, _) => WholeDeletion(f, rest);
    case NewFile(_, _) => WholeNewFile(f, rest);
    case _ => WholeNumber(f, rest);
  }

  // -------------------------------------------------------------- whole edits

  /** The fields in `fs` one after the other. */
  function PutAll(fs: seq<Field>): seq<byte> {
    if fs == [] then [] else Put(fs[0]) + PutAll(fs[1..])
  }

  function WithAll(e: VersionEdit, fs: seq<Field>): VersionEdit
    decreases |fs|
  {
    if fs == [] then e else WithAll(With(e, fs[0]), fs[1..])
  }

  /** Reads tagged fields into `e` until the input ends; leftovers without a tag are an error. */
  function Decode(s: seq<byte>, e: VersionEdit): Option<VersionEdit>
    decreases |s|
  {
    var tag := GetVarint32(s);
    if tag.Bad? then
      if s == [] then Some(e) else None
    else
      var f := GetField(tag.value, tag.rest);
      if f.Bad? then None
      else Decode(f.rest, With(e, f.value))
  }

  lemma {:induction false} DecodesAll(fs: seq<Field>, e: VersionEdit)
    requires forall f :: f in fs ==> FieldOk(f)
    ensures Decode(PutAll(fs), e) == Some(WithAll(e, fs))
  {
    if fs != [] {
      var rest := PutAll(fs[1..]);
      assert PutAll(fs) == VarintBytes(Tag(fs[0])) + (Body(fs[0]) + rest);
      GetPutVarint32(Tag(fs[0]), Body(fs[0]) + rest);
      WholeField(fs[0], rest);
      DecodesAll(fs[1..], With(e, fs[0]));
    }
  }

  lemma {:induction false} WithAllConcat(e: VersionEdit, a: seq<Field>, b: seq<Field>)
    ensures WithAll(e, a + b) == WithAll(WithAll(e, a), b)
    decreases |a|
  {
    if a == [] {
      assert a + b == b;
    } else {
      assert (a + b)[1..] == a[1..] + b;
      WithAllConcat(With(e, a[0]), a[1..], b);
    }
  }

  function Pointers(ps: seq<(nat, seq<byte>)>): (r: seq<Field>)
    ensures |r| == |ps| && forall i :: 0 <= i < |ps| ==> r[i] == CompactPointer(ps[i].0, ps[i].1)
  {
    seq(|ps|, i requires 0 <= i < |ps| => CompactPointer(ps[i].0, ps[i].1))
  }

  function Deletions(ds: seq<(nat, nat)>): (r: seq<Field>)
    ensures |r| == |ds| && forall i :: 0 <= i < |ds| ==> r[i] == DeletedFile(ds[i].0, ds[i].1)
  {
    seq(|ds|, i requires 0 <= i < |ds| => DeletedFile(ds[i].0, ds[i].1))
  }

  function Additions(fs: seq<(nat, FileMeta)>): (r: seq<Field>)
    ensures |r| == |fs| && forall i :: 0 <= i < |fs| ==> r[i] == NewFile(fs[i].0, fs[i].1)
  {
    seq(|fs|, i requires 0 <= i < |fs| => NewFile(fs[i].0, fs[i].1))
  }

  function Scalars(e: VersionEdit): seq<Field> {
    (if e.comparator.Some? then [Comparator(e.comparator.value)] else [])
    + (if e.logNumber.Some? then [LogNumber(e.logNumber.value)] else [])
    + (if e.prevLogNumber.Some? then [PrevLogNumber(e.prevLogNumber.value)] else [])
    + (if e.nextFileNumber.Some? then [NextFileNumber(e.nextFileNumber.value)] else [])
    + (if e.lastSequence.Some? then [LastSequence(e.lastSequence.value)] else [])
  }

  /** The fields of an edit as they are written; `ds` lists the deleted files in the set's order. */
  function FieldsOf(e: VersionEdit, ds: seq<(nat, nat)>): seq<Field> {
    Scalars(e) + (Pointers(e.compactPointers) + (Deletions(ds) + Additions(e.newFiles)))
  }

  ghost predicate EditOk(e: VersionEdit, ds: seq<(nat, nat)>) {
    (forall f :: f in FieldsOf(e, ds) ==> FieldOk(f)) && e.deleted == set d | d in ds
  }

  /** Levels, numbers and keys fit what the fields can hold. */
  ghost predicate Encodable(e: VersionEdit) {
    && (forall f :: f in Scalars(e) || f in Pointers(e.compactPointers) || f in Additions(e.newFiles) ==> FieldOk(f))
    && forall d :: d in e.deleted ==> FieldOk(DeletedFile(d.0, d.1))
  }

  lemma AnyOrderOk(e: VersionEdit, ds: seq<(nat, nat)>)
    requires Encodable(e) && e.deleted == set d | d in ds
    ensures EditOk(e, ds)
  {
    forall f | f in Deletions(ds)
      ensures FieldOk(f)
    {
      var i :| 0 <= i < |ds| && Deletions(ds)[i] == f;
      assert ds[i] in e.deleted;
    }
  }

  lemma {:induction false} WithPointers(e: VersionEdit, ps: seq<(nat, seq<byte>)>)
    ensures WithAll(e, Pointers(ps)) == e.(compactPointers := e.compactPointers + ps)
    decreases |ps|
  {
    if ps == [] {
      assert e.compactPointers + ps == e.compactPointers;
    } else {
      assert Pointers(ps)[1..] == Pointers(ps[1..]);
      WithPointers(With(e, Pointers(ps)[0]), ps[1..]);
      assert e.compactPointers + [ps[0]] + ps[1..] == e.compactPointers + ps;
    }
  }

  lemma {:induction false} WithDeletions(e: VersionEdit, ds: seq<(nat, nat)>)
    ensures WithAll(e, Deletions(ds)) == e.(deleted := e.deleted + set d | d in ds)
    decreases |ds|
  {
    if ds == [] {
      assert e.deleted + (set d | d in ds) == e.deleted;
    } else {
      assert Deletions(ds)[1..] == Deletions(ds[1..]);
      WithDeletions(With(e, Deletions(ds)[0]), ds[1..]);
      assert e.deleted + {ds[0]} + (set d | d in ds[1..]) == e.deleted + set d | d in ds;
    }
  }

  lemma {:induction false} WithAdditions(e: VersionEdit, fs: seq<(nat, FileMeta)>)
    ensures WithAll(e, Additions(fs)) == e.(newFiles := e.newFiles + fs)
    decreases |fs|
  {
    if fs == [] {
      assert e.newFiles + fs == e.newFiles;
    } else {
      assert Additions(fs)[1..] == Additions(fs[1..]);
      WithAdditions(With(e, Additions(fs)[0]), fs[1..]);
      assert e.newFiles + [fs[0]] + fs[1..] == e.newFiles + fs;
    }
  }

  lemma WithOne(e: VersionEdit, a: seq<Field>, f: Field, present: bool)
    ensures WithAll(e, a + if present then [f] else []) == if present then With(WithAll(e, a), f) else WithAll(e, a)
  {
    if present {
      WithAllConcat(e, a, [f]);
      assert WithAll(With(WithAll(e, a), f), []) == With(WithAll(e, a), f);
    } else {
      assert a + [] == a;
    }
  }

  lemma WithScalars(e: VersionEdit)
    ensures WithAll(FRESH, Scalars(e)) == e.(compactPointers := [], deleted := {}, newFiles := [])
  {
    var a1 := if e.comparator.Some? then [Comparator(e.comparator.value)] else [];
    var a2 := a1 + if e.logNumber.Some? then [LogNumber(e.logNumber.value)] else [];
    var a3 := a2 + if e.prevLogNumber.Some? then [PrevLogNumber(e.prevLogNumber.value)] else [];
    var a4 := a3 + if e.nextFileNumber.Some? then [NextFileNumber(e.nextFileNumber.value)] else [];
    assert WithAll(FRESH, a1) == FRESH.(comparator := e.comparator) by {
      WithOne(FRESH, [], Comparator(if e.comparator.Some? then e.comparator.value else []), e.comparator.Some?);
      assert [] + a1 == a1;
    }
    WithOne(FRESH, a1, LogNumber(Or(e.logNumber)), e.logNumber.Some?);
    WithOne(FRESH, a2, PrevLogNumber(Or(e.prevLogNumber)), e.prevLogNumber.Some?);
    WithOne(FRESH, a3, NextFileNumber(Or(e.nextFileNumber)), e.nextFileNumber.Some?);
    WithOne(FRESH, a4, LastSequence(Or(e.lastSequence)), e.lastSequence.Some?);
  }

  function Or(n: Option<nat>): nat {
    if n.Some? then n.value else 0
  }

  /** Decoding into a fresh edit gives back the edit encoded, whatever it holds. */
  lemma DecodeUndoesEncode(e: VersionEdit, ds: seq<(nat, nat)>)
    requires EditOk(e, ds)
    ensures Decode(PutAll(FieldsOf(e, ds)), FRESH) == Some(e)
  {
    DecodesAll(FieldsOf(e, ds), FRESH);
    var e1 := e.(compactPointers := [], deleted := {}, newFiles := []);
    var e2 := e1.(compactPointers := e.compactPointers);
    var e3 := e2.(deleted := e.deleted);
    WithScalars(e);
    WithAllConcat(FRESH, Scalars(e), Pointers(e.compactPointers) + (Deletions(ds) + Additions(e.newFiles)));
    WithAllConcat(e1, Pointers(e.compactPointers), Deletions(ds) + Additions(e.newFiles));
    WithPointers(e1, e.compactPointers);
    assert [] + e.compactPointers == e.compactPointers;
    WithAllConcat(e2, Deletions(ds), Additions(e.newFiles));
    WithDeletions(e2, ds);
    assert {} + e.deleted == e.deleted;
    WithAdditions(e3, e.newFiles);
    assert [] + e.newFiles == e.newFiles;
  }

  lemma {:induction false} PutAllSnoc(fs: seq<Field>, f: Field)
    ensures PutAll(fs + [f]) == PutAll(fs) + Put(f)
  {
    if fs == [] {
      assert fs + [f] == [f] && PutAll([f]) == Put(f) + PutAll([]);
    } else {
      assert (fs + [f])[1..] == fs[1..] + [f];
      PutAllSnoc(fs[1..], f);
    }
  }

  /** Writes the name and numbers that are set, then the lists. */
  method EncodeTo(e: VersionEdit, ds: seq<(nat, nat)>) returns (dst: seq<byte>)
    ensures dst == PutAll(FieldsOf(e, ds))
  {
    var s1, s2, s3 := Scalars(e), Pointers(e.compactPointers), Deletions(ds);
    dst := EncodeScalars(e);
    dst := PutEach(dst, s1, s2);
    dst := PutEach(dst, s1 + s2, s3);
    dst := PutEach(dst, s1 + s2 + s3, Additions(e.newFiles));
    Regroup(s1, s2, s3, Additions(e.newFiles));
  }

  lemma Regroup(a: seq<Field>, b: seq<Field>, c: seq<Field>, d: seq<Field>)
    ensures a + b + c + d == a + (b + (c + d))
  {
  }

  method Append(dst: seq<byte>, ghost written: seq<Field>, f: Field) returns (r: seq<byte>)
    requires dst == PutAll(written)
    ensures r == PutAll(written + [f])
  {
    PutAllSnoc(written, f);
    r := dst + Put(f);
  }

  lemma TakeNext<T>(a: seq<T>, s: seq<T>, i: nat)
    requires i < |s|
    ensures a + s[..i] + [s[i]] == a + s[..i + 1]
  {
  }

  /** Writes one field after another behind those already written. */
  method PutEach(start: seq<byte>, ghost before: seq<Field>, fs: seq<Field>) returns (dst: seq<byte>)
    requires start == PutAll(before)
    ensures dst == PutAll(before + fs)
  {
    dst := start;
    ghost var written := before;
    for i := 0 to |fs|
      invariant written == before + fs[..i] && dst == PutAll(written)
    {
      dst := Append(dst, written, fs[i]);
      written := written + [fs[i]];
      TakeNext(before, fs, i);
    }
    assert fs[..|fs|] == fs;
  }

  method EncodeScalars(e: VersionEdit) returns (dst: seq<byte>)
    ensures dst == PutAll(Scalars(e))
  {
    dst := [];
    ghost var fs: seq<Field> := [];
    if e.comparator.Some? {
      dst := PutEach(dst, [], [Comparator(e.comparator.value)]);
      assert [] + [Comparator(e.comparator.value)] == [Comparator(e.comparator.value)];
      fs := [Comparator(e.comparator.value)];
    }
    dst, fs := PutNumber(dst, fs, e.logNumber, (n: nat) => LogNumber(n));
    dst, fs := PutNumber(dst, fs, e.prevLogNumber, (n: nat) => PrevLogNumber(n));
    dst, fs := PutNumber(dst, fs, e.nextFileNumber, (n: nat) => NextFileNumber(n));
    dst, fs := PutNumber(dst, fs, e.lastSequence, (n: nat) => LastSequence(n));
  }

  /** Writes a number if it is set. */
  method PutNumber(start: seq<byte>, ghost before: seq<Field>, n: Option<nat>, make: nat -> Field)
      returns (dst: seq<byte>, ghost fs: seq<Field>)
    requires start == PutAll(before)
    ensures fs == before + (if n.Some? then [make(n.value)] else []) && dst == PutAll(fs)
  {
    dst, fs := start, before;
    if n.Some? {
      dst := PutEach(dst, fs, [make(n.value)]);
      fs := fs + [make(n.value)];
    }
  }

  /** The parse loop, started from a cleared edit. */
  method DecodeFrom(src: seq<byte>) returns (r: Option<VersionEdit>)
    ensures r == Decode(src, FRESH)
  {
    var input, e := src, FRESH;
    while true
      invariant Decode(src, FRESH) == Decode(input, e)
      decreases |input|
    {
      var tag := GetVarint32(input);
      if tag.Bad? {
        return if input == [] then Some(e) else None;
      }
      var f := GetField(tag.value, tag.rest);
      if f.Bad? {
        return None;
      }
      input, e := f.rest, With(e, f.value);
    }
  }

  /** An edit written to a manifest reads back whole. */
  method EncodeThenDecode(e: VersionEdit, ds: seq<(nat, nat)>) returns (r: Option<VersionEdit>)
    requires EditOk(e, ds)
    ensures r == Some(e)
  {
    var dst := EncodeTo(e, ds);
    r := DecodeFrom(dst);
    DecodeUndoesEncode(e, ds);
  }
}
