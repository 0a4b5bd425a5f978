/** Shortened keys for index entries: at or after one block's last key and before the next block's first. */
module Separators {
  import opened PbVarints

  /** Bytewise order: the first byte that differs decides, and a prefix comes first. */
  predicate Less(a: seq<byte>, b: seq<byte>) {
    if b == [] then false
    else if a == [] then true
    else if a[0] != b[0] then a[0] < b[0]
    else Less(a[1..], b[1..])
  }

  lemma {:induction false} LessSelf(a: seq<byte>)
    ensures !Less(a, a)
  {
    if a != [] {
      LessSelf(a[1..]);
    }
  }

  lemma {:induction false} LessTotal(a: seq<byte>, b: seq<byte>)
    ensures a == b || Less(a, b) || Less(b, a)
    ensures !(Less(a, b) && Less(b, a))
  {
    if a != [] && b != [] && a[0] == b[0] {
      LessTotal(a[1..], b[1..]);
      assert a == [a[0]] + a[1..] && b == [b[0]] + b[1..];
    }
  }

  lemma {:induction false} LessTransitive(a: seq<byte>, b: seq<byte>, c: seq<byte>)
    requires Less(a, b) && Less(b, c)
    ensures Less(a, c)
  {
    if a != [] && a[0] == b[0] && b[0] == c[0] {
      LessTransitive(a[1..], b[1..], c[1..]);
    }
  }

  /** After a common start, the next byte decides. */
  lemma {:induction false} LessAt(a: seq<byte>, b: seq<byte>, n: nat)
    requires n < |a| && n < |b| && a[..n] == b[..n] && a[n] < b[n]
    ensures Less(a, b)
  {
    if n > 0 {
      assert a[0] == a[..n][0] && b[0] == b[..n][0];
      assert a[1..][..n - 1] == a[..n][1..] && b[1..][..n - 1] == b[..n][1..];
      LessAt(a[1..], b[1..], n - 1);
    }
  }

  predicate FirstDifference(a: seq<byte>, b: seq<byte>, i: nat) {
    i < |a| && i < |b| && a[..i] == b[..i] && a[i] != b[i]
  }

  lemma SameBefore(a: seq<byte>, b: seq<byte>, n: nat, k: nat)
    requires n <= |a| && n <= |b| && a[..n] == b[..n] && k < n
    ensures a[k] == b[k]
  {
    assert a[k] == a[..n][k] && b[k] == b[..n][k];
  }

  lemma OneFirstDifference(a: seq<byte>, b: seq<byte>, i: nat, j: nat)
    requires FirstDifference(a, b, i) && j <= |a| && j <= |b| && a[..j] == b[..j]
             && (j < |a| && j < |b| ==> a[j] != b[j])
    ensures i == j
  {
    if i < j {
      SameBefore(a, b, j, i);
    } else if j < i {
      SameBefore(a, b, i, j);
    }
  }

  /** The first difference leaves room for a key in between. */
  predicate HasRoom(start: seq<byte>, limit: seq<byte>, i: nat) {
    FirstDifference(start, limit, i) && start[i] < 0xFF && start[i] + 1 < limit[i]
  }

  /**
   * `start` itself, or a key of at most its length strictly between it and `limit`, wherever the
   * first difference leaves room.
   */
  method FindShortestSeparator(start: seq<byte>, limit: seq<byte>) returns (r: seq<byte>)
    ensures |r| <= |start|
    ensures r == start || (Less(start, r) && Less(r, limit))
    ensures forall i: nat :: HasRoom(start, limit, i) ==> r == start[..i] + [start[i] + 1]
    ensures (forall i: nat :: !HasRoom(start, limit, i)) ==> r == start
  {
    r := start;
    var minLength := if |start| < |limit| then |start| else |limit|;
    var i := 0;
    while i < minLength && start[i] == limit[i]
      invariant i <= minLength && start[..i] == limit[..i]
    {
      i := i + 1;
    }
    forall j: nat | FirstDifference(start, limit, j)
      ensures j == i
    {
      OneFirstDifference(start, limit, j, i);
    }
    if i < minLength && start[i] < 0xFF && start[i] + 1 < limit[i] {
      assert HasRoom(start, limit, i);
      r := start[..i] + [start[i] + 1];
      LessAt(start, r, i);
      LessAt(r, limit, i);
    }
  }

  /** Byte `i` is the first that is not 0xff. */
  ghost predicate Raisable(key: seq<byte>, i: nat) {
    i < |key| && key[i] != 0xFF && forall j :: 0 <= j < i ==> key[j] == 0xFF
  }

  /** A key at or after `key`, no longer than it. */
  method FindShortSuccessor(key: seq<byte>) returns (r: seq<byte>)
    ensures |r| <= |key|
    ensures r == key || Less(key, r)
    ensures r == key <==> forall i :: 0 <= i < |key| ==> key[i] == 0xFF
    ensures forall i: nat :: Raisable(key, i) ==> r == key[..i] + [key[i] + 1]
    ensures r != key ==> r != [] && Raisable(key, |r| - 1)
  {
    r := key;
    for i := 0 to |key|
      invariant r == key && forall j :: 0 <= j < i ==> key[j] == 0xFF
    {
      if key[i] != 0xFF {
        r := key[..i] + [key[i] + 1];
        LessAt(key, r, i);
        assert r[i] != key[i];
        forall j: nat | Raisable(key, j)
          ensures j == i
        {
          assert !(i < j) && !(j < i);
        }
        return;
      }
    }
  }

  // -------------------------------------------------------------- internal keys

  /** A user key and the tag that packs sequence number and type. */
  datatype IKey = IKey(user: seq<byte>, tag: nat)

  /** The tag that sorts first: the largest sequence number, with the type used for seeks. */
  const SEEK_TAG: nat := 0xFF_FFFF_FFFF_FFFF * 256 + 1

  /** By user key, then by tag from high to low. */
  predicate ILess(a: IKey, b: IKey) {
    Less(a.user, b.user) || (a.user == b.user && a.tag > b.tag)
  }

  lemma ILessTotal(a: IKey, b: IKey)
    ensures a == b || ILess(a, b) || ILess(b, a)
    ensures !(ILess(a, b) && ILess(b, a))
  {
    LessTotal(a.user, b.user);
    LessSelf(a.user);
  }

  lemma ILessTransitive(a: IKey, b: IKey, c: IKey)
    requires ILess(a, b) && ILess(b, c)
    ensures ILess(a, c)
  {
    if Less(a.user, b.user) && Less(b.user, c.user) {
      LessTransitive(a.user, b.user, c.user);
    }
  }

  /** At or after. */
  predicate AtLeast(a: IKey, b: IKey) {
    !ILess(a, b)
  }

  lemma AtLeastThen(a: IKey, b: IKey, c: IKey)
    requires AtLeast(b, a) && ILess(b, c)
    ensures ILess(a, c)
  {
    ILessTotal(a, b);
    if a != b {
      ILessTransitive(a, b, c);
    }
  }

  /** The key itself, or a key whose user key is strictly between those of both. */
  ghost predicate Separates(start: IKey, r: IKey, limit: IKey) {
    r == start || (Less(start.user, r.user) && Less(r.user, limit.user) && r.tag == SEEK_TAG)
  }

  ghost predicate Succeeds(key: IKey, r: IKey) {
    r == key || (Less(key.user, r.user) && r.tag == SEEK_TAG)
  }

  /** The user keys differ first at `i` with room between them there, and what follows can be cut off. */
  ghost predicate CutsAt(start: seq<byte>, limit: seq<byte>, i: nat) {
    HasRoom(start, limit, i) && i + 1 < |start|
  }

  /** The shortened key exactly when it is shorter than the start. */
  method ShortestSeparator(start: IKey, limit: IKey) returns (r: IKey)
    ensures Separates(start, r, limit)
    ensures r != start <==> exists i: nat :: CutsAt(start.user, limit.user, i)
    ensures forall i: nat :: CutsAt(start.user, limit.user, i) ==>
              r == IKey(start.user[..i] + [start.user[i] + 1], SEEK_TAG)
  {
    r := start;
    var tmp := FindShortestSeparator(start.user, limit.user);
    if |tmp| < |start.user| && Less(start.user, tmp) {
      r := IKey(tmp, SEEK_TAG);
      ghost var i: nat :| HasRoom(start.user, limit.user, i);
      assert CutsAt(start.user, limit.user, i);
    }
  }

  /** The raised start of the key exactly when it is shorter than the key. */
  method ShortSuccessor(key: IKey) returns (r: IKey)
    ensures Succeeds(key, r)
    ensures r != key <==> exists i: nat :: Raisable(key.user, i) && i + 1 < |key.user|
    ensures forall i: nat :: Raisable(key.user, i) && i + 1 < |key.user| ==>
              r == IKey(key.user[..i] + [key.user[i] + 1], SEEK_TAG)
  {
    r := key;
    var tmp := FindShortSuccessor(key.user);
    if |tmp| < |key.user| && Less(key.user, tmp) {
      r := IKey(tmp, SEEK_TAG);
    }
  }

  /** A separator lies in the gap, and no user key of the far side is its own. */
  lemma SeparatorFits(start: IKey, r: IKey, limit: IKey)
    requires Separates(start, r, limit) && ILess(start, limit)
    ensures AtLeast(r, start) && ILess(r, limit)
  {
    ILessTotal(start, r);
  }
}
