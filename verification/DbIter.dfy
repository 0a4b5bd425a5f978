/** The user-level iterator: one row per user key, at a fixed sequence number, in both directions. */
module DbIter {
  import opened Wrappers
  import opened Keys
  import opened MergingIter
  import opened Lsm

  // ------------------------------------------------------------ shown rows

  /** Entry `i` is the newest visible entry of its user key, and not a deletion. */
  ghost predicate Shown(es: seq<Entry>, s: nat, i: nat) {
    && i < |es| && es[i].key.sn <= s && es[i].key.kind.Value?
    && forall j :: 0 <= j < i && es[j].key.user == es[i].key.user ==> es[j].key.sn > s
  }

  /** The first shown row at or after `lo`, or the end. */
  ghost predicate FirstShown(es: seq<Entry>, s: nat, lo: nat, r: nat) {
    && r <= |es| && (r < |es| ==> lo <= r && Shown(es, s, r))
    && forall j :: lo <= j < r ==> !Shown(es, s, j)
  }

  /** The last shown row before `hi`, or the end. */
  ghost predicate LastShown(es: seq<Entry>, s: nat, hi: nat, r: nat) {
    if r < |es| then r < hi && Shown(es, s, r) && forall j :: r < j < hi ==> !Shown(es, s, j)
    else r == |es| && forall j :: 0 <= j < hi ==> !Shown(es, s, j)
  }

  lemma ShownOrder(es: seq<Entry>, s: nat, i: nat, j: nat)
    requires Sorted(es) && i < j && Shown(es, s, i) && Shown(es, s, j)
    ensures es[i].key.user < es[j].key.user
  {
    assert Before(es[i].key, es[j].key);
  }

  /** The shown rows are exactly the user keys a read at `s` finds, with the values it returns. */
  lemma ShownIsRead(es: seq<Entry>, s: nat, i: nat)
    requires Sorted(es) && Shown(es, s, i)
    ensures Read(Elems(es), es[i].key.user, s) == Some(es[i].value)
  {
    forall x | x in Elems(es) && x.key.user == es[i].key.user && x.key.sn <= s
      ensures x.key.sn <= es[i].key.sn
    {
      var j :| 0 <= j < |es| && es[j] == x;
      assert i < j ==> Before(es[i].key, es[j].key);
    }
    assert Newest(Elems(es), es[i].key.user, s, es[i]);
    SortedDistinct(es);
    LookIs(Elems(es), es[i].key.user, s, es[i]);
  }

  lemma ReadIsShown(es: seq<Entry>, s: nat, user: UserKey) returns (i: nat)
    requires Sorted(es) && Read(Elems(es), user, s).Some?
    ensures Shown(es, s, i) && es[i].key.user == user
    ensures Read(Elems(es), user, s) == Some(es[i].value)
  {
    var e :| Newest(Elems(es), user, s, e);
    SortedDistinct(es);
    LookIs(Elems(es), user, s, e);
    i :| 0 <= i < |es| && es[i] == e;
    forall j | 0 <= j < i && es[j].key.user == user
      ensures es[j].key.sn > s
    {
      assert Before(es[j].key, es[i].key) && es[j] in Elems(es);
    }
  }

  // ------------------------------------------------------- scanning forward

  /**
   * The forward scan stands at `p`, looks for the first row from `start` on, and ignores
   * user keys up to `skip` if there is one.
   */
  ghost predicate Scanning(es: seq<Entry>, s: nat, start: nat, p: nat, skip: Option<UserKey>) {
    && start <= |es| && p <= |es|
    && (forall j :: start <= j < p ==> !Shown(es, s, j))
    // Visible entries already passed belong to ignored user keys.
    && (forall i, j :: 0 <= i < p <= j < |es| && es[i].key.user == es[j].key.user && es[i].key.sn <= s
                       ==> skip.Some? && es[i].key.user <= skip.value)
    // An ignored user key has nothing more to show.
    && (skip.Some? ==> forall j :: p <= j < |es| && start <= j && es[j].key.user <= skip.value ==> !Shown(es, s, j))
    // A scan that begins early has only ignored entries up to `start`.
    && (p < start ==> skip.Some? && forall j :: p <= j < start ==>
          es[j].key.user <= skip.value && (es[j].key.sn > s || es[j].key.user == skip.value))
  }

  lemma UsersAscend(es: seq<Entry>, p: nat)
    requires Sorted(es) && p < |es|
    ensures forall j :: p <= j < |es| ==> es[p].key.user <= es[j].key.user
    ensures forall j :: 0 <= j <= p ==> es[j].key.user <= es[p].key.user
  {
    forall j | 0 <= j < |es| && j != p
      ensures p <= j ==> es[p].key.user <= es[j].key.user
      ensures j <= p ==> es[j].key.user <= es[p].key.user
    {
      assert p < j ==> Before(es[p].key, es[j].key);
      assert j < p ==> Before(es[j].key, es[p].key);
    }
  }

  lemma ScanStep(es: seq<Entry>, s: nat, start: nat, p: nat, skip: Option<UserKey>)
    requires Sorted(es) && Scanning(es, s, start, p, skip) && p < |es|
    ensures var e := es[p];
            if e.key.sn > s then Scanning(es, s, start, p + 1, skip)
            else if e.key.kind.Deletion? then Scanning(es, s, start, p + 1, Some(e.key.user))
            else if skip.Some? && e.key.user <= skip.value then Scanning(es, s, start, p + 1, skip)
            else Shown(es, s, p) && start <= p
  {
    UsersAscend(es, p);
  }

  /** Where a forward scan ends. */
  lemma ScanEnds(es: seq<Entry>, s: nat, start: nat, p: nat, skip: Option<UserKey>)
    requires Scanning(es, s, start, p, skip)
    ensures p == |es| ==> FirstShown(es, s, start, p)
    ensures p < |es| && start <= p && Shown(es, s, p) ==> FirstShown(es, s, start, p)
  {
  }

  /**
   * From behind the current row, past entries of its user key or too new to be seen, the scan for
   * the next row goes on.
   */
  lemma NextScans(es: seq<Entry>, s: nat, at: nat, p: nat)
    requires Sorted(es) && Shown(es, s, at) && p <= at + 1
    requires forall i :: p <= i < at ==> es[i].key.user == es[at].key.user || es[i].key.sn > s
    requires 0 < p <= at ==> es[p - 1].key.user < es[at].key.user
    ensures Scanning(es, s, at + 1, p, Some(es[at].key.user))
  {
    UsersAscend(es, at);
    NothingMore(es, s, at);
    if 0 < p <= at {
      UsersAscend(es, p - 1);
    }
  }

  /** Entries before the current row that have its user key, or are too new to be seen, are not shown. */
  lemma NoneBeside(es: seq<Entry>, s: nat, at: nat, lo: nat)
    requires Shown(es, s, at) && forall j :: lo <= j < at ==> es[j].key.user == es[at].key.user || es[j].key.sn > s
    ensures forall j :: lo <= j < at ==> !Shown(es, s, j)
    ensures lo == 0 ==> LastShown(es, s, at, |es|)
  {
  }

  /** After the current row, its user key has nothing more to show. */
  lemma NothingMore(es: seq<Entry>, s: nat, cur: nat)
    requires Sorted(es) && Shown(es, s, cur)
    ensures forall j :: cur < j < |es| && es[j].key.user <= es[cur].key.user ==> !Shown(es, s, j)
  {
    UsersAscend(es, cur);
  }

  lemma SeekScans(es: seq<Entry>, s: nat, target: UserKey, p: nat)
    requires Sorted(es) && p == SeekPos(es, SeekKey(target, s))
    ensures Scanning(es, s, p, p, None)
    ensures p < |es| ==> target <= es[p].key.user
    ensures forall j :: 0 <= j < p && Shown(es, s, j) ==> es[j].key.user < target
  {
    if p < |es| {
      UsersAscend(es, p);
    }
  }

  // ------------------------------------------------------ scanning backward

  /** The row found so far by a backward scan that has seen the entries from `lo` up to `hi`. */
  ghost predicate Candidate(es: seq<Entry>, s: nat, lo: nat, hi: nat, c: Option<nat>) {
    && lo <= hi <= |es|
    && (forall j :: lo <= j < hi && Shown(es, s, j) ==> c == Some(j))
    && (c.Some? ==>
          && lo <= c.value < hi && es[c.value].key.sn <= s && es[c.value].key.kind.Value?
          && forall i :: lo <= i < c.value ==> es[i].key.sn > s)
  }

  lemma NoCandidate(es: seq<Entry>, s: nat, lo: nat, hi: nat)
    requires lo <= hi <= |es| && forall j :: lo <= j < hi ==> !Shown(es, s, j)
    ensures Candidate(es, s, lo, hi, None)
  {
  }

  lemma BackStep(es: seq<Entry>, s: nat, lo: nat, hi: nat, c: Option<nat>)
    requires Sorted(es) && 0 < lo && Candidate(es, s, lo, hi, c)
    ensures var e := es[lo - 1];
            if e.key.sn > s then Candidate(es, s, lo - 1, hi, c)
            else if c.Some? && e.key.user < es[c.value].key.user then Shown(es, s, c.value)
            else Candidate(es, s, lo - 1, hi, if e.key.kind.Value? then Some(lo - 1) else None)
  {
    UsersAscend(es, lo - 1);
    if c.Some? {
      UsersAscend(es, c.value);
    }
  }

  // ------------------------------------------------------------ the iterator

  class DBIter {
    const iter: MergingIterator
    const sequence: nat
    var direction: Direction
    var valid: bool
    var savedKey: Option<UserKey>
    var savedValue: string
    // The row the iterator is at: an index into the entries, or their number when not valid.
    ghost var cur: nat

    ghost predicate Ok()
      reads this, iter, iter.children
    {
      && iter.Ok() && valid == (cur < |iter.all|) && cur <= |iter.all|
      && (valid ==> Shown(iter.all, sequence, cur))
      && (valid && direction.Forward? ==> iter.pos == cur)
      && (valid && direction.Reverse? ==> Behind())
    }

    /** Moving backwards, the inner cursor is before every entry of the current user key that matters. */
    ghost predicate Behind()
      requires cur < |iter.all|
      reads this, iter, iter.children
    {
      && savedKey == Some(iter.all[cur].key.user) && savedValue == iter.all[cur].value
      && (iter.pos < |iter.all| ==> iter.pos < cur && iter.all[iter.pos].key.user < iter.all[cur].key.user)
      && forall i :: iter.Left() <= i < cur ==>
            iter.all[i].key.user == iter.all[cur].key.user
            || iter.all[i].key.sn > sequence
    }

    constructor (iter: MergingIterator, sequence: nat)
      requires iter.Ok()
      ensures this.iter == iter && this.sequence == sequence && Ok() && !valid
    {
      this.iter, this.sequence := iter, sequence;
      direction, valid, savedKey, savedValue, cur := Forward, false, None, "", |iter.all|;
    }

    function Key(): (k: UserKey)
      requires Ok() && valid
      reads this, iter, iter.children
      ensures k == iter.all[cur].key.user
    {
      if direction.Forward? then iter.Entry().key.user else savedKey.value
    }

    function Value(): (v: string)
      requires Ok() && valid
      reads this, iter, iter.children
      ensures v == iter.all[cur].value
    {
      if direction.Forward? then iter.Entry().value else savedValue
    }

    method Invalidate()
      modifies this`valid, this`cur, this`savedKey
      ensures !valid && savedKey == None && cur == |iter.all|
    {
      valid, savedKey, cur := false, None, |iter.all|;
    }

    /** Moves the inner cursor forward to the first row shown from `start` on. */
    method ScanForward(skipFirst: bool, ghost start: nat) returns (found: bool)
      requires iter.Ok() && iter.Valid() && (skipFirst ==> savedKey.Some?)
      requires Scanning(iter.all, sequence, start, iter.pos, if skipFirst then savedKey else None)
      modifies this`savedKey, iter, iter.children
      ensures iter.Ok() && (found ==> iter.Valid())
      ensures FirstShown(iter.all, sequence, start, if found then iter.pos else |iter.all|)
    {
      hide MergingIterator.Ok, MergingIterator.Laid, Scanning, FirstShown, Shown, Sorted;
      var skipping := skipFirst;
      while true
        invariant iter.Ok() && iter.Valid() && (skipping ==> savedKey.Some?)
        invariant Scanning(iter.all, sequence, start, iter.pos, if skipping then savedKey else None)
        decreases |iter.all| - iter.pos
      {
        iter.Stands();
        var e := iter.Entry();
        ScanStep(iter.all, sequence, start, iter.pos, if skipping then savedKey else None);
        if e.key.sn <= sequence {
          if e.key.kind.Deletion? {
            savedKey, skipping := Some(e.key.user), true;
          } else if skipping && e.key.user <= savedKey.value {
          } else {
            ScanEnds(iter.all, sequence, start, iter.pos, if skipping then savedKey else None);
            return true;
          }
        }
        iter.Next();
        iter.Stands();
        if !iter.Valid() {
          ScanEnds(iter.all, sequence, start, iter.pos, if skipping then savedKey else None);
          return false;
        }
      }
    }

    method FindNextUserEntry(skipFirst: bool, ghost start: nat)
      requires iter.Ok() && iter.Valid() && direction.Forward? && (skipFirst ==> savedKey.Some?)
      requires Scanning(iter.all, sequence, start, iter.pos, if skipFirst then savedKey else None)
      modifies this`valid, this`cur, this`savedKey, iter, iter.children
      ensures Ok() && FirstShown(iter.all, sequence, start, cur)
    {
      var found := ScanForward(skipFirst, start);
      if found {
        valid, savedKey, cur := true, None, iter.pos;
      } else {
        Invalidate();
      }
    }

    method Next()
      requires Ok() && valid
      modifies this, iter, iter.children
      ensures Ok() && FirstShown(iter.all, sequence, old(cur) + 1, cur)
    {
      hide MergingIterator.Ok, MergingIterator.Laid, Scanning, FirstShown, Shown, Sorted;
      ghost var es, at := iter.all, cur;
      iter.Stands();
      if direction.Reverse? {
        direction := Forward;
        if iter.Valid() {
          iter.Next();
        } else {
          iter.SeekToFirst();
        }
      } else {
        savedKey := Some(iter.Entry().key.user);
        iter.Next();
      }
      iter.Stands();
      NextScans(es, sequence, at, iter.pos);
      if !iter.Valid() {
        ScanEnds(es, sequence, at + 1, iter.pos, Some(es[at].key.user));
        Invalidate();
        return;
      }
      FindNextUserEntry(true, at + 1);
    }

    /** Keeps a copy of a value met going backward, or forgets the one kept when a deletion is met. */
    method Remember(e: Entry)
      modifies this`savedKey, this`savedValue
      ensures e.key.kind.Value? ==> savedKey == Some(e.key.user) && savedValue == e.value
    {
      if e.key.kind.Deletion? {
        savedKey, savedValue := None, "";
      } else {
        savedKey, savedValue := Some(e.key.user), e.value;
      }
    }

    /** Moves the inner cursor backward past the last row shown among the entries before it, remembering the row. */
    method ScanBackward(ghost top: nat) returns (valueType: Kind, ghost c: Option<nat>)
      requires iter.Ok() && iter.Left() <= top <= |iter.all|
      requires forall j :: iter.Left() <= j < top ==> !Shown(iter.all, sequence, j)
      modifies this`savedKey, this`savedValue, iter, iter.children
      ensures iter.Ok() && Candidate(iter.all, sequence, iter.Left(), top, c) && valueType.Value? == c.Some?
      ensures c.Some? ==> c.value < |iter.all|
      ensures c.Some? ==> savedKey == Some(iter.all[c.value].key.user) && savedValue == iter.all[c.value].value
      ensures iter.Valid() ==>
                c.Some? && Shown(iter.all, sequence, c.value)
                && iter.all[iter.pos].key.user < iter.all[c.value].key.user
    {
      hide MergingIterator.Ok, MergingIterator.Laid, Candidate, Shown, Sorted;
      NoCandidate(iter.all, sequence, iter.Left(), top);
      iter.Stands();
      valueType := Deletion;
      c := None;
      while iter.Valid()
        invariant iter.Ok() && Candidate(iter.all, sequence, iter.Left(), top, c) && valueType.Value? == c.Some?
        invariant c.Some? ==> c.value < |iter.all|
        invariant c.Some? ==> savedKey == Some(iter.all[c.value].key.user) && savedValue == iter.all[c.value].value
        decreases iter.Left()
      {
        iter.Stands();
        var e := iter.Entry();
        BackStep(iter.all, sequence, iter.Left(), top, c);
        if e.key.sn <= sequence {
          if !valueType.Deletion? && e.key.user < savedKey.value {
            break;
          }
          valueType, c := e.key.kind, if e.key.kind.Value? then Some(iter.pos) else None;
          Remember(e);
        }
        iter.Prev();
        iter.Stands();
      }
    }

    /** Moves backward to the last row shown among the entries before the cursor. */
    method FindPrevUserEntry(ghost top: nat)
      requires iter.Ok() && direction.Reverse? && iter.Left() <= top <= |iter.all|
      requires forall j :: iter.Left() <= j < top ==> !Shown(iter.all, sequence, j)
      modifies this`valid, this`cur, this`savedKey, this`savedValue, this`direction, iter, iter.children
      ensures Ok() && LastShown(iter.all, sequence, top, cur)
    {
      var valueType;
      ghost var c;
      valueType, c := ScanBackward(top);
      if valueType.Deletion? {
        Invalidate();
        savedValue, direction := "", Forward;
      } else {
        valid, cur := true, c.value;
      }
    }

    method Prev()
      requires Ok() && valid
      modifies this, iter, iter.children
      ensures Ok() && LastShown(iter.all, sequence, old(cur), cur)
    {
      hide MergingIterator.Ok, MergingIterator.Laid, LastShown, Shown, Sorted;
      ghost var es, at := iter.all, cur;
      iter.Stands();
      if direction.Forward? {
        savedKey := Some(iter.Entry().key.user);
        UsersAscend(es, at);
        while true
          invariant iter.Ok() && iter.Valid() && iter.pos <= at && cur == at && savedKey == Some(es[at].key.user)
          invariant valid && direction.Forward?
          invariant forall j :: iter.pos <= j < at ==> es[j].key.user == es[at].key.user
          decreases iter.pos
        {
          iter.Prev();
          iter.Stands();
          if !iter.Valid() {
            NoneBeside(es, sequence, at, 0);
            Invalidate();
            savedValue := "";
            return;
          }
          if iter.Entry().key.user < savedKey.value {
            break;
          }
        }
        direction := Reverse;
      }
      NoneBeside(es, sequence, at, iter.Left());
      FindPrevUserEntry(at);
    }

    /** The first row whose user key is at or after the target. */
    method Seek(target: UserKey)
      requires Ok()
      modifies this, iter, iter.children
      ensures Ok()
      ensures valid ==> target <= iter.all[cur].key.user
      ensures forall j :: 0 <= j < cur && Shown(iter.all, sequence, j) ==> iter.all[j].key.user < target
    {
      direction, savedValue, savedKey := Forward, "", None;
      iter.Seek(SeekKey(target, sequence));
      SeekScans(iter.all, sequence, target, iter.pos);
      if iter.Valid() {
        UsersAscend(iter.all, iter.pos);
        FindNextUserEntry(false, iter.pos);
      } else {
        Invalidate();
      }
    }

    method SeekToFirst()
      requires Ok()
      modifies this, iter, iter.children
      ensures Ok() && FirstShown(iter.all, sequence, 0, cur)
    {
      direction, savedValue := Forward, "";
      iter.SeekToFirst();
      if iter.Valid() {
        FindNextUserEntry(false, 0);
      } else {
        Invalidate();
      }
    }

    method SeekToLast()
      requires Ok()
      modifies this, iter, iter.children
      ensures Ok() && LastShown(iter.all, sequence, |iter.all|, cur)
    {
      direction, savedValue := Reverse, "";
      iter.SeekToLast();
      FindPrevUserEntry(|iter.all|);
    }
  }
}
