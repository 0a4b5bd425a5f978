/** The two drop rules of a merge compaction, and exactly when they keep every read. */
module CompactionReads {
  import opened Wrappers
  import opened Keys

  /** Rule (A): a newer input entry for the same key is already at or below the oldest snapshot. */
  ghost predicate Hidden(S: set<Entry>, oldest: nat, e: Entry) {
    exists x :: x in S && x.key.user == e.key.user && e.key.sn < x.key.sn <= oldest
  }

  /** The second rule: an old deletion marker whose key has no data in deeper levels. */
  predicate Obsolete(oldest: nat, base: UserKey -> bool, e: Entry) {
    e.key.kind.Deletion? && e.key.sn <= oldest && base(e.key.user)
  }

  ghost predicate Kept(S: set<Entry>, oldest: nat, base: UserKey -> bool, e: Entry) {
    e in S && !Hidden(S, oldest, e) && !Obsolete(oldest, base, e)
  }

  ghost function KeptSet(S: set<Entry>, oldest: nat, base: UserKey -> bool): set<Entry> {
    set e | e in S && Kept(S, oldest, base, e)
  }

  /**
   * A marker `t` among the inputs is what a read of `user` at `point` sees, the marker
   * may be dropped, and the next older entry left behind is a value.
   */
  ghost predicate Uncovers(S: set<Entry>, R: set<Entry>, oldest: nat, point: nat, base: UserKey -> bool,
                           user: UserKey, t: Entry, r: Entry)
  {
    && t in S && Newest(S + R, user, point, t) && Obsolete(oldest, base, t)
    && r in R && r.key.user == user && r.key.kind.Value? && r.key.sn < t.key.sn
    && forall x :: x in R && x.key.user == user && x.key.sn < t.key.sn ==> x.key.sn <= r.key.sn
  }

  ghost predicate ReadsKept(before: set<Entry>, after: set<Entry>, point: nat) {
    forall user, s: nat :: point <= s ==> Read(after, user, s) == Read(before, user, s)
  }

  lemma KeptLook(S: set<Entry>, R: set<Entry>, oldest: nat, base: UserKey -> bool, user: UserKey, s: nat, e: Entry)
    requires Distinct(S + R) && oldest <= s
    requires Newest(S + R, user, s, e) && (e in R || Kept(S, oldest, base, e))
    ensures Look(R + KeptSet(S, oldest, base), user, s) == Outcome(e)
  {
    var after := R + KeptSet(S, oldest, base);
    assert Newest(after, user, s, e);
    assert Distinct(after);
    LookIs(after, user, s, e);
  }

  /** What a read finds once the marker `t` it used to see has been dropped. */
  lemma DroppedLook(S: set<Entry>, R: set<Entry>, oldest: nat, base: UserKey -> bool, user: UserKey, s: nat, t: Entry)
    requires Distinct(S + R) && oldest <= s
    requires t in S && t !in R && Newest(S + R, user, s, t) && Obsolete(oldest, base, t)
    ensures Look(R + KeptSet(S, oldest, base), user, s) == Look(R, user, s)
  {
    var K := KeptSet(S, oldest, base);
    forall e | e in K && e.key.user == user
      ensures e.key.sn > s
    {
      assert t in S + R && e in S + R;
      assert e.key.sn < t.key.sn ==> Hidden(S, oldest, e);
    }
    if x :| x in R && x.key.user == user && x.key.sn <= s {
      var e := NewestExists(R, user, s, x);
      assert Newest(R + K, user, s, e);
      assert Distinct(R + K);
      LookIs(R + K, user, s, e);
      assert Distinct(R);
      LookIs(R, user, s, e);
    } else {
      LookAbsent(R, user, s);
      LookAbsent(R + K, user, s);
    }
  }

  /** A read changes only when its marker is dropped above a value. */
  lemma ReadKept(S: set<Entry>, R: set<Entry>, oldest: nat, point: nat, base: UserKey -> bool, user: UserKey, s: nat)
    requires Distinct(S + R) && S !! R && oldest <= point <= s
    requires forall t, r :: !Uncovers(S, R, oldest, point, base, user, t, r)
    ensures Read(R + KeptSet(S, oldest, base), user, s) == Read(S + R, user, s)
  {
    var K := KeptSet(S, oldest, base);
    if x :| x in S + R && x.key.user == user && x.key.sn <= s {
      var e := NewestExists(S + R, user, s, x);
      LookIs(S + R, user, s, e);
      if e in R || Kept(S, oldest, base, e) {
        KeptLook(S, R, oldest, base, user, s, e);
      } else {
        DroppedLook(S, R, oldest, base, user, s, e);
        NothingUncovered(S, R, oldest, point, base, user, s, e);
      }
    } else {
      LookAbsent(S + R, user, s);
      LookAbsent(R + K, user, s);
    }
  }

  lemma NothingUncovered(S: set<Entry>, R: set<Entry>, oldest: nat, point: nat, base: UserKey -> bool,
                         user: UserKey, s: nat, t: Entry)
    requires Distinct(S + R) && S !! R && oldest <= point <= s
    requires t in S && Newest(S + R, user, s, t) && Obsolete(oldest, base, t)
    requires forall t, r :: !Uncovers(S, R, oldest, point, base, user, t, r)
    ensures Read(R, user, s) == None
  {
    if x :| x in R && x.key.user == user && x.key.sn <= s {
      var r := NewestExists(R, user, s, x);
      assert Distinct(R);
      LookIs(R, user, s, r);
      assert Newest(S + R, user, point, t);
      assert r in S + R && r.key.sn != t.key.sn;
      assert !Uncovers(S, R, oldest, point, base, user, t, r);
    } else {
      LookAbsent(R, user, s);
    }
  }

  /** The read at the point really changes when a value is uncovered. */
  lemma UncoveredReadChanges(S: set<Entry>, R: set<Entry>, oldest: nat, point: nat, base: UserKey -> bool,
                             user: UserKey, t: Entry, r: Entry)
    requires Distinct(S + R) && S !! R && oldest <= point
    requires Uncovers(S, R, oldest, point, base, user, t, r)
    ensures Read(S + R, user, point) == None
    ensures Read(R + KeptSet(S, oldest, base), user, point) == Some(r.value)
  {
    LookIs(S + R, user, point, t);
    DroppedLook(S, R, oldest, base, user, point, t);
    forall x | x in R && x.key.user == user && x.key.sn <= point
      ensures x.key.sn <= r.key.sn
    {
      assert x in S + R && x.key.sn != t.key.sn;
    }
    assert Newest(R, user, point, r);
    assert Distinct(R);
    LookIs(R, user, point, r);
  }

  /** Dropping below `oldest` keeps every read from `point` on exactly when no value is uncovered there. */
  lemma ReadsKeptIff(S: set<Entry>, R: set<Entry>, oldest: nat, point: nat, base: UserKey -> bool)
    requires Distinct(S + R) && S !! R && oldest <= point
    ensures ReadsKept(S + R, R + KeptSet(S, oldest, base), point)
       <==> !exists user, t, r :: Uncovers(S, R, oldest, point, base, user, t, r)
  {
    var after := R + KeptSet(S, oldest, base);
    if user, t, r :| Uncovers(S, R, oldest, point, base, user, t, r) {
      UncoveredReadChanges(S, R, oldest, point, base, user, t, r);
      assert Read(after, user, point) != Read(S + R, user, point);
    } else {
      forall user, s: nat | point <= s
        ensures Read(after, user, s) == Read(S + R, user, s)
      {
        ReadKept(S, R, oldest, point, base, user, s);
      }
    }
  }
}
