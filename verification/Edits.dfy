/** What each kind of edit does to a version, and the file-number discipline that makes manifests replayable. */
module Edits {
  import opened Wrappers
  import opened Keys
  import opened Lsm
  import opened CompactionInstall
  import opened Manifest

  /** Some file numbered `n` is listed at level `l`. */
  ghost predicate At(v: Version, l: nat, n: nat) {
    l < |v.levels| && exists f :: f in v.levels[l] && f.number == n
  }

  /** A number names one file at one level, and is below the next number to hand out. */
  ghost predicate NumbersOk(v: Version, next: nat) {
    && |v.levels| == NUM_LEVELS
    && (forall l :: 0 <= l < NUM_LEVELS ==> UniqueNumbers(Files(v.levels[l])))
    && (forall l: nat, m: nat, n: nat :: At(v, l, n) && At(v, m, n) ==> l == m)
    && forall l: nat, n: nat :: At(v, l, n) ==> n < next
  }

  ghost predicate AllOrdered(v: Version) {
    |v.levels| == NUM_LEVELS && forall l :: 0 <= l < NUM_LEVELS ==> Ordered(v.levels[l])
  }

  /** `v2` is what installing the edit over `v` gives. */
  ghost predicate Applied(v: Version, e: Edit, v2: Version) {
    && |v.levels| == NUM_LEVELS && AllOrdered(v2)
    && forall l :: 0 <= l < NUM_LEVELS ==> Files(v2.levels[l]) == AfterEdit(Files(v.levels[l]), e, l)
  }

  /**
   * Edits the engine makes: removed files are listed where they are removed from, and added
   * files carry fresh numbers or come from the level right above, which they leave.
   */
  ghost predicate EditFits(v: Version, e: Edit, next: nat, next2: nat) {
    && EditOk(e) && next <= next2
    && (forall d :: d in e.deleted ==> At(v, d.0, d.1))
    && (forall i, j :: 0 <= i < j < |e.added| ==> e.added[i].1.number != e.added[j].1.number)
    && forall p :: p in e.added ==> (next <= p.1.number < next2) || MovesDown(v, e, p)
  }

  ghost predicate MovesDown(v: Version, e: Edit, p: (nat, File)) {
    p.0 > 0 && At(v, p.0 - 1, p.1.number) && (p.0 - 1, p.1.number) in e.deleted
  }

  // -------------------------------------------------------- membership facts

  lemma AfterEditHas(v: Version, e: Edit, v2: Version, l: nat, f: File)
    requires Applied(v, e, v2) && l < NUM_LEVELS
    ensures f in v2.levels[l]
       <==> (f in v.levels[l] || (l, f) in e.added)
            && ((l, f.number) !in e.deleted || exists g :: (l, g) in e.added && g.number == f.number)
  {
    assert f in v2.levels[l] <==> f in Files(v2.levels[l]);
    var D, A := DeletedAt(e, l), AddedAt(e, l);
    assert f in A <==> (l, f) in e.added;
    assert f.number in D <==> (l, f.number) in e.deleted;
    assert f.number in Numbers(A) <==> exists g :: (l, g) in e.added && g.number == f.number;
  }

  lemma SameAdd(e: Edit, p: (nat, File), q: (nat, File))
    requires forall i, j :: 0 <= i < j < |e.added| ==> e.added[i].1.number != e.added[j].1.number
    requires p in e.added && q in e.added && p.1.number == q.1.number
    ensures p == q
  {
    var i :| 0 <= i < |e.added| && e.added[i] == p;
    var j :| 0 <= j < |e.added| && e.added[j] == q;
    assert !(i < j) && !(j < i);
  }

  lemma NotAddedAndListed(v: Version, e: Edit, next: nat, next2: nat, l: nat, f: File, g: File)
    requires NumbersOk(v, next) && EditFits(v, e, next, next2) && l < NUM_LEVELS
    requires (l, f) in e.added && g in v.levels[l]
    ensures f.number != g.number
  {
    assert At(v, l, g.number);
    assert (next <= f.number < next2) || MovesDown(v, e, (l, f));
  }

  /** A number being added leaves wherever it was. */
  lemma AddedLeaves(v: Version, e: Edit, next: nat, next2: nat, l: nat, f: File, m: nat)
    requires NumbersOk(v, next) && EditFits(v, e, next, next2)
    requires (l, f) in e.added && At(v, m, f.number)
    ensures (m, f.number) in e.deleted
  {
    assert MovesDown(v, e, (l, f));
  }

  /** A listed file was there already and not removed, or was just added. */
  lemma Origin(v: Version, e: Edit, v2: Version, next: nat, next2: nat, l: nat, f: File)
    requires Applied(v, e, v2) && NumbersOk(v, next) && EditFits(v, e, next, next2)
    requires l < NUM_LEVELS && f in v2.levels[l]
    ensures (l, f) in e.added || (f in v.levels[l] && (l, f.number) !in e.deleted)
  {
    AfterEditHas(v, e, v2, l, f);
    forall g | (l, g) in e.added && f in v.levels[l]
      ensures g.number != f.number
    {
      NotAddedAndListed(v, e, next, next2, l, g, f);
    }
  }

  /** Where a number may be after the edit. */
  lemma NumberOrigin(v: Version, e: Edit, v2: Version, next: nat, next2: nat, l: nat, n: nat)
    requires Applied(v, e, v2) && NumbersOk(v, next) && EditFits(v, e, next, next2)
    requires At(v2, l, n)
    ensures (exists f :: (l, f) in e.added && f.number == n) || (At(v, l, n) && (l, n) !in e.deleted)
    ensures n < next2
  {
    var f :| f in v2.levels[l] && f.number == n;
    Origin(v, e, v2, next, next2, l, f);
    if (l, f) in e.added {
      assert (next <= n < next2) || MovesDown(v, e, (l, f));
    } else {
      assert At(v, l, n);
    }
  }

  /** An added number is nowhere else after the edit. */
  lemma AddedOnlyThere(v: Version, e: Edit, v2: Version, next: nat, next2: nat, l: nat, f: File, m: nat)
    requires Applied(v, e, v2) && NumbersOk(v, next) && EditFits(v, e, next, next2)
    requires (l, f) in e.added && At(v2, m, f.number)
    ensures l == m
  {
    NumberOrigin(v, e, v2, next, next2, m, f.number);
    if g :| (m, g) in e.added && g.number == f.number {
      SameAdd(e, (l, f), (m, g));
    } else {
      AddedLeaves(v, e, next, next2, l, f, m);
    }
  }

  lemma EditKeepsUnique(v: Version, e: Edit, v2: Version, next: nat, next2: nat, l: nat)
    requires Applied(v, e, v2) && NumbersOk(v, next) && EditFits(v, e, next, next2) && l < NUM_LEVELS
    ensures UniqueNumbers(Files(v2.levels[l]))
  {
    forall f, g | f in v2.levels[l] && g in v2.levels[l] && f.number == g.number
      ensures f == g
    {
      Origin(v, e, v2, next, next2, l, f);
      Origin(v, e, v2, next, next2, l, g);
      if (l, f) in e.added && (l, g) in e.added {
        SameAdd(e, (l, f), (l, g));
      } else if (l, f) in e.added {
        NotAddedAndListed(v, e, next, next2, l, f, g);
      } else if (l, g) in e.added {
        NotAddedAndListed(v, e, next, next2, l, g, f);
      } else {
        assert f in Files(v.levels[l]) && g in Files(v.levels[l]);
      }
    }
  }

  lemma EditKeepsNumbers(v: Version, e: Edit, v2: Version, next: nat, next2: nat)
    requires Applied(v, e, v2) && NumbersOk(v, next) && EditFits(v, e, next, next2)
    ensures NumbersOk(v2, next2)
  {
    forall l: nat | l < NUM_LEVELS
      ensures UniqueNumbers(Files(v2.levels[l]))
    {
      EditKeepsUnique(v, e, v2, next, next2, l);
    }
    forall l: nat, n: nat | At(v2, l, n)
      ensures n < next2
      ensures forall m: nat :: At(v2, m, n) ==> l == m
    {
      NumberOrigin(v, e, v2, next, next2, l, n);
      forall m: nat | At(v2, m, n)
        ensures l == m
      {
        OnePlace(v, e, v2, next, next2, l, m, n);
      }
    }
  }

  lemma OnePlace(v: Version, e: Edit, v2: Version, next: nat, next2: nat, l: nat, m: nat, n: nat)
    requires Applied(v, e, v2) && NumbersOk(v, next) && EditFits(v, e, next, next2)
    requires At(v2, l, n) && At(v2, m, n)
    ensures l == m
  {
    NumberOrigin(v, e, v2, next, next2, l, n);
    NumberOrigin(v, e, v2, next, next2, m, n);
    if f :| (l, f) in e.added && f.number == n {
      AddedOnlyThere(v, e, v2, next, next2, l, f, m);
    } else if g :| (m, g) in e.added && g.number == n {
      AddedOnlyThere(v, e, v2, next, next2, m, g, l);
    }
  }

  // ------------------------------------------------------- manifest records

  /** Numbers ever added to or removed from a level. */
  ghost function Seen(edits: seq<Edit>, l: nat): set<nat> {
    ReplayDeleted(edits, |edits|, l) + Numbers(ReplayAdded(edits, |edits|, l))
  }

  /** A number seen at a level is old and no longer at a shallower level. */
  ghost predicate SeenOk(edits: seq<Edit>, v: Version, next: nat) {
    forall l: nat, n: nat :: l < NUM_LEVELS && n in Seen(edits, l) ==> n < next && NotShallower(v, l, n)
  }

  ghost predicate NotShallower(v: Version, l: nat, n: nat) {
    forall k: nat :: k < l ==> !At(v, k, n)
  }

  /** Replaying the records gives the version, and the records obey the number discipline. */
  ghost predicate Tracks(edits: seq<Edit>, v: Version, next: nat) {
    && EditsOk(edits) && |v.levels| == NUM_LEVELS
    && (forall l: nat :: l < NUM_LEVELS ==> Installed(edits, |edits|, l) == Files(v.levels[l]))
    && SeenOk(edits, v, next)
  }

  lemma {:induction false} PrefixReplay(edits: seq<Edit>, e: Edit, n: nat, l: nat)
    requires n <= |edits|
    ensures ReplayDeleted(edits + [e], n, l) == ReplayDeleted(edits, n, l)
    ensures ReplayAdded(edits + [e], n, l) == ReplayAdded(edits, n, l)
    ensures Installed(edits + [e], n, l) == Installed(edits, n, l)
  {
    if n > 0 {
      PrefixReplay(edits, e, n - 1, l);
      assert (edits + [e])[n - 1] == edits[n - 1];
    }
  }

  lemma SeenAfter(edits: seq<Edit>, e: Edit, l: nat)
    ensures Seen(edits + [e], l) <= Seen(edits, l) + DeletedAt(e, l) + Numbers(AddedAt(e, l))
  {
    PrefixReplay(edits, e, |edits|, l);
    var D, A := ReplayAdded(edits, |edits|, l), AddedAt(e, l);
    assert Numbers(D + A) == Numbers(D) + Numbers(A);
  }

  lemma AddsAreNew(edits: seq<Edit>, v: Version, e: Edit, next: nat, next2: nat, l: nat)
    requires SeenOk(edits, v, next) && EditFits(v, e, next, next2) && l < NUM_LEVELS
    ensures AddsNew(edits + [e], |edits|, l)
  {
    PrefixReplay(edits, e, |edits|, l);
    forall n | n in Numbers(AddedAt(e, l))
      ensures n !in Seen(edits, l)
    {
      var f :| f in AddedAt(e, l) && f.number == n;
      assert (l, f) in e.added;
      assert n in Seen(edits, l) ==> NotShallower(v, l, n);
    }
  }

  lemma ExtendEditsOk(edits: seq<Edit>, v: Version, e: Edit, next: nat, next2: nat)
    requires EditsOk(edits) && SeenOk(edits, v, next) && EditFits(v, e, next, next2)
    ensures EditsOk(edits + [e])
  {
    forall n: nat, l: nat | n < |edits + [e]| && l < NUM_LEVELS
      ensures AddsNew(edits + [e], n, l)
    {
      if n == |edits| {
        AddsAreNew(edits, v, e, next, next2, l);
      } else {
        PrefixReplay(edits, e, n, l);
        assert AddsNew(edits, n, l);
      }
    }
  }

  lemma SeenNotShallower(edits: seq<Edit>, v: Version, e: Edit, v2: Version, next: nat, next2: nat, l: nat, n: nat,
                         k: nat)
    requires NumbersOk(v, next) && SeenOk(edits, v, next) && EditFits(v, e, next, next2) && Applied(v, e, v2)
    requires l < NUM_LEVELS && n in Seen(edits + [e], l) && k < l
    ensures !At(v2, k, n)
  {
    SeenAfter(edits, e, l);
    if At(v2, k, n) {
      NumberOrigin(v, e, v2, next, next2, k, n);
      if f :| (k, f) in e.added && f.number == n {
        AddedNotSeenDeeper(edits, v, e, next, next2, k, f, l);
      } else {
        ListedNotSeenDeeper(edits, v, e, next, next2, k, n, l);
      }
    }
  }

  lemma AddedNotSeenDeeper(edits: seq<Edit>, v: Version, e: Edit, next: nat, next2: nat, k: nat, f: File, l: nat)
    requires NumbersOk(v, next) && SeenOk(edits, v, next) && EditFits(v, e, next, next2)
    requires (k, f) in e.added && k < l < NUM_LEVELS
    ensures f.number !in Seen(edits, l) + DeletedAt(e, l) + Numbers(AddedAt(e, l))
  {
    var n := f.number;
    assert n in Seen(edits, l) ==> NotShallower(v, l, n);
    assert n in DeletedAt(e, l) ==> (l, n) in e.deleted;
    if n in Numbers(AddedAt(e, l)) {
      var g :| g in AddedAt(e, l) && g.number == n;
      SameAdd(e, (k, f), (l, g));
    }
  }

  lemma ListedNotSeenDeeper(edits: seq<Edit>, v: Version, e: Edit, next: nat, next2: nat, k: nat, n: nat, l: nat)
    requires NumbersOk(v, next) && SeenOk(edits, v, next) && EditFits(v, e, next, next2)
    requires At(v, k, n) && (k, n) !in e.deleted && k < l < NUM_LEVELS
    ensures n !in Seen(edits, l) + DeletedAt(e, l) + Numbers(AddedAt(e, l))
  {
    assert n in Seen(edits, l) ==> NotShallower(v, l, n);
    assert n in DeletedAt(e, l) ==> (l, n) in e.deleted;
    if n in Numbers(AddedAt(e, l)) {
      var g :| g in AddedAt(e, l) && g.number == n;
      AddedLeaves(v, e, next, next2, l, g, k);
    }
  }

  lemma SeenBelowNext(edits: seq<Edit>, v: Version, e: Edit, next: nat, next2: nat, l: nat, n: nat)
    requires NumbersOk(v, next) && SeenOk(edits, v, next) && EditFits(v, e, next, next2)
    requires l < NUM_LEVELS && n in Seen(edits + [e], l)
    ensures n < next2
  {
    SeenAfter(edits, e, l);
    if n in DeletedAt(e, l) {
      assert At(v, l, n);
    } else if n in Numbers(AddedAt(e, l)) {
      var g :| g in AddedAt(e, l) && g.number == n;
      assert (next <= g.number < next2) || MovesDown(v, e, (l, g));
    }
  }

  /** Appending the record of an installed edit keeps the manifest in step with the version. */
  lemma ExtendTracks(edits: seq<Edit>, v: Version, e: Edit, v2: Version, next: nat, next2: nat)
    requires Tracks(edits, v, next) && NumbersOk(v, next) && EditFits(v, e, next, next2) && Applied(v, e, v2)
    ensures Tracks(edits + [e], v2, next2)
  {
    ExtendEditsOk(edits, v, e, next, next2);
    forall l: nat | l < NUM_LEVELS
      ensures Installed(edits + [e], |edits + [e]|, l) == Files(v2.levels[l])
    {
      PrefixReplay(edits, e, |edits|, l);
    }
    forall l: nat, n: nat | l < NUM_LEVELS && n in Seen(edits + [e], l)
      ensures n < next2 && NotShallower(v2, l, n)
    {
      SeenBelowNext(edits, v, e, next, next2, l, n);
      forall k: nat | k < l
        ensures !At(v2, k, n)
      {
        SeenNotShallower(edits, v, e, v2, next, next2, l, n, k);
      }
    }
  }

  // ------------------------------------------------------------- snapshots

  /** All files of a version from level `l` on, tagged with their level. */
  function Listed(v: Version, l: nat): seq<(nat, File)>
    requires l <= |v.levels|
    ensures forall p :: p in Listed(v, l) <==> l <= p.0 < |v.levels| && p.1 in v.levels[p.0]
    decreases |v.levels| - l
  {
    if l == |v.levels| then [] else Tagged(l, v.levels[l]) + Listed(v, l + 1)
  }

  function Tagged(l: nat, fs: seq<File>): (r: seq<(nat, File)>)
    ensures |r| == |fs|
    ensures forall i :: 0 <= i < |r| ==> r[i] == (l, fs[i])
    ensures forall p :: p in r <==> p.0 == l && p.1 in fs
  {
    seq(|fs|, i requires 0 <= i < |fs| => (l, fs[i]))
  }

  /** The pointers of the levels below `n`, by level. */
  function ListedPointers(ps: Pointers, n: nat): (r: seq<(nat, InternalKey)>)
    ensures forall u :: u in r ==> u.0 < n
  {
    if n == 0 then [] else ListedPointers(ps, n - 1) + if n - 1 in ps then [(n - 1, ps[n - 1])] else []
  }

  lemma {:induction false} ListedPointersAre(ps: Pointers, n: nat)
    ensures Pointed(map[], ListedPointers(ps, n)) == map l | l in ps && l < n :: ps[l]
  {
    if n > 0 {
      ListedPointersAre(ps, n - 1);
      var before, r := ListedPointers(ps, n - 1), ListedPointers(ps, n);
      if n - 1 in ps {
        assert r[..|r| - 1] == before && r[|r| - 1] == (n - 1, ps[n - 1]);
      } else {
        assert r == before;
      }
    }
  }

  /** The manifest's records leave exactly these pointers. */
  ghost predicate PointsTo(edits: seq<Edit>, ps: Pointers) {
    ReplayPointers(edits, |edits|) == ps && forall l :: l in ps ==> l < NUM_LEVELS
  }

  lemma {:induction false} PointedLevels(ps: Pointers, updates: seq<(nat, InternalKey)>)
    requires (forall l :: l in ps ==> l < NUM_LEVELS) && forall u :: u in updates ==> u.0 < NUM_LEVELS
    ensures forall l :: l in Pointed(ps, updates) ==> l < NUM_LEVELS
  {
    if updates != [] {
      PointedLevels(ps, updates[..|updates| - 1]);
      assert updates[|updates| - 1] in updates;
    }
  }

  lemma {:induction false} PrefixPointers(edits: seq<Edit>, e: Edit, n: nat)
    requires n <= |edits|
    ensures ReplayPointers(edits + [e], n) == ReplayPointers(edits, n)
  {
    if n > 0 {
      PrefixPointers(edits, e, n - 1);
    }
  }

  /** Appending an edit's record replays its pointers too. */
  lemma ExtendPointsTo(edits: seq<Edit>, ps: Pointers, e: Edit)
    requires PointsTo(edits, ps) && EditOk(e)
    ensures PointsTo(edits + [e], Pointed(ps, e.pointers))
  {
    PrefixPointers(edits, e, |edits|);
    PointedLevels(ps, e.pointers);
  }

  /** The record that opens a new manifest: every file of the version and every pointer, no counters. */
  function SnapshotEdit(v: Version, ps: Pointers): Edit
    requires |v.levels| == NUM_LEVELS
  {
    Edit({}, Listed(v, 0), ListedPointers(ps, NUM_LEVELS), None)
  }

  lemma SnapshotPoints(v: Version, ps: Pointers)
    requires |v.levels| == NUM_LEVELS && forall l :: l in ps ==> l < NUM_LEVELS
    ensures PointsTo([SnapshotEdit(v, ps)], ps)
  {
    ListedPointersAre(ps, NUM_LEVELS);
    assert ReplayPointers([SnapshotEdit(v, ps)], 0) == map[];
    assert (map l | l in ps && l < NUM_LEVELS :: ps[l]) == ps;
  }

  /** Entries of one level carry different numbers. */
  ghost predicate LevelsDiffer(ps: seq<(nat, File)>) {
    forall i, j :: 0 <= i < j < |ps| && ps[i].0 == ps[j].0 ==> ps[i].1.number != ps[j].1.number
  }

  lemma TaggedDiffer(l: nat, fs: seq<File>)
    requires Ordered(fs) && UniqueNumbers(Files(fs))
    ensures LevelsDiffer(Tagged(l, fs))
  {
    forall i, j | 0 <= i < j < |fs|
      ensures fs[i].number != fs[j].number
    {
      assert BySmallest(fs[i], fs[j]);
      assert fs[i] in Files(fs) && fs[j] in Files(fs);
    }
  }

  lemma {:induction false} ListedDiffer(v: Version, next: nat, l: nat)
    requires AllOrdered(v) && NumbersOk(v, next) && l <= NUM_LEVELS
    ensures LevelsDiffer(Listed(v, l))
    decreases NUM_LEVELS - l
  {
    if l < NUM_LEVELS {
      var first, rest := Tagged(l, v.levels[l]), Listed(v, l + 1);
      TaggedDiffer(l, v.levels[l]);
      ListedDiffer(v, next, l + 1);
      forall i, j | 0 <= i < |first| && 0 <= j < |rest|
        ensures first[i].0 != rest[j].0
      {
        assert first[i] in first && rest[j] in rest;
      }
    }
  }

  lemma SnapshotSeen(v: Version, ps: Pointers, l: nat)
    requires |v.levels| == NUM_LEVELS && l < NUM_LEVELS
    ensures AddedAt(SnapshotEdit(v, ps), l) == Files(v.levels[l])
    ensures Installed([SnapshotEdit(v, ps)], 1, l) == Files(v.levels[l])
    ensures ReplayAdded([SnapshotEdit(v, ps)], 1, l) == Files(v.levels[l])
    ensures ReplayDeleted([SnapshotEdit(v, ps)], 1, l) == {} == ReplayDeleted([SnapshotEdit(v, ps)], 0, l)
  {
    var e := SnapshotEdit(v, ps);
    var edits := [e];
    forall f
      ensures f in AddedAt(e, l) <==> f in Files(v.levels[l])
    {
      assert (l, f) in e.added <==> f in v.levels[l];
      assert f in AddedAt(e, l) <==> (l, f) in e.added;
    }
    assert DeletedAt(e, l) == {};
    assert edits[0] == e;
    assert Installed(edits, 0, l) == {} && ReplayAdded(edits, 0, l) == {} && ReplayDeleted(edits, 0, l) == {};
  }

  /** A manifest that starts with a snapshot of the version is in step with it. */
  lemma SnapshotTracks(v: Version, ps: Pointers, next: nat)
    requires AllOrdered(v) && NumbersOk(v, next) && forall l :: l in ps ==> l < NUM_LEVELS
    ensures Tracks([SnapshotEdit(v, ps)], v, next) && PointsTo([SnapshotEdit(v, ps)], ps)
  {
    SnapshotPoints(v, ps);
    var e := SnapshotEdit(v, ps);
    var edits := [e];
    ListedDiffer(v, next, 0);
    forall n: nat, l: nat | n < |edits| && l < NUM_LEVELS
      ensures AddsNew(edits, n, l)
    {
      SnapshotSeen(v, ps, l);
    }
    forall l: nat | l < NUM_LEVELS
      ensures Installed(edits, |edits|, l) == Files(v.levels[l])
      ensures forall n: nat :: n in Seen(edits, l) ==> n < next && NotShallower(v, l, n)
    {
      SnapshotSeen(v, ps, l);
      forall n: nat | n in Seen(edits, l)
        ensures n < next && NotShallower(v, l, n)
      {
        assert At(v, l, n);
      }
    }
  }
}
