/** Version edits, the builder that applies them, and replaying the manifest. */
module Manifest {
  import opened Wrappers
  import opened Keys
  import opened Lsm

  /** A manifest record. Every record except the opening snapshot carries the counters. */
  datatype Counters = Counters(logNumber: nat, prevLogNumber: nat, nextFile: nat, lastSequence: nat)

  datatype Edit = Edit(deleted: set<(nat, nat)>, added: seq<(nat, File)>, pointers: seq<(nat, InternalKey)>,
                       counters: Option<Counters>)

  /** Where the next compaction of a level starts; levels without an entry start at the first file. */
  type Pointers = map<nat, InternalKey>

  /** Pointers set one after the other. */
  function Pointed(ps: Pointers, updates: seq<(nat, InternalKey)>): Pointers {
    if updates == [] then ps
    else var last := updates[|updates| - 1]; Pointed(ps, updates[..|updates| - 1])[last.0 := last.1]
  }

  // ------------------------------------------------------------ file order

  /** Start key first, ties broken by file number. */
  predicate BySmallest(f: File, g: File) {
    Compare(f.smallest, g.smallest) < 0 || (Compare(f.smallest, g.smallest) == 0 && f.number < g.number)
  }

  ghost predicate Ordered(fs: seq<File>) {
    forall i, j :: 0 <= i < j < |fs| ==> BySmallest(fs[i], fs[j])
  }

  lemma OrderedHead(fs: seq<File>, f: File)
    requires Ordered(fs) && f in fs
    ensures f == fs[0] || BySmallest(fs[0], f)
  {
  }

  lemma OrderedTail(fs: seq<File>)
    requires Ordered(fs) && fs != []
    ensures Files(fs[1..]) == Files(fs) - {fs[0]}
  {
    assert fs == [fs[0]] + fs[1..];
    forall i | 0 <= i < |fs[1..]|
      ensures fs[1..][i] != fs[0]
    {
      assert BySmallest(fs[0], fs[i + 1]);
    }
  }

  /** The order leaves one way to list a set of files. */
  lemma {:induction false} OrderedUnique(a: seq<File>, b: seq<File>)
    requires Ordered(a) && Ordered(b) && Files(a) == Files(b)
    ensures a == b
  {
    assert a != [] ==> a[0] in Files(b);
    assert b != [] ==> b[0] in Files(a);
    if a != [] {
      OrderedHead(a, b[0]);
      OrderedHead(b, a[0]);
      OrderedTail(a);
      OrderedTail(b);
      OrderedUnique(a[1..], b[1..]);
      assert a == [a[0]] + a[1..] && b == [b[0]] + b[1..];
    }
  }

  // ------------------------------------------------------------- the edits

  ghost function DeletedAt(e: Edit, level: nat): set<nat> {
    NumbersAt(e.deleted, level)
  }

  ghost function AddedAt(e: Edit, level: nat): set<File> {
    AddedAmong(e.added, level)
  }

  ghost function Numbers(S: set<File>): set<nat> {
    set f | f in S :: f.number
  }

  /** The files of a level after removing and adding. */
  ghost function Survivors(base: set<File>, deleted: set<nat>, added: set<File>): set<File> {
    set f | f in base + added && f.number !in deleted
  }

  /** What one edit alone does to a level. */
  ghost function AfterEdit(base: set<File>, e: Edit, level: nat): set<File> {
    Survivors(base, DeletedAt(e, level) - Numbers(AddedAt(e, level)), AddedAt(e, level))
  }

  ghost predicate EditOk(e: Edit) {
    && (forall d :: d in e.deleted ==> d.0 < NUM_LEVELS)
    && (forall u :: u in e.pointers ==> u.0 < NUM_LEVELS)
    && forall p :: p in e.added ==> p.0 < NUM_LEVELS
  }

  // ------------------------------------------------------------ the builder

  function UpperBound(fs: seq<File>, at: nat, f: File): (r: nat)
    requires at <= |fs|
    ensures at <= r <= |fs|
    ensures forall i :: at <= i < r ==> !BySmallest(f, fs[i])
    ensures r < |fs| ==> BySmallest(f, fs[r])
    decreases |fs| - at
  {
    if at == |fs| || BySmallest(f, fs[at]) then at else UpperBound(fs, at + 1, f)
  }

  /** Insertion into the ordered set of added files; an equivalent file is not inserted again. */
  function InsertFile(fs: seq<File>, f: File): (r: seq<File>)
    ensures Ordered(fs) ==> Ordered(r)
    ensures forall g :: g in r ==> g == f || g in fs
    ensures forall g :: g in fs ==> g in r
    ensures (forall g :: g in fs ==> g.number != f.number) ==> f in r
  {
    if fs == [] || BySmallest(f, fs[0]) then [f] + fs
    else if !BySmallest(fs[0], f) then fs
    else
      var rest := InsertFile(fs[1..], f);
      assert fs == [fs[0]] + fs[1..];
      assert forall i :: 0 <= i < |rest| ==> rest[i] in rest;
      [fs[0]] + rest
  }

  class Builder {
    const base: Version
    var compactPointers: Pointers
    var deletedFiles: seq<set<nat>>
    var addedFiles: seq<seq<File>>

    ghost predicate Valid()
      reads this
    {
      && |base.levels| == |deletedFiles| == |addedFiles| == NUM_LEVELS
      && (forall l :: 0 <= l < NUM_LEVELS ==> Ordered(base.levels[l]))
      && forall l :: 0 <= l < NUM_LEVELS ==> Ordered(addedFiles[l])
    }

    constructor (base: Version, pointers: Pointers)
      requires |base.levels| == NUM_LEVELS
      requires forall l :: 0 <= l < NUM_LEVELS ==> Ordered(base.levels[l])
      ensures Valid() && this.base == base && compactPointers == pointers
      ensures forall l :: 0 <= l < NUM_LEVELS ==> deletedFiles[l] == {} && addedFiles[l] == []
    {
      this.base, compactPointers := base, pointers;
      deletedFiles := seq(NUM_LEVELS, i => {});
      addedFiles := seq(NUM_LEVELS, i => []);
    }

    /** Numbers of added files are new at their level. */
    ghost predicate FreshAdds(e: Edit)
      reads this
      requires Valid()
    {
      && (forall p, g :: p in e.added && p.0 < NUM_LEVELS && g in addedFiles[p.0] ==> g.number != p.1.number)
      && AddsDiffer(e)
    }

    /** The pointers of an edit go to the version set itself. */
    method ApplyPointers(e: Edit)
      modifies this`compactPointers
      ensures compactPointers == Pointed(old(compactPointers), e.pointers)
    {
      for i := 0 to |e.pointers|
        invariant compactPointers == Pointed(old(compactPointers), e.pointers[..i])
      {
        assert e.pointers[..i + 1][..i] == e.pointers[..i];
        compactPointers := compactPointers[e.pointers[i].0 := e.pointers[i].1];
      }
      assert e.pointers[..|e.pointers|] == e.pointers;
    }

    /** Records the removed numbers of an edit. */
    method ApplyDeletes(e: Edit)
      requires Valid() && EditOk(e)
      modifies this`deletedFiles
      ensures Valid()
      ensures forall l :: 0 <= l < NUM_LEVELS ==> deletedFiles[l] == old(deletedFiles)[l] + DeletedAt(e, l)
    {
      var pending := e.deleted;
      ghost var done: set<(nat, nat)> := {};
      while pending != {}
        invariant Valid() && done + pending == e.deleted
        invariant forall l :: 0 <= l < NUM_LEVELS ==> deletedFiles[l] == old(deletedFiles)[l] + NumbersAt(done, l)
        decreases |pending|
      {
        var d :| d in pending;
        NumbersAtAdd(done, d);
        pending, done := pending - {d}, done + {d};
        deletedFiles := deletedFiles[d.0 := deletedFiles[d.0] + {d.1}];
      }
      assert done == e.deleted;
    }

    /** One added file: it is no longer deleted at its level. */
    method ApplyAdd(level: nat, f: File)
      requires Valid() && level < NUM_LEVELS
      requires forall g :: g in addedFiles[level] ==> g.number != f.number
      modifies this`deletedFiles, this`addedFiles
      ensures Valid()
      ensures deletedFiles == old(deletedFiles)[level := old(deletedFiles)[level] - {f.number}]
      ensures |addedFiles| == |old(addedFiles)| && Files(addedFiles[level]) == Files(old(addedFiles)[level]) + {f}
      ensures forall l :: 0 <= l < NUM_LEVELS && l != level ==> addedFiles[l] == old(addedFiles)[l]
    {
      deletedFiles := deletedFiles[level := deletedFiles[level] - {f.number}];
      addedFiles := addedFiles[level := InsertFile(addedFiles[level], f)];
    }

    method Apply(e: Edit)
      requires Valid() && EditOk(e) && FreshAdds(e)
      modifies this
      ensures Valid() && compactPointers == Pointed(old(compactPointers), e.pointers)
      ensures forall l :: 0 <= l < NUM_LEVELS ==>
                && deletedFiles[l] == (old(deletedFiles)[l] + DeletedAt(e, l)) - Numbers(AddedAt(e, l))
                && Files(addedFiles[l]) == Files(old(addedFiles)[l]) + AddedAt(e, l)
    {
      ApplyPointers(e);
      ApplyDeletes(e);
      ghost var deleted := deletedFiles;
      for i := 0 to |e.added|
        invariant Valid() && compactPointers == Pointed(old(compactPointers), e.pointers)
        invariant forall l :: 0 <= l < NUM_LEVELS ==>
                    deletedFiles[l] == deleted[l] - Numbers(AddedAmong(e.added[..i], l))
        invariant forall l :: 0 <= l < NUM_LEVELS ==>
                    Files(addedFiles[l]) == Files(old(addedFiles)[l]) + AddedAmong(e.added[..i], l)
      {
        var level, f := e.added[i].0, e.added[i].1;
        AddedAmongSnoc(e.added, i);
        assert e.added[i] in e.added;
        NotYetAdded(e, i, old(addedFiles)[level], addedFiles[level]);
        ApplyAdd(level, f);
      }
      assert e.added[..|e.added|] == e.added;
    }

    /** Merges added and base files of one level in order, leaving out deleted ones. */
    method SaveLevel(level: nat) returns (fs: seq<File>)
      requires Valid() && level < NUM_LEVELS
      requires forall f, g :: f in addedFiles[level] && g in base.levels[level] ==> f.number != g.number
      ensures Ordered(fs)
      ensures Files(fs) == Survivors(Files(base.levels[level]), deletedFiles[level], Files(addedFiles[level]))
    {
      var baseFiles, added := base.levels[level], addedFiles[level];
      fs := [];
      var at := 0;
      for i := 0 to |added|
        invariant at <= |baseFiles|
        invariant SavedSoFar(fs, baseFiles, at, added, i, deletedFiles[level])
      {
        var bpos := UpperBound(baseFiles, at, added[i]);
        while at < bpos
          invariant at <= bpos
          invariant SavedSoFar(fs, baseFiles, at, added, i, deletedFiles[level])
        {
          BaseNext(fs, baseFiles, at, added, i, deletedFiles[level]);
          fs := MaybeAddFile(fs, deletedFiles[level], baseFiles[at]);
          at := at + 1;
        }
        AddedNext(fs, baseFiles, at, added, i, deletedFiles[level]);
        fs := MaybeAddFile(fs, deletedFiles[level], added[i]);
      }
      while at < |baseFiles|
        invariant at <= |baseFiles|
        invariant SavedSoFar(fs, baseFiles, at, added, |added|, deletedFiles[level])
      {
        BaseNext(fs, baseFiles, at, added, |added|, deletedFiles[level]);
        fs := MaybeAddFile(fs, deletedFiles[level], baseFiles[at]);
        at := at + 1;
      }
      assert baseFiles[..at] == baseFiles && added[..|added|] == added;
    }

    method SaveTo() returns (v: Version)
      requires Valid()
      requires forall l, f, g :: 0 <= l < NUM_LEVELS && f in addedFiles[l] && g in base.levels[l] ==>
                 f.number != g.number
      ensures |v.levels| == NUM_LEVELS
      ensures forall l :: 0 <= l < NUM_LEVELS ==>
                Ordered(v.levels[l])
                && Files(v.levels[l]) == Survivors(Files(base.levels[l]), deletedFiles[l], Files(addedFiles[l]))
    {
      var levels: seq<seq<File>> := [];
      var level := 0;
      while level < NUM_LEVELS
        invariant |levels| == level <= NUM_LEVELS
        invariant forall l :: 0 <= l < level ==>
                    Ordered(levels[l])
                    && Files(levels[l]) == Survivors(Files(base.levels[l]), deletedFiles[l], Files(addedFiles[l]))
      {
        var fs := SaveLevel(level);
        levels := levels + [fs];
        level := level + 1;
      }
      v := Version(levels);
    }
  }

  ghost function AddedAmong(added: seq<(nat, File)>, level: nat): set<File> {
    set p | p in added && p.0 == level :: p.1
  }

  ghost predicate AddsDiffer(e: Edit) {
    forall i, j :: 0 <= i < j < |e.added| && e.added[i].0 == e.added[j].0 ==> e.added[i].1.number != e.added[j].1.number
  }

  lemma NotYetAdded(e: Edit, i: nat, before: seq<File>, now: seq<File>)
    requires i < |e.added| && AddsDiffer(e)
    requires Files(now) == Files(before) + AddedAmong(e.added[..i], e.added[i].0)
    requires forall g :: g in before ==> g.number != e.added[i].1.number
    ensures forall g :: g in now ==> g.number != e.added[i].1.number
  {
    forall g | g in now
      ensures g.number != e.added[i].1.number
    {
      assert g in Files(now);
      if g !in before {
        var p :| p in e.added[..i] && p.0 == e.added[i].0 && p.1 == g;
      }
    }
  }

  ghost function NumbersAt(S: set<(nat, nat)>, level: nat): set<nat> {
    set d | d in S && d.0 == level :: d.1
  }

  lemma NumbersAtAdd(S: set<(nat, nat)>, d: (nat, nat))
    ensures forall l :: NumbersAt(S + {d}, l) == NumbersAt(S, l) + if d.0 == l then {d.1} else {}
  {
  }

  lemma AddedAmongSnoc(added: seq<(nat, File)>, i: nat)
    requires i < |added|
    ensures forall l :: AddedAmong(added[..i + 1], l)
                        == AddedAmong(added[..i], l) + if added[i].0 == l then {added[i].1} else {}
  {
    assert added[..i + 1] == added[..i] + [added[i]];
  }

  function MaybeAddFile(fs: seq<File>, deleted: set<nat>, f: File): seq<File> {
    if f.number in deleted then fs else fs + [f]
  }

  /** `fs` lists, in order, the surviving files among those consumed; the others come later in the order. */
  ghost predicate SavedSoFar(fs: seq<File>, base: seq<File>, at: nat, added: seq<File>, i: nat, deleted: set<nat>)
    requires at <= |base| && i <= |added|
  {
    && Ordered(fs)
    && Files(fs) == Survivors(Files(base[..at]), deleted, Files(added[..i]))
    && (forall f, j :: f in fs && at <= j < |base| ==> BySmallest(f, base[j]))
    && forall f, j :: f in fs && i <= j < |added| ==> BySmallest(f, added[j])
  }

  lemma SnocOrdered(fs: seq<File>, f: File)
    requires Ordered(fs) && forall g :: g in fs ==> BySmallest(g, f)
    ensures Ordered(fs + [f])
  {
  }

  lemma SurvivorsStep(fs: seq<File>, S: set<File>, T: set<File>, deleted: set<nat>, f: File)
    requires Files(fs) == Survivors(S, deleted, T)
    ensures Files(MaybeAddFile(fs, deleted, f)) == Survivors(S + {f}, deleted, T) == Survivors(S, deleted, T + {f})
  {
    var r := MaybeAddFile(fs, deleted, f);
    forall g
      ensures g in Files(r) <==> g in Survivors(S + {f}, deleted, T)
    {
      assert g in Files(r) <==> g in Files(fs) || (g == f && f.number !in deleted);
    }
    assert S + {f} + T == S + (T + {f});
  }

  /** The next base file keeps the order when it does not come after the next added file. */
  lemma BaseNext(fs: seq<File>, base: seq<File>, at: nat, added: seq<File>, i: nat, deleted: set<nat>)
    requires at < |base| && i <= |added| && SavedSoFar(fs, base, at, added, i, deleted)
    requires Ordered(base) && Ordered(added)
    requires forall f, g :: f in added && g in base ==> f.number != g.number
    requires i < |added| ==> !BySmallest(added[i], base[at])
    ensures SavedSoFar(MaybeAddFile(fs, deleted, base[at]), base, at + 1, added, i, deleted)
  {
    var f := base[at];
    assert Files(base[..at + 1]) == Files(base[..at]) + {f} by { assert base[..at + 1] == base[..at] + [f]; }
    SurvivorsStep(fs, Files(base[..at]), Files(added[..i]), deleted, f);
    assert f in base;
    forall j | i <= j < |added|
      ensures BySmallest(f, added[j])
    {
      assert added[i] in added && f.number != added[i].number;
      assert BySmallest(f, added[i]);
    }
    SnocOrdered(fs, f);
  }

  lemma AddedNext(fs: seq<File>, base: seq<File>, at: nat, added: seq<File>, i: nat, deleted: set<nat>)
    requires at <= |base| && i < |added| && SavedSoFar(fs, base, at, added, i, deleted)
    requires Ordered(base) && Ordered(added)
    requires at < |base| ==> BySmallest(added[i], base[at])
    ensures SavedSoFar(MaybeAddFile(fs, deleted, added[i]), base, at, added, i + 1, deleted)
  {
    var f := added[i];
    assert Files(added[..i + 1]) == Files(added[..i]) + {f} by { assert added[..i + 1] == added[..i] + [f]; }
    SurvivorsStep(fs, Files(base[..at]), Files(added[..i]), deleted, f);
    forall j | at <= j < |base|
      ensures BySmallest(f, base[j])
    {
      assert BySmallest(f, base[at]);
    }
    SnocOrdered(fs, f);
  }

  // ------------------------------------------------------------- replaying

  /** Accumulated removals of the first `n` edits at a level, as one builder keeps them. */
  ghost function ReplayDeleted(edits: seq<Edit>, n: nat, level: nat): set<nat>
    requires n <= |edits|
  {
    if n == 0 then {}
    else (ReplayDeleted(edits, n - 1, level) + DeletedAt(edits[n - 1], level)) - Numbers(AddedAt(edits[n - 1], level))
  }

  ghost function ReplayAdded(edits: seq<Edit>, n: nat, level: nat): set<File>
    requires n <= |edits|
  {
    if n == 0 then {} else ReplayAdded(edits, n - 1, level) + AddedAt(edits[n - 1], level)
  }

  /** The level after installing the first `n` edits one at a time, starting empty. */
  ghost function Installed(edits: seq<Edit>, n: nat, level: nat): set<File>
    requires n <= |edits|
  {
    if n == 0 then {} else AfterEdit(Installed(edits, n - 1, level), edits[n - 1], level)
  }

  /** The compaction pointers after the first `n` edits. */
  function ReplayPointers(edits: seq<Edit>, n: nat): Pointers
    requires n <= |edits|
  {
    if n == 0 then map[] else Pointed(ReplayPointers(edits, n - 1), edits[n - 1].pointers)
  }

  /** The counters of the last of the first `n` edits that has any. */
  function ReplayCounters(edits: seq<Edit>, n: nat): Option<Counters>
    requires n <= |edits|
  {
    if n == 0 then None
    else if edits[n - 1].counters.Some? then edits[n - 1].counters
    else ReplayCounters(edits, n - 1)
  }

  /** No edit re-adds, at a level, a file number that left the level or is still there. */
  ghost predicate NeverReAdds(edits: seq<Edit>) {
    forall n: nat, level: nat :: n < |edits| && level < NUM_LEVELS ==> AddsNew(edits, n, level)
  }

  ghost predicate AddsNew(edits: seq<Edit>, n: nat, level: nat)
    requires n < |edits|
  {
    && Numbers(AddedAt(edits[n], level)) !! ReplayDeleted(edits, n, level)
    && Numbers(AddedAt(edits[n], level)) !! Numbers(ReplayAdded(edits, n, level))
  }

  ghost predicate EditsOk(edits: seq<Edit>) {
    && (forall e :: e in edits ==> EditOk(e) && AddsDiffer(e))
    && NeverReAdds(edits)
  }

  /** Two rounds of removing and adding, done separately or accumulated first. */
  lemma OneRound(base: set<File>, del: set<nat>, add: set<File>, D: set<nat>, A: set<File>)
    requires Numbers(A) !! del
    ensures Survivors(base, (del + D) - Numbers(A), add + A) == Survivors(Survivors(base, del, add), D - Numbers(A), A)
  {
    forall f
      ensures f in Survivors(base, (del + D) - Numbers(A), add + A)
              <==> f in Survivors(Survivors(base, del, add), D - Numbers(A), A)
    {
      assert f in A ==> f.number in Numbers(A);
    }
  }

  /** Folding all edits through one builder equals installing them one at a time. */
  lemma {:induction false} ReplayIsInstall(edits: seq<Edit>, n: nat, level: nat)
    requires NeverReAdds(edits) && n <= |edits| && level < NUM_LEVELS
    ensures Survivors({}, ReplayDeleted(edits, n, level), ReplayAdded(edits, n, level)) == Installed(edits, n, level)
  {
    if n > 0 {
      ReplayIsInstall(edits, n - 1, level);
      assert AddsNew(edits, n - 1, level);
      OneRound({}, ReplayDeleted(edits, n - 1, level), ReplayAdded(edits, n - 1, level),
               DeletedAt(edits[n - 1], level), AddedAt(edits[n - 1], level));
    }
  }

  lemma AddsAreFresh(edits: seq<Edit>, n: nat, level: nat, f: File, added: seq<File>)
    requires EditsOk(edits) && n < |edits| && level < NUM_LEVELS
    requires (level, f) in edits[n].added && Files(added) == ReplayAdded(edits, n, level)
    ensures forall g :: g in added ==> g.number != f.number
  {
    assert f in AddedAt(edits[n], level);
    assert AddsNew(edits, n, level);
    forall g | g in added
      ensures g.number != f.number
    {
      assert g in Files(added);
      assert g.number in Numbers(ReplayAdded(edits, n, level)) && f.number in Numbers(AddedAt(edits[n], level));
    }
  }

  /** Feeds every record of the manifest to one builder and keeps the last counters seen. */
  method ReplayAll(b: Builder, edits: seq<Edit>) returns (counters: Option<Counters>)
    requires b.Valid() && EditsOk(edits) && b.compactPointers == map[]
    requires forall l :: 0 <= l < NUM_LEVELS ==> b.deletedFiles[l] == {} && b.addedFiles[l] == []
    modifies b
    ensures b.Valid() && b.compactPointers == ReplayPointers(edits, |edits|)
            && counters == ReplayCounters(edits, |edits|)
    ensures forall l :: 0 <= l < NUM_LEVELS ==>
              b.deletedFiles[l] == ReplayDeleted(edits, |edits|, l)
                  && Files(b.addedFiles[l]) == ReplayAdded(edits, |edits|, l)
  {
    counters := None;
    for n := 0 to |edits|
      invariant b.Valid() && b.compactPointers == ReplayPointers(edits, n) && counters == ReplayCounters(edits, n)
      invariant forall l :: 0 <= l < NUM_LEVELS ==>
                  b.deletedFiles[l] == ReplayDeleted(edits, n, l) && Files(b.addedFiles[l]) == ReplayAdded(edits, n, l)
    {
      var e := edits[n];
      assert e in edits;
      forall p | p in e.added && p.0 < NUM_LEVELS
        ensures forall g :: g in b.addedFiles[p.0] ==> g.number != p.1.number
      {
        AddsAreFresh(edits, n, p.0, p.1, b.addedFiles[p.0]);
      }
      b.Apply(e);
      if e.counters.Some? {
        counters := e.counters;
      }
    }
  }

  /** What reading a manifest yields. */
  datatype Recovered = Recovered(v: Version, pointers: Pointers, counters: Counters)

  /** Reads a manifest: one builder over the empty version, every record in turn; an error if no record has counters. */
  method Recover(edits: seq<Edit>) returns (r: Option<Recovered>)
    requires EditsOk(edits)
    ensures r.None? <==> forall e :: e in edits ==> e.counters.None?
    ensures r.Some? ==>
              Some(r.value.counters) == ReplayCounters(edits, |edits|)
              && r.value.pointers == ReplayPointers(edits, |edits|)
    ensures r.Some? ==> |r.value.v.levels| == NUM_LEVELS
    ensures r.Some? ==> forall l :: 0 <= l < NUM_LEVELS ==>
              Ordered(r.value.v.levels[l]) && Files(r.value.v.levels[l]) == Installed(edits, |edits|, l)
  {
    var empty := Version(seq(NUM_LEVELS, i => []));
    var b := new Builder(empty, map[]);
    var counters := ReplayAll(b, edits);
    CountersFound(edits, |edits|);
    assert edits[..|edits|] == edits;
    if counters.None? {
      return None;
    }
    var v := b.SaveTo();
    forall l: nat | l < NUM_LEVELS
      ensures Files(v.levels[l]) == Installed(edits, |edits|, l)
    {
      ReplayIsInstall(edits, |edits|, l);
      assert Files(b.base.levels[l]) == {};
    }
    r := Some(Recovered(v, b.compactPointers, counters.value));
  }

  lemma {:induction false} CountersFound(edits: seq<Edit>, n: nat)
    requires n <= |edits|
    ensures ReplayCounters(edits, n).None? <==> forall e :: e in edits[..n] ==> e.counters.None?
  {
    if n > 0 {
      CountersFound(edits, n - 1);
      assert edits[..n] == edits[..n - 1] + [edits[n - 1]];
    }
  }
}
