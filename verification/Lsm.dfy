/** Table files, versions and the invariants of the level structure. */
module Lsm {
  import opened Keys

  const NUM_LEVELS: nat := 7
  const MAX_MEM_COMPACT_LEVEL: nat := 2

  /** A table file with its metadata; `size` is the number of bytes on disk. */
  datatype File = File(number: nat, size: nat, smallest: InternalKey, largest: InternalKey, entries: seq<Entry>)

  /** The files of each level, in the order the version keeps them. */
  datatype Version = Version(levels: seq<seq<File>>)

  ghost predicate FileOk(f: File) {
    && f.entries != [] && Sorted(f.entries)
    && f.smallest == f.entries[0].key
    && f.largest == f.entries[|f.entries| - 1].key
  }

  ghost function Files(fs: seq<File>): set<File> {
    set f | f in fs
  }

  ghost predicate FilesOk(fs: seq<File>) {
    forall f :: f in fs ==> FileOk(f)
  }

  /** For every shared user key, the entries of `f` are newer than those of `g`. */
  ghost predicate Newer(f: File, g: File) {
    forall e, x :: e in f.entries && x in g.entries && e.key.user == x.key.user ==> e.key.sn > x.key.sn
  }

  /** A level below 0: files in key order, no two overlapping. */
  ghost predicate Disjoint(fs: seq<File>) {
    forall i, j :: 0 <= i < j < |fs| ==> Before(fs[i].largest, fs[j].smallest)
  }

  /** Level 0: file numbers agree with age. */
  ghost predicate NumberedByAge(fs: seq<File>) {
    && (forall i, j :: 0 <= i < j < |fs| ==> fs[i].number != fs[j].number)
    && forall f, g :: f in fs && g in fs && f.number > g.number ==> Newer(f, g)
  }

  ghost predicate LevelOk(level: nat, fs: seq<File>) {
    && FilesOk(fs)
    && if level == 0 then NumberedByAge(fs) else Disjoint(fs)
  }

  ghost predicate LevelNewer(fs: seq<File>, gs: seq<File>) {
    forall f, g :: f in fs && g in gs ==> Newer(f, g)
  }

  ghost predicate LsmOk(v: Version) {
    && |v.levels| == NUM_LEVELS
    && (forall l :: 0 <= l < NUM_LEVELS ==> LevelOk(l, v.levels[l]))
    && forall l, m :: 0 <= l < m < NUM_LEVELS ==> LevelNewer(v.levels[l], v.levels[m])
  }

  ghost function FilesEntries(fs: seq<File>): set<Entry> {
    set f, e | f in fs && e in f.entries :: e
  }

  ghost function EntriesFrom(v: Version, level: nat): set<Entry>
    requires level <= |v.levels|
    decreases |v.levels| - level
  {
    if level == |v.levels| then {} else FilesEntries(v.levels[level]) + EntriesFrom(v, level + 1)
  }

  ghost function Entries(v: Version): set<Entry> {
    EntriesFrom(v, 0)
  }

  lemma {:induction false} EntriesFromHas(v: Version, level: nat, e: Entry)
    requires level <= |v.levels|
    ensures e in EntriesFrom(v, level) <==> exists l :: level <= l < |v.levels| && e in FilesEntries(v.levels[l])
    decreases |v.levels| - level
  {
    if level < |v.levels| {
      EntriesFromHas(v, level + 1, e);
    }
  }

  // ------------------------------------------------------------ key order

  lemma EntryInRange(f: File, e: Entry)
    requires FileOk(f) && e in f.entries
    ensures f.smallest == e.key || Before(f.smallest, e.key)
    ensures f.largest == e.key || Before(e.key, f.largest)
    ensures f.smallest.user <= e.key.user <= f.largest.user
  {
    var i :| 0 <= i < |f.entries| && f.entries[i] == e;
  }

  lemma FileSpan(f: File)
    requires FileOk(f)
    ensures f.smallest == f.largest || Before(f.smallest, f.largest)
    ensures f.smallest.user <= f.largest.user
  {
    EntryInRange(f, f.entries[0]);
  }

  lemma BeforeFiles(f: File, g: File, e: Entry, x: Entry)
    requires FileOk(f) && FileOk(g) && Before(f.largest, g.smallest)
    requires e in f.entries && x in g.entries
    ensures Before(e.key, x.key)
  {
    EntryInRange(f, e);
    EntryInRange(g, x);
  }

  // ---------------------------------------------------------- distinctness

  lemma SortedDistinct(es: seq<Entry>)
    requires Sorted(es)
    ensures Distinct(Elems(es))
  {
    forall i, j | 0 <= i < |es| && 0 <= j < |es| && i != j
      ensures es[i].key.user != es[j].key.user || es[i].key.sn != es[j].key.sn
    {
      var lo, hi := if i < j then i else j, if i < j then j else i;
      assert Before(es[lo].key, es[hi].key);
    }
  }

  /** Two files of one level never share a user key and sequence number. */
  lemma FilesDistinct(level: nat, fs: seq<File>, i: nat, j: nat, a: Entry, b: Entry)
    requires LevelOk(level, fs) && i < j < |fs|
    requires a in fs[i].entries && b in fs[j].entries
    ensures a.key.user != b.key.user || a.key.sn != b.key.sn
  {
    assert FileOk(fs[i]) && FileOk(fs[j]);
    if level > 0 {
      BeforeFiles(fs[i], fs[j], a, b);
    } else {
      var later := fs[i].number > fs[j].number;
      var newer, older := if later then fs[i] else fs[j], if later then fs[j] else fs[i];
      assert newer.number > older.number;
    }
  }

  lemma LevelDistinct(level: nat, fs: seq<File>)
    requires LevelOk(level, fs)
    ensures Distinct(FilesEntries(fs))
  {
    forall a, b | a in FilesEntries(fs) && b in FilesEntries(fs) && a.key.user == b.key.user && a.key.sn == b.key.sn
      ensures a == b
    {
      var i :| 0 <= i < |fs| && a in fs[i].entries;
      var j :| 0 <= j < |fs| && b in fs[j].entries;
      if i < j {
        FilesDistinct(level, fs, i, j, a, b);
      } else if j < i {
        FilesDistinct(level, fs, j, i, b, a);
      } else {
        assert FileOk(fs[i]);
        SortedDistinct(fs[i].entries);
      }
    }
  }

  /** Layers of one user key: everything in `A` is newer than everything in `B`. */
  ghost predicate Above(A: set<Entry>, B: set<Entry>) {
    forall a, b :: a in A && b in B && a.key.user == b.key.user ==> a.key.sn > b.key.sn
  }

  lemma LevelAboveRest(v: Version, level: nat, next: nat)
    requires LsmOk(v) && level < next <= NUM_LEVELS
    ensures Above(FilesEntries(v.levels[level]), EntriesFrom(v, next))
  {
    forall a, b | a in FilesEntries(v.levels[level]) && b in EntriesFrom(v, next) && a.key.user == b.key.user
      ensures a.key.sn > b.key.sn
    {
      EntriesFromHas(v, next, b);
      var m :| next <= m < |v.levels| && b in FilesEntries(v.levels[m]);
      assert LevelNewer(v.levels[level], v.levels[m]);
      var f :| f in v.levels[level] && a in f.entries;
      var g :| g in v.levels[m] && b in g.entries;
      assert Newer(f, g);
    }
  }

  lemma AboveDistinct(A: set<Entry>, B: set<Entry>)
    requires Distinct(A) && Distinct(B) && Above(A, B)
    ensures Distinct(A + B)
  {
  }

  lemma {:induction false} EntriesFromDistinct(v: Version, level: nat)
    requires LsmOk(v) && level <= NUM_LEVELS
    ensures Distinct(EntriesFrom(v, level))
    decreases NUM_LEVELS - level
  {
    if level < NUM_LEVELS {
      EntriesFromDistinct(v, level + 1);
      LevelDistinct(level, v.levels[level]);
      LevelAboveRest(v, level, level + 1);
      AboveDistinct(FilesEntries(v.levels[level]), EntriesFrom(v, level + 1));
    }
  }

  /** A lookup in layered sets stops at the first layer that has an answer. */
  lemma LookLayers(A: set<Entry>, B: set<Entry>, user: UserKey, s: nat)
    requires Distinct(A + B) && Above(A, B)
    ensures Look(A + B, user, s) == if Look(A, user, s).Absent? then Look(B, user, s) else Look(A, user, s)
  {
    assert Distinct(A) && Distinct(B);
    if x :| x in A && x.key.user == user && x.key.sn <= s {
      var e := NewestExists(A, user, s, x);
      assert Newest(A + B, user, s, e);
      LookIs(A, user, s, e);
      LookIs(A + B, user, s, e);
    } else {
      LookAbsent(A, user, s);
      if x :| x in B && x.key.user == user && x.key.sn <= s {
        var e := NewestExists(B, user, s, x);
        assert Newest(A + B, user, s, e);
        LookIs(B, user, s, e);
        LookIs(A + B, user, s, e);
      } else {
        LookAbsent(B, user, s);
        LookAbsent(A + B, user, s);
      }
    }
  }

}
