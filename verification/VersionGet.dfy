/** Point lookups: one table, one version, and the binary search over a level. */
module VersionGet {
  import opened Keys
  import opened Lsm

  /** A point lookup in one sorted run: seek, then compare the user key found. */
  function RunGet(es: seq<Entry>, user: UserKey, s: nat): Lookup {
    var i := SeekPos(es, SeekKey(user, s));
    if i < |es| && es[i].key.user == user then Outcome(es[i]) else Absent
  }

  lemma RunGetIsScan(es: seq<Entry>, user: UserKey, s: nat)
    requires Sorted(es)
    ensures RunGet(es, user, s) == Look(Elems(es), user, s)
  {
    var i := SeekPos(es, SeekKey(user, s));
    assert forall j :: 0 <= j < i ==> es[j].key.user < user || (es[j].key.user == user && es[j].key.sn > s);
    if i < |es| && es[i].key.user == user {
      assert es[i].key.sn <= s;
      forall x | x in Elems(es) && x.key.user == user && x.key.sn <= s
        ensures x.key.sn <= es[i].key.sn
      {
        var j :| 0 <= j < |es| && es[j] == x;
        assert i <= j;
      }
      assert Newest(Elems(es), user, s, es[i]);
      SortedDistinct(es);
      LookIs(Elems(es), user, s, es[i]);
    } else {
      forall x | x in Elems(es) && x.key.user == user
        ensures x.key.sn > s
      {
        var j :| 0 <= j < |es| && es[j] == x;
        assert j < i;
      }
      LookAbsent(Elems(es), user, s);
    }
  }

  /** Smallest index whose file ends at or after `k`. */
  method FindFile(fs: seq<File>, k: InternalKey) returns (index: nat)
    requires FilesOk(fs) && Disjoint(fs)
    ensures index <= |fs|
    ensures forall i :: 0 <= i < index ==> Less(fs[i].largest, k)
    ensures forall i :: index <= i < |fs| ==> !Less(fs[i].largest, k)
  {
    var left, right := 0, |fs|;
    while left < right
      invariant 0 <= left <= right <= |fs|
      invariant forall i :: 0 <= i < left ==> Less(fs[i].largest, k)
      invariant forall i :: right <= i < |fs| ==> !Less(fs[i].largest, k)
    {
      var mid := (left + right) / 2;
      forall i, j | 0 <= i < j < |fs|
        ensures Before(fs[i].largest, fs[j].largest)
      {
        assert Before(fs[i].largest, fs[j].smallest);
        assert FileOk(fs[j]);
        FileSpan(fs[j]);
      }
      if Less(fs[mid].largest, k) {
        left := mid + 1;
      } else {
        right := mid;
      }
    }
    index := right;
  }

  /** `index` is what FindFile returns for a reader of `user` at sequence `s`. */
  ghost predicate Located(fs: seq<File>, index: nat, user: UserKey, s: nat) {
    && LevelOk(1, fs) && index <= |fs|
    && (forall i :: 0 <= i < index ==> Less(fs[i].largest, SeekKey(user, s)))
    && forall i :: index <= i < |fs| ==> !Less(fs[i].largest, SeekKey(user, s))
  }

  lemma EarlierFilesTooNew(fs: seq<File>, index: nat, user: UserKey, s: nat, j: nat, x: Entry)
    requires Located(fs, index, user, s) && j < index && x in fs[j].entries && x.key.user == user
    ensures x.key.sn > s
  {
    assert FileOk(fs[j]);
    EntryInRange(fs[j], x);
  }

  lemma LaterFilesPast(fs: seq<File>, index: nat, user: UserKey, j: nat, x: Entry)
    requires LevelOk(1, fs) && index <= j < |fs| && x in fs[j].entries
    requires user < fs[index].smallest.user
    ensures user < x.key.user
  {
    assert FileOk(fs[index]) && FileOk(fs[j]);
    EntryInRange(fs[j], x);
    FileSpan(fs[index]);
    assert index == j || Before(fs[index].largest, fs[j].smallest);
  }

  lemma LevelSkipped(fs: seq<File>, index: nat, user: UserKey, s: nat)
    requires Located(fs, index, user, s)
    requires index < |fs| ==> user < fs[index].smallest.user
    ensures Look(FilesEntries(fs), user, s) == Absent
  {
    forall x | x in FilesEntries(fs) && x.key.user == user
      ensures x.key.sn > s
    {
      var j :| 0 <= j < |fs| && x in fs[j].entries;
      if j < index {
        EarlierFilesTooNew(fs, index, user, s, j, x);
      } else {
        LaterFilesPast(fs, index, user, j, x);
      }
    }
    LookAbsent(FilesEntries(fs), user, s);
  }

  lemma FirstInLevel(fs: seq<File>, index: nat, p: nat, user: UserKey, s: nat)
    requires Located(fs, index, user, s) && index < |fs|
    requires p == SeekPos(fs[index].entries, SeekKey(user, s)) && p < |fs[index].entries|
    ensures forall x :: x in FilesEntries(fs) && x.key.user == user && x.key.sn <= s
              ==> x == fs[index].entries[p] || Before(fs[index].entries[p].key, x.key)
  {
    var f := fs[index];
    var e := f.entries[p];
    assert FileOk(f);
    forall x | x in FilesEntries(fs) && x.key.user == user && x.key.sn <= s
      ensures x == e || Before(e.key, x.key)
    {
      var j :| 0 <= j < |fs| && x in fs[j].entries;
      if j < index {
        EarlierFilesTooNew(fs, index, user, s, j, x);
      } else if j == index {
        var q :| 0 <= q < |f.entries| && f.entries[q] == x;
        assert p <= q;
      } else {
        assert FileOk(fs[j]);
        BeforeFiles(f, fs[j], e, x);
      }
    }
  }

  lemma LevelSearched(fs: seq<File>, index: nat, user: UserKey, s: nat)
    requires Located(fs, index, user, s)
    requires index < |fs| && fs[index].smallest.user <= user
    ensures Look(FilesEntries(fs), user, s) == RunGet(fs[index].entries, user, s)
  {
    var f := fs[index];
    assert FileOk(f) && !Less(f.largest, SeekKey(user, s));
    var p := SeekPos(f.entries, SeekKey(user, s));
    assert p < |f.entries|;
    var e := f.entries[p];
    FirstInLevel(fs, index, p, user, s);
    assert f in fs && e in f.entries;
    assert !Less(e.key, SeekKey(user, s));
    if e.key.user == user {
      LevelDistinct(1, fs);
      assert Newest(FilesEntries(fs), user, s, e);
      LookIs(FilesEntries(fs), user, s, e);
    } else {
      LookAbsent(FilesEntries(fs), user, s);
    }
  }

  // ------------------------------------------------------------- level 0

  ghost predicate NumbersDiffer(fs: seq<File>) {
    forall i, j :: 0 <= i < j < |fs| ==> fs[i].number != fs[j].number
  }

  ghost predicate NumbersFall(fs: seq<File>) {
    forall i, j :: 0 <= i < j < |fs| ==> fs[i].number > fs[j].number
  }

  /** std::sort with the comparator that puts larger file numbers first. */
  function NewestFirst(fs: seq<File>): (r: seq<File>)
    requires NumbersDiffer(fs)
    ensures NumbersFall(r)
    ensures forall f :: f in r <==> f in fs
  {
    if fs == [] then [] else InsertNewest(fs[0], NewestFirst(fs[1..]))
  }

  function InsertNewest(f: File, fs: seq<File>): (r: seq<File>)
    requires NumbersFall(fs) && forall g :: g in fs ==> g.number != f.number
    ensures NumbersFall(r)
    ensures forall g :: g in r <==> g == f || g in fs
  {
    if fs == [] || f.number > fs[0].number then [f] + fs
    else
      var rest := InsertNewest(f, fs[1..]);
      assert forall i :: 0 <= i < |rest| ==> rest[i] in rest;
      [fs[0]] + rest
  }

  predicate SpansUser(f: File, user: UserKey) {
    f.smallest.user <= user <= f.largest.user
  }

  /** Runs ordered from newest to oldest. */
  ghost predicate AgeOrdered(fs: seq<File>) {
    FilesOk(fs) && forall i, j :: 0 <= i < j < |fs| ==> Newer(fs[i], fs[j])
  }

  lemma {:induction false} FilesEntriesCons(fs: seq<File>)
    requires fs != []
    ensures FilesEntries(fs) == Elems(fs[0].entries) + FilesEntries(fs[1..])
  {
    assert fs == [fs[0]] + fs[1..];
    forall e | e in FilesEntries(fs)
      ensures e in Elems(fs[0].entries) + FilesEntries(fs[1..])
    {
      var i :| 0 <= i < |fs| && e in fs[i].entries;
      if i > 0 {
        assert fs[1..][i - 1] == fs[i];
      }
    }
  }

  lemma {:induction false} AgeOrderedDistinct(fs: seq<File>)
    requires AgeOrdered(fs)
    ensures Distinct(FilesEntries(fs))
  {
    if fs != [] {
      AgeOrderedDistinct(fs[1..]);
      FilesEntriesCons(fs);
      assert FileOk(fs[0]);
      SortedDistinct(fs[0].entries);
      AgeOrderedAbove(fs);
    }
  }

  lemma AgeOrderedAbove(fs: seq<File>)
    requires AgeOrdered(fs) && fs != []
    ensures Above(Elems(fs[0].entries), FilesEntries(fs[1..]))
  {
    forall a, b | a in Elems(fs[0].entries) && b in FilesEntries(fs[1..]) && a.key.user == b.key.user
      ensures a.key.sn > b.key.sn
    {
      var j :| 0 <= j < |fs[1..]| && b in fs[1..][j].entries;
      assert Newer(fs[0], fs[j + 1]);
    }
  }

  /** The first file, newest first, that has an answer decides the lookup. */
  lemma AgeOrderedLook(fs: seq<File>, user: UserKey, s: nat)
    requires AgeOrdered(fs) && fs != []
    ensures Look(FilesEntries(fs), user, s)
         == var l := RunGet(fs[0].entries, user, s);
            if l.Absent? then Look(FilesEntries(fs[1..]), user, s) else l
  {
    assert FileOk(fs[0]);
    AgeOrderedDistinct(fs);
    AgeOrderedAbove(fs);
    FilesEntriesCons(fs);
    LookLayers(Elems(fs[0].entries), FilesEntries(fs[1..]), user, s);
    RunGetIsScan(fs[0].entries, user, s);
  }

  lemma SpannedLook(fs: seq<File>, tmp: seq<File>, user: UserKey, s: nat)
    requires LevelOk(0, fs)
    requires forall f :: f in tmp <==> f in fs && SpansUser(f, user)
    ensures Look(FilesEntries(tmp), user, s) == Look(FilesEntries(fs), user, s)
  {
    var S, T := FilesEntries(fs), FilesEntries(tmp);
    forall x | x in S && x.key.user == user
      ensures x in T
    {
      var f :| f in fs && x in f.entries;
      EntryInRange(f, x);
    }
    LevelDistinct(0, fs);
    if x :| x in S && x.key.user == user && x.key.sn <= s {
      var e := NewestExists(S, user, s, x);
      assert Newest(T, user, s, e);
      assert Distinct(T);
      LookIs(S, user, s, e);
      LookIs(T, user, s, e);
    } else {
      LookAbsent(S, user, s);
      LookAbsent(T, user, s);
    }
  }

  method GetLevel0(fs: seq<File>, user: UserKey, s: nat) returns (r: Lookup)
    requires LevelOk(0, fs)
    ensures r == Look(FilesEntries(fs), user, s)
  {
    var tmp: seq<File> := [];
    for i := 0 to |fs|
      invariant forall f :: f in tmp <==> f in fs[..i] && SpansUser(f, user)
      invariant NumbersDiffer(tmp)
    {
      var f := fs[i];
      assert fs[..i + 1] == fs[..i] + [f];
      if f.smallest.user <= user && user <= f.largest.user {
        forall a | 0 <= a < |tmp|
          ensures tmp[a].number != f.number
        {
          assert tmp[a] in fs[..i];
        }
        tmp := tmp + [f];
      }
    }
    assert fs[..|fs|] == fs;
    SpannedLook(fs, tmp, user, s);
    var sorted := NewestFirst(tmp);
    SortedIsAgeOrdered(fs, tmp, sorted);
    r := Absent;
    var i := 0;
    while i < |sorted|
      invariant i <= |sorted| && r == Absent
      invariant Look(FilesEntries(sorted), user, s) == Look(FilesEntries(sorted[i..]), user, s)
    {
      AgeOrderedLook(sorted[i..], user, s);
      assert sorted[i..][1..] == sorted[i + 1..];
      r := RunGet(sorted[i].entries, user, s);
      if !r.Absent? {
        return;
      }
      i := i + 1;
    }
    LookAbsent(FilesEntries([]), user, s);
    assert sorted[i..] == [];
  }

  lemma SortedIsAgeOrdered(fs: seq<File>, tmp: seq<File>, sorted: seq<File>)
    requires LevelOk(0, fs)
    requires forall f :: f in tmp ==> f in fs
    requires NumbersDiffer(tmp)
    requires sorted == NewestFirst(tmp)
    ensures AgeOrdered(sorted) && FilesEntries(sorted) == FilesEntries(tmp)
  {
    forall i, j | 0 <= i < j < |sorted|
      ensures Newer(sorted[i], sorted[j])
    {
      assert sorted[i] in fs && sorted[j] in fs;
    }
  }

  /** Version::Get: newest-first level 0, then one binary-searched file per level, stopping early. */
  method Get(v: Version, user: UserKey, s: nat) returns (r: Lookup)
    requires LsmOk(v)
    ensures r == Look(Entries(v), user, s)
  {
    r := GetLevel0(v.levels[0], user, s);
    StopOrGoOn(v, 0, user, s);
    if !r.Absent? {
      return;
    }
    var level := 1;
    while level < NUM_LEVELS
      invariant 1 <= level <= NUM_LEVELS && r == Absent
      invariant Look(Entries(v), user, s) == Look(EntriesFrom(v, level), user, s)
    {
      var fs := v.levels[level];
      assert LevelOk(level, fs);
      var index := FindFile(fs, SeekKey(user, s));
      StopOrGoOn(v, level, user, s);
      if index < |fs| && fs[index].smallest.user <= user {
        LevelSearched(fs, index, user, s);
        r := RunGet(fs[index].entries, user, s);
        if !r.Absent? {
          return;
        }
      } else {
        LevelSkipped(fs, index, user, s);
      }
      level := level + 1;
    }
    LookAbsent(EntriesFrom(v, NUM_LEVELS), user, s);
  }

  lemma StopOrGoOn(v: Version, level: nat, user: UserKey, s: nat)
    requires LsmOk(v) && level < NUM_LEVELS
    ensures Look(EntriesFrom(v, level), user, s)
         == var l := Look(FilesEntries(v.levels[level]), user, s);
            if l.Absent? then Look(EntriesFrom(v, level + 1), user, s) else l
  {
    EntriesFromDistinct(v, level);
    LevelAboveRest(v, level, level + 1);
    LookLayers(FilesEntries(v.levels[level]), EntriesFrom(v, level + 1), user, s);
  }
}
