/** The edits made by flushes, trivial moves and merge compactions, and their effect on a version. */
module EngineEdits {
  import opened Wrappers
  import opened Keys
  import opened Lsm
  import opened InputSelection
  import opened CompactionInstall
  import opened Edits
  import M = Manifest
  import LsmSteps

  function FlushEdit(level: nat, f: File, c: M.Counters): M.Edit {
    M.Edit({}, [(level, f)], [], Some(c))
  }

  /** The next compaction of the level starts after the inputs of this one. */
  function Pointer(level: nat, in0: seq<File>): seq<(nat, InternalKey)> {
    if in0 == [] then [] else [(level, LargestOf(in0))]
  }

  function MoveEdit(level: nat, f: File, c: M.Counters): M.Edit {
    M.Edit({(level, f.number)}, [(level + 1, f)], Pointer(level, [f]), Some(c))
  }

  /** Deletions of the input files of one level. */
  function Removals(level: nat, fs: seq<File>): (r: set<(nat, nat)>)
    ensures forall d :: d in r <==> d.0 == level && exists f :: f in fs && f.number == d.1
  {
    set f | f in fs :: (level, f.number)
  }

  function CompactionEdit(level: nat, in0: seq<File>, in1: seq<File>, outputs: seq<File>, c: M.Counters): M.Edit {
    M.Edit(Removals(level, in0) + Removals(level + 1, in1), Tagged(level + 1, outputs), Pointer(level, in0), Some(c))
  }

  // ---------------------------------------------------------- effect on v

  lemma UntouchedLevel(v: Version, e: M.Edit, v2: Version, l: nat)
    requires AllOrdered(v) && Applied(v, e, v2) && l < NUM_LEVELS
    requires M.DeletedAt(e, l) == {} && M.AddedAt(e, l) == {}
    ensures v2.levels[l] == v.levels[l]
  {
    assert Files(v2.levels[l]) == Files(v.levels[l]);
    M.OrderedUnique(v2.levels[l], v.levels[l]);
  }

  lemma FlushAdds(v: Version, level: nat, f: File, c: M.Counters, v2: Version)
    requires AllOrdered(v) && level < NUM_LEVELS && Applied(v, FlushEdit(level, f, c), v2)
    ensures LsmSteps.AddsFile(v, level, f, v2)
  {
    var e := FlushEdit(level, f, c);
    assert M.DeletedAt(e, level) == {};
    assert (level, f) in e.added;
    assert M.AddedAt(e, level) == {f};
    forall l | 0 <= l < NUM_LEVELS && l != level
      ensures v2.levels[l] == v.levels[l]
    {
      assert M.AddedAt(e, l) == {} && M.DeletedAt(e, l) == {};
      UntouchedLevel(v, e, v2, l);
    }
  }

  lemma RemovedFiles(fs: seq<File>, gone: seq<File>, numbers: set<nat>)
    requires UniqueNumbers(Files(fs)) && forall f :: f in gone ==> f in fs
    requires forall n :: n in numbers <==> exists f :: f in gone && f.number == n
    ensures M.Survivors(Files(fs), numbers, {}) == Files(fs) - Files(gone)
  {
    forall f | f in fs
      ensures f.number in numbers <==> f in gone
    {
      if f.number in numbers {
        var g :| g in gone && g.number == f.number;
        assert f in Files(fs) && g in Files(fs);
      }
    }
  }

  lemma ReplacedFiles(fs: seq<File>, gone: seq<File>, numbers: set<nat>, added: set<File>)
    requires UniqueNumbers(Files(fs)) && forall f :: f in gone ==> f in fs
    requires forall n :: n in numbers <==> exists f :: f in gone && f.number == n
    requires forall f :: f in added ==> f.number !in numbers
    ensures M.Survivors(Files(fs), numbers - M.Numbers(added), added) == Files(fs) - Files(gone) + added
  {
    RemovedFiles(fs, gone, numbers);
    assert numbers - M.Numbers(added) == numbers;
    assert M.Survivors(Files(fs), numbers, added) == M.Survivors(Files(fs), numbers, {}) + added;
  }

  lemma CompactionRemovals(level: nat, in0: seq<File>, in1: seq<File>, outputs: seq<File>, c: M.Counters, l: nat,
                           n: nat)
    ensures n in M.DeletedAt(CompactionEdit(level, in0, in1, outputs, c), l)
       <==> (l == level && exists f :: f in in0 && f.number == n)
            || (l == level + 1 && exists f :: f in in1 && f.number == n)
  {
    var e := CompactionEdit(level, in0, in1, outputs, c);
    assert n in M.DeletedAt(e, l) <==> (l, n) in e.deleted;
  }

  lemma TaggedAdds(level: nat, fs: seq<File>, l: nat)
    ensures M.AddedAmong(Tagged(level, fs), l) == if l == level then Files(fs) else {}
  {
    forall f
      ensures f in M.AddedAmong(Tagged(level, fs), l) <==> l == level && f in fs
    {
      assert f in M.AddedAmong(Tagged(level, fs), l) <==> (l, f) in Tagged(level, fs);
    }
  }

  /** Outputs with numbers the version does not use. */
  ghost predicate FreshNumbers(v: Version, outputs: seq<File>) {
    forall l: nat, f :: f in outputs ==> !At(v, l, f.number)
  }

  lemma CompactionInstalls(v: Version, next: nat, level: nat, in0: seq<File>, in1: seq<File>, outputs: seq<File>,
                           c: M.Counters, v2: Version)
    requires AllOrdered(v) && NumbersOk(v, next) && level + 1 < NUM_LEVELS
    requires (forall f :: f in in0 ==> f in v.levels[level]) && forall f :: f in in1 ==> f in v.levels[level + 1]
    requires FreshNumbers(v, outputs) && Applied(v, CompactionEdit(level, in0, in1, outputs, c), v2)
    ensures Installs(v, level, in0, in1, outputs, v2)
  {
    var e := CompactionEdit(level, in0, in1, outputs, c);
    forall l: nat | l < NUM_LEVELS
      ensures M.AddedAt(e, l) == if l == level + 1 then Files(outputs) else {}
    {
      TaggedAdds(level + 1, outputs, l);
    }
    forall l: nat, n: nat
      ensures n in M.DeletedAt(e, l)
         <==> (l == level && exists f :: f in in0 && f.number == n)
              || (l == level + 1 && exists f :: f in in1 && f.number == n)
    {
      CompactionRemovals(level, in0, in1, outputs, c, l, n);
    }
    forall l | 0 <= l < NUM_LEVELS && l != level && l != level + 1
      ensures v2.levels[l] == v.levels[l]
    {
      assert M.DeletedAt(e, l) == {};
      UntouchedLevel(v, e, v2, l);
    }
    ReplacedFiles(v.levels[level], in0, M.DeletedAt(e, level), {});
    assert Files(v2.levels[level]) == Files(v.levels[level]) - Files(in0) + {};
    forall f | f in Files(outputs)
      ensures f.number !in M.DeletedAt(e, level + 1)
    {
      assert !At(v, level + 1, f.number);
    }
    ReplacedFiles(v.levels[level + 1], in1, M.DeletedAt(e, level + 1), Files(outputs));
  }

  lemma MoveInstalls(v: Version, next: nat, level: nat, f: File, c: M.Counters, v2: Version)
    requires AllOrdered(v) && NumbersOk(v, next) && level + 1 < NUM_LEVELS && f in v.levels[level]
    requires Applied(v, MoveEdit(level, f, c), v2)
    ensures Installs(v, level, [f], [], [f], v2)
  {
    var e := MoveEdit(level, f, c);
    assert At(v, level, f.number);
    assert (level + 1, f) in e.added && (level, f.number) in e.deleted;
    forall l: nat | l < NUM_LEVELS
      ensures M.AddedAt(e, l) == (if l == level + 1 then {f} else {})
      ensures M.DeletedAt(e, l) == (if l == level then {f.number} else {})
    {
    }
    forall l | 0 <= l < NUM_LEVELS && l != level && l != level + 1
      ensures v2.levels[l] == v.levels[l]
    {
      UntouchedLevel(v, e, v2, l);
    }
    assert Files([f]) == {f} && Files([]) == {};
    ReplacedFiles(v.levels[level], [f], {f.number}, {});
    ReplacedFiles(v.levels[level + 1], [], {}, {f});
  }

  // ------------------------------------------------- the number discipline

  lemma FlushFits(v: Version, level: nat, f: File, c: M.Counters, next: nat)
    requires level < NUM_LEVELS && f.number == next
    ensures EditFits(v, FlushEdit(level, f, c), next, next + 1)
  {
  }

  lemma MoveFits(v: Version, level: nat, f: File, c: M.Counters, next: nat)
    requires level + 1 < NUM_LEVELS == |v.levels| && f in v.levels[level]
    ensures EditFits(v, MoveEdit(level, f, c), next, next)
  {
    assert At(v, level, f.number);
  }

  lemma CompactionFits(v: Version, level: nat, in0: seq<File>, in1: seq<File>, outputs: seq<File>, c: M.Counters,
                       next: nat)
    requires level + 1 < NUM_LEVELS == |v.levels|
    requires (forall f :: f in in0 ==> f in v.levels[level]) && forall f :: f in in1 ==> f in v.levels[level + 1]
    requires forall i :: 0 <= i < |outputs| ==> outputs[i].number == next + i
    ensures EditFits(v, CompactionEdit(level, in0, in1, outputs, c), next, next + |outputs|)
  {
    var e := CompactionEdit(level, in0, in1, outputs, c);
    forall d | d in e.deleted
      ensures d.0 < NUM_LEVELS && At(v, d.0, d.1)
    {
    }
  }
}
