/** Sorted runs of entries: insertion, merging, and their uniqueness. */
module SortedRuns {
  import opened Keys

  /** A sorted run is determined by its set of entries. */
  lemma {:induction false} SortedUnique(a: seq<Entry>, b: seq<Entry>)
    requires Sorted(a) && Sorted(b) && Elems(a) == Elems(b)
    ensures a == b
  {
    assert a != [] ==> a[0] in Elems(b);
    assert b != [] ==> b[0] in Elems(a);
    if a != [] {
      HeadFirst(a, b[0]);
      HeadFirst(b, a[0]);
      TailElems(a);
      TailElems(b);
      SortedUnique(a[1..], b[1..]);
      assert a == [a[0]] + a[1..] && b == [b[0]] + b[1..];
    }
  }

  lemma HeadFirst(a: seq<Entry>, x: Entry)
    requires Sorted(a) && x in a
    ensures x == a[0] || Before(a[0].key, x.key)
  {
  }

  lemma TailElems(a: seq<Entry>)
    requires Sorted(a) && a != []
    ensures Elems(a[1..]) == Elems(a) - {a[0]}
  {
    assert a == [a[0]] + a[1..];
    forall i | 0 <= i < |a[1..]|
      ensures a[1..][i] != a[0]
    {
      assert Before(a[0].key, a[i + 1].key);
    }
  }

  /** Adds an entry to a sorted run, as the skip list does. */
  function Insert(es: seq<Entry>, e: Entry): (r: seq<Entry>)
    ensures Elems(r) == Elems(es) + {e}
  {
    if es == [] then [e]
    else if Less(e.key, es[0].key) then [e] + es
    else
      assert es == [es[0]] + es[1..];
      var rest := Insert(es[1..], e);
      assert Elems([es[0]] + rest) == {es[0]} + Elems(rest);
      [es[0]] + rest
  }

  /** What is inserted behind the first entry of a run stays behind it. */
  lemma InsertedBehind(es: seq<Entry>, e: Entry, first: Entry)
    requires forall i :: 0 <= i < |es| ==> Before(first.key, es[i].key)
    requires Before(first.key, e.key)
    ensures forall i :: 0 <= i < |Insert(es, e)| ==> Before(first.key, Insert(es, e)[i].key)
  {
    var r := Insert(es, e);
    forall i | 0 <= i < |r|
      ensures Before(first.key, r[i].key)
    {
      assert r[i] in Elems(r);
    }
  }

  lemma {:induction false} InsertSorted(es: seq<Entry>, e: Entry)
    requires Sorted(es) && Distinct(Elems(es) + {e}) && e !in es
    ensures Sorted(Insert(es, e))
  {
    if es != [] {
      assert Distinct({es[0], e});
      if Less(e.key, es[0].key) {
        assert Before(e.key, es[0].key);
      } else {
        assert Elems(es[1..]) <= Elems(es);
        InsertSorted(es[1..], e);
        InsertedBehind(es[1..], e, es[0]);
      }
    }
  }

  /** Merges two sorted runs into one. */
  function MergeTwo(a: seq<Entry>, b: seq<Entry>): (r: seq<Entry>)
    ensures Elems(r) == Elems(a) + Elems(b)
    decreases |a| + |b|
  {
    if a == [] then b
    else if b == [] then a
    else if Less(b[0].key, a[0].key) then
      assert b == [b[0]] + b[1..];
      var rest := MergeTwo(a, b[1..]);
      assert Elems([b[0]] + rest) == {b[0]} + Elems(rest);
      [b[0]] + rest
    else
      assert a == [a[0]] + a[1..];
      var rest := MergeTwo(a[1..], b);
      assert Elems([a[0]] + rest) == {a[0]} + Elems(rest);
      [a[0]] + rest
  }

  /** No entry of the first run ties with an entry of the second. */
  ghost predicate Apart(a: seq<Entry>, b: seq<Entry>) {
    forall x, y :: x in a && y in b ==> x.key.user != y.key.user || x.key.sn != y.key.sn
  }

  lemma FirstBefore(e: Entry, rest: seq<Entry>)
    requires Sorted(rest) && forall x :: x in rest ==> Before(e.key, x.key)
    ensures Sorted([e] + rest)
  {
    var r := [e] + rest;
    forall i, j | 0 <= i < j < |r|
      ensures Before(r[i].key, r[j].key)
    {
      assert r[j] in rest;
    }
  }

  lemma {:induction false} MergeTwoSorted(a: seq<Entry>, b: seq<Entry>)
    requires Sorted(a) && Sorted(b) && Apart(a, b)
    ensures Sorted(MergeTwo(a, b))
    decreases |a| + |b|
  {
    if a != [] && b != [] {
      if Less(b[0].key, a[0].key) {
        assert a[0] in a && b[0] in b;
        assert Before(b[0].key, a[0].key);
        MergeTwoSorted(a, b[1..]);
        var rest := MergeTwo(a, b[1..]);
        forall x | x in rest
          ensures Before(b[0].key, x.key)
        {
          MergedAfter(b[0], a, b, x, rest);
        }
        FirstBefore(b[0], rest);
      } else {
        MergeTwoSorted(a[1..], b);
        var rest := MergeTwo(a[1..], b);
        forall x | x in rest
          ensures Before(a[0].key, x.key)
        {
          assert a[0] in a && b[0] in b;
          assert Before(a[0].key, b[0].key);
          MergedAfter(a[0], b, a, x, rest);
        }
        FirstBefore(a[0], rest);
      }
    }
  }

  lemma MergedAfter(e: Entry, a: seq<Entry>, b: seq<Entry>, x: Entry, rest: seq<Entry>)
    requires Sorted(a) && Sorted(b) && a != [] && b != [] && b[0] == e && x in rest
    requires Elems(rest) == Elems(a) + Elems(b[1..])
    requires Before(e.key, a[0].key)
    ensures Before(e.key, x.key)
  {
    assert x in Elems(rest);
    assert a[0] in a && b[0] in b;
    if x in a {
      var i :| 0 <= i < |a| && a[i] == x;
      assert i == 0 || Before(a[0].key, a[i].key);
    } else {
      var i :| 0 <= i < |b[1..]| && b[1..][i] == x;
      assert Before(b[0].key, b[i + 1].key);
    }
  }

  ghost function RunsElems(runs: seq<seq<Entry>>): set<Entry> {
    set r, e | r in runs && e in r :: e
  }

  ghost predicate RunsApart(runs: seq<seq<Entry>>) {
    forall i, j :: 0 <= i < j < |runs| ==> Apart(runs[i], runs[j])
  }

  ghost predicate RunsSorted(runs: seq<seq<Entry>>) {
    forall r :: r in runs ==> Sorted(r)
  }

  /** The merge of any number of sorted runs. */
  function Merged(runs: seq<seq<Entry>>): (r: seq<Entry>)
    ensures Elems(r) == RunsElems(runs)
  {
    if runs == [] then [] else
      assert runs == [runs[0]] + runs[1..];
      MergeTwo(runs[0], Merged(runs[1..]))
  }

  lemma {:induction false} MergedSorted(runs: seq<seq<Entry>>)
    requires RunsSorted(runs) && RunsApart(runs)
    ensures Sorted(Merged(runs))
  {
    if runs != [] {
      MergedSorted(runs[1..]);
      forall x, y | x in runs[0] && y in Merged(runs[1..])
        ensures x.key.user != y.key.user || x.key.sn != y.key.sn
      {
        assert y in Elems(Merged(runs[1..]));
        var j :| 0 <= j < |runs[1..]| && y in runs[1..][j];
        assert Apart(runs[0], runs[j + 1]);
      }
      MergeTwoSorted(runs[0], Merged(runs[1..]));
    }
  }
}
