/** Sequences of sequences, end to end. */
module Sequences {

  /** The first `n` blocks, end to end. */
  function Joined<T>(blocks: seq<seq<T>>, n: nat): seq<T>
    requires n <= |blocks|
  {
    if n == 0 then [] else Joined(blocks, n - 1) + blocks[n - 1]
  }

  function All<T>(blocks: seq<seq<T>>): seq<T> {
    Joined(blocks, |blocks|)
  }

  lemma {:induction false} JoinedPrefix<T>(blocks: seq<seq<T>>, i: nat, n: nat)
    requires i <= n <= |blocks|
    ensures Joined(blocks, i) <= Joined(blocks, n)
    decreases n
  {
    if i < n {
      JoinedPrefix(blocks, i, n - 1);
    }
  }

  /** Entry `j` of block `i` follows all earlier blocks. */
  lemma JoinedAt<T>(blocks: seq<seq<T>>, i: nat)
    requires i < |blocks|
    ensures |Joined(blocks, i + 1)| == |Joined(blocks, i)| + |blocks[i]| <= |All(blocks)|
    ensures forall j :: 0 <= j < |blocks[i]| ==> All(blocks)[|Joined(blocks, i)| + j] == blocks[i][j]
  {
    JoinedPrefix(blocks, i + 1, |blocks|);
    var step := Joined(blocks, i + 1);
    assert forall j :: 0 <= j < |step| ==> All(blocks)[j] == step[j];
  }

  /** Which block a place belongs to. */
  lemma {:induction false} BlockOf<T>(blocks: seq<seq<T>>, n: nat, q: nat) returns (i: nat, j: nat)
    requires n <= |blocks| && q < |Joined(blocks, n)|
    ensures i < n && j < |blocks[i]| && q == |Joined(blocks, i)| + j
    decreases n
  {
    if q < |Joined(blocks, n - 1)| {
      i, j := BlockOf(blocks, n - 1, q);
    } else {
      i, j := n - 1, q - |Joined(blocks, n - 1)|;
    }
  }

  lemma JoinedMonotone<T>(blocks: seq<seq<T>>, i: nat, k: nat)
    requires i <= k <= |blocks|
    ensures |Joined(blocks, i)| <= |Joined(blocks, k)|
  {
    JoinedPrefix(blocks, i, k);
  }

  lemma {:induction false} JoinedSame<T>(blocks: seq<seq<T>>, b: seq<T>, n: nat)
    requires n <= |blocks|
    ensures Joined(blocks + [b], n) == Joined(blocks, n)
  {
    if n > 0 {
      JoinedSame(blocks, b, n - 1);
    }
  }

  lemma AllSnoc<T>(blocks: seq<seq<T>>, b: seq<T>)
    ensures All(blocks + [b]) == All(blocks) + b
  {
    JoinedSame(blocks, b, |blocks|);
  }
}
