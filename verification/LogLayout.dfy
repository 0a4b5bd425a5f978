/** Where physical log records lie in a file: none crosses a block, short block tails are zeros. */
module LogLayout {
  import opened PbVarints

  const BLOCK_SIZE: nat := 32768
  const HEADER_SIZE: nat := 7

  /** Where the next record starts when the file ends at `p`: a tail too short for a header is skipped. */
  function Start(p: nat): (q: nat)
    ensures p <= q < p + HEADER_SIZE && (q == p || q % BLOCK_SIZE == 0)
    ensures BLOCK_SIZE - q % BLOCK_SIZE >= HEADER_SIZE
  {
    var leftover := BLOCK_SIZE - p % BLOCK_SIZE;
    if leftover < HEADER_SIZE then
      NextBlock(p);
      p + leftover
    else p
  }

  lemma NextBlock(p: nat)
    ensures (p + (BLOCK_SIZE - p % BLOCK_SIZE)) % BLOCK_SIZE == 0
  {
    assert p == p / BLOCK_SIZE * BLOCK_SIZE + p % BLOCK_SIZE;
    assert p + (BLOCK_SIZE - p % BLOCK_SIZE) == (p / BLOCK_SIZE + 1) * BLOCK_SIZE;
  }

  function Zeros(n: nat): (r: seq<byte>)
    ensures |r| == n
  {
    seq(n, i => 0)
  }

  /** Where the file ends after the first `k` physical records. */
  ghost function Pos(ps: seq<seq<byte>>, k: nat): nat
    requires k <= |ps|
  {
    if k == 0 then 0 else Start(Pos(ps, k - 1)) + |ps[k - 1]|
  }

  /** The file after the first `k` physical records. */
  ghost function FileTo(ps: seq<seq<byte>>, k: nat): (r: seq<byte>)
    requires k <= |ps|
    ensures |r| == Pos(ps, k)
  {
    if k == 0 then [] else FileTo(ps, k - 1) + Zeros(Start(Pos(ps, k - 1)) - Pos(ps, k - 1)) + ps[k - 1]
  }

  ghost function File(ps: seq<seq<byte>>): seq<byte> {
    FileTo(ps, |ps|)
  }

  /** Record `k` has room for a header and stays within one block. */
  ghost predicate Fits(ps: seq<seq<byte>>, k: nat)
    requires k < |ps|
  {
    HEADER_SIZE <= |ps[k]| && Start(Pos(ps, k)) % BLOCK_SIZE + |ps[k]| <= BLOCK_SIZE
  }

  ghost predicate AllFit(ps: seq<seq<byte>>) {
    forall k :: 0 <= k < |ps| ==> Fits(ps, k)
  }

  lemma {:induction false} FilePrefix(ps: seq<seq<byte>>, i: nat, k: nat)
    requires i <= k <= |ps|
    ensures FileTo(ps, i) <= FileTo(ps, k) && Pos(ps, i) <= Pos(ps, k)
    decreases k
  {
    if i < k {
      FilePrefix(ps, i, k - 1);
    }
  }

  /** The bytes of record `k` in the file. */
  lemma RecordAt(ps: seq<seq<byte>>, k: nat)
    requires k < |ps|
    ensures Pos(ps, k + 1) == Start(Pos(ps, k)) + |ps[k]| <= |File(ps)|
    ensures File(ps)[Start(Pos(ps, k))..Pos(ps, k + 1)] == ps[k]
  {
    FilePrefix(ps, k + 1, |ps|);
    var a := FileTo(ps, k + 1);
    assert a[Start(Pos(ps, k))..] == ps[k];
    assert File(ps)[..|a|] == a;
  }

  lemma {:induction false} PrefixSame(ps: seq<seq<byte>>, qs: seq<seq<byte>>, k: nat)
    requires k <= |ps| && ps <= qs
    ensures Pos(qs, k) == Pos(ps, k) && FileTo(qs, k) == FileTo(ps, k)
  {
    if k > 0 {
      PrefixSame(ps, qs, k - 1);
    }
  }

  /** Appending a record to the list appends padding and the record to the file. */
  lemma FileSnoc(ps: seq<seq<byte>>, p: seq<byte>)
    ensures File(ps + [p]) == File(ps) + Zeros(Start(|File(ps)|) - |File(ps)|) + p
    ensures AllFit(ps) && HEADER_SIZE <= |p| && Start(|File(ps)|) % BLOCK_SIZE + |p| <= BLOCK_SIZE ==> AllFit(ps + [p])
  {
    PrefixSame(ps, ps + [p], |ps|);
    forall k | 0 <= k < |ps| && Fits(ps, k)
      ensures Fits(ps + [p], k)
    {
      PrefixSame(ps, ps + [p], k);
    }
  }
}
