/**
 * Bookkeeping of the search driver: how many query threads a batch gets,
 * and how the query files' batches are numbered one after the other.
 */
module QueryDriver {

  import opened Common

  /**
   * The query threads of a batch: the configured threads minus the active
   * scheduler threads, raised to at least max(1, threads * 3 / 4). The count
   * is at least one, at least three quarters of the configured threads, and
   * is one of the two bounds.
   */
  function QueryThreads(threads: nat, active: nat): (r: int)
    ensures r >= 1 && r >= threads * 3 / 4 && r >= threads - active
    ensures r == threads - active || r == Max(1, threads * 3 / 4)
  {
    var minthreads := Max(1, threads * 3 / 4);
    Max(threads - active, minthreads)
  }

  /** The sum of the counts. */
  function SumOf(xs: seq<nat>): nat
  {
    if xs == [] then 0 else SumOf(xs[..|xs| - 1]) + xs[|xs| - 1]
  }

  lemma SumStep(xs: seq<nat>, k: nat, next: nat)
    requires next == k + 1 && next <= |xs|
    ensures SumOf(xs[..next]) == SumOf(xs[..k]) + xs[k]
  {
    assert xs[..next][..k] == xs[..k];
  }

  /** Prefix sums never decrease: the prefix of length i sums to at most the prefix of length j. */
  lemma {:induction false} SumMono(xs: seq<nat>, i: nat, j: nat)
    requires i <= j <= |xs|
    ensures SumOf(xs[..i]) <= SumOf(xs[..j])
    decreases j - i
  {
    if i < j {
      var prev := j - 1;
      SumMono(xs, i, prev);
      SumStep(xs, prev, j);
    }
  }

  /**
   * The file that batch k (counted from the first file's first batch)
   * belongs to: the one whose batches start at or before k and end after it.
   */
  function FileOfBatch(nqchunks: seq<nat>, k: nat): (fid: nat)
    requires k < SumOf(nqchunks)
    ensures fid < |nqchunks|
    ensures SumOf(nqchunks[..fid]) <= k < SumOf(nqchunks[..fid]) + nqchunks[fid]
    decreases |nqchunks|
  {
    var last := |nqchunks| - 1;
    var front := nqchunks[..last];
    assert nqchunks[..|nqchunks|] == nqchunks;
    if k < SumOf(front) then
      var fid := FileOfBatch(front, k);
      assert front[..fid] == nqchunks[..fid];
      fid
    else
      last
  }

  /** The batches of an earlier file end before those of a later file start. */
  lemma FileBatchesDisjoint(nqchunks: seq<nat>, f1: nat, f2: nat)
    requires f1 < f2 < |nqchunks|
    ensures SumOf(nqchunks[..f1]) + nqchunks[f1] <= SumOf(nqchunks[..f2])
  {
    var next := f1 + 1;
    SumStep(nqchunks, f1, next);
    SumMono(nqchunks, next, f2);
  }

  /**
   * Numbers the batches of the query files: file fid's batches start where
   * those of file fid - 1 end, nBatches is where the last file's batches end,
   * and dssize gains every file's spectrum count. currChunk[0] is the first
   * file's start as its initialisation left it; the source reads file 0
   * unconditionally, so at least one file is required.
   */
  method InitializeBatches(nqchunks: seq<nat>, qacount: seq<nat>, currChunk: array<nat>, dssize0: int)
    returns (nBatches: nat, dssize: int)
    requires |nqchunks| >= 1 && |qacount| == |nqchunks| && currChunk.Length == |nqchunks|
    modifies currChunk
    ensures forall fid :: 0 <= fid < currChunk.Length ==> currChunk[fid] == old(currChunk[0]) + SumOf(nqchunks[..fid])
    ensures nBatches == old(currChunk[0]) + SumOf(nqchunks)
    ensures dssize == dssize0 + SumOf(qacount)
  {
    var nfiles := |nqchunks|;
    ghost var start := currChunk[0];
    assert nqchunks[..0] == [] && qacount[..0] == [];
    SumStep(qacount, 0, 1);
    dssize := dssize0 + qacount[0];
    var fid := 1;
    while fid < nfiles
      invariant 1 <= fid <= nfiles
      invariant forall j :: 0 <= j < fid ==> currChunk[j] == start + SumOf(nqchunks[..j])
      invariant dssize == dssize0 + SumOf(qacount[..fid])
    {
      var prev := fid - 1;
      var next := fid + 1;
      SumStep(nqchunks, prev, fid);
      SumStep(qacount, fid, next);
      currChunk[fid] := currChunk[prev] + nqchunks[prev];
      dssize := dssize + qacount[fid];
      fid := next;
    }
    var last := nfiles - 1;
    SumStep(nqchunks, last, nfiles);
    assert nqchunks[..nfiles] == nqchunks && qacount[..nfiles] == qacount;
    nBatches := currChunk[last] + nqchunks[last];
  }
}
