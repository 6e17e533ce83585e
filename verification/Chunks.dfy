/** How n items are divided among nthreads workers: equal shares, rounded down, and the last
    worker takes what is left over. */
module Chunks {

  /** First item of worker t; worker nthreads stands for the end. */
  function ChunkStart(n: nat, nthreads: nat, t: nat): (r: nat)
    requires nthreads >= 1 && t <= nthreads
    ensures r <= n
  {
    if t == nthreads then n else (ShareFits(n, nthreads, t); t * (n / nthreads))
  }

  function ChunkLength(n: nat, nthreads: nat, t: nat): (r: nat)
    requires t < nthreads
    ensures ChunkStart(n, nthreads, t) + r == ChunkStart(n, nthreads, t + 1)
  {
    if t == nthreads - 1 then n - ChunkStart(n, nthreads, t)
    else (ShareNext(n / nthreads, t); n / nthreads)
  }

  lemma ShareFits(n: nat, nthreads: nat, t: nat)
    requires nthreads >= 1 && t <= nthreads
    ensures 0 <= t * (n / nthreads) <= n
  {
    assert (nthreads - t) * (n / nthreads) >= 0;
    assert nthreads * (n / nthreads) == t * (n / nthreads) + (nthreads - t) * (n / nthreads);
  }

  lemma ShareNext(share: nat, t: nat)
    ensures t * share + share == (t + 1) * share
  {
  }

  lemma {:induction false} ChunksAscend(n: nat, nthreads: nat, t: nat, u: nat)
    requires nthreads >= 1 && t <= u <= nthreads
    ensures ChunkStart(n, nthreads, t) <= ChunkStart(n, nthreads, u)
    decreases u
  {
    if t < u {
      ChunksAscend(n, nthreads, t, u - 1);
      var share := ChunkLength(n, nthreads, u - 1);
    }
  }

  /** All workers but the last get the same, and the last no less, but at most one item more for
      every other worker. */
  lemma FairShares(n: nat, nthreads: nat, t: nat)
    requires t < nthreads
    ensures var share := ChunkLength(n, nthreads, 0);
            if t < nthreads - 1 then ChunkLength(n, nthreads, t) == share
            else if t > 0 then share <= ChunkLength(n, nthreads, t) <= share + nthreads - 1
            else ChunkLength(n, nthreads, t) == n
  {
    var share := n / nthreads;
    ShareNext(share, nthreads - 1);
    assert nthreads * share <= n < nthreads * share + nthreads;
  }

  /** Every item has exactly one worker. */
  lemma {:induction false} OwnerOf(n: nat, nthreads: nat, i: nat, bound: nat) returns (t: nat)
    requires 1 <= bound <= nthreads && i < ChunkStart(n, nthreads, bound)
    ensures t < bound && ChunkStart(n, nthreads, t) <= i < ChunkStart(n, nthreads, t) + ChunkLength(n, nthreads, t)
  {
    if ChunkStart(n, nthreads, bound - 1) <= i {
      t := bound - 1;
    } else {
      t := OwnerOf(n, nthreads, i, bound - 1);
    }
  }

  lemma OneOwner(n: nat, nthreads: nat, t: nat, u: nat, i: nat)
    requires t < nthreads && u < nthreads
    requires ChunkStart(n, nthreads, t) <= i < ChunkStart(n, nthreads, t) + ChunkLength(n, nthreads, t)
    requires ChunkStart(n, nthreads, u) <= i < ChunkStart(n, nthreads, u) + ChunkLength(n, nthreads, u)
    ensures t == u
  {
    if t < u { ChunksAscend(n, nthreads, t + 1, u); }
    if u < t { ChunksAscend(n, nthreads, u + 1, t); }
  }
}
