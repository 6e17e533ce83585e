/** RadixPartitioner::realsplit: one pass per hash function, most significant first; every pass
    splits each block of the previous one. */
module RealSplit {
  import opened BlockCount
  import opened BlockScatter
  import Counting
  import opened JoinSpec
  import opened StablePartition
  import opened TwoPasses

  /** A hash function with its number of buckets. */
  datatype Hash = Hash(f: Tuple -> int, buckets: nat)

  ghost predicate Proper(h: Hash) {
    h.buckets >= 1 && Hashes(h.f, h.buckets)
  }

  /** The first m pass hashes as one, first pass most significant. */
  function Combine(hfs: seq<Hash>, m: nat): Hash
    requires m <= |hfs|
  {
    if m == 0 then Hash(_ => 0, 1)
    else
      var c := Combine(hfs, m - 1);
      Hash(Both(c.f, hfs[m - 1].f, hfs[m - 1].buckets), c.buckets * hfs[m - 1].buckets)
  }

  lemma BothInRange(a: int, b: int, m: nat, k: nat)
    requires 0 <= a < m && 0 <= b < k
    ensures 0 <= a * k + b < m * k
  {
    assert (m - 1 - a) * k >= 0;
    assert (m - 1 - a) * k == m * k - k - a * k;
  }

  lemma ProperBoth(hi: Hash, lo: Hash)
    requires Proper(hi) && Proper(lo)
    ensures Proper(Hash(Both(hi.f, lo.f, lo.buckets), hi.buckets * lo.buckets))
  {
    var b := Hash(Both(hi.f, lo.f, lo.buckets), hi.buckets * lo.buckets);
    BothInRange(0, 0, hi.buckets, lo.buckets);
    forall t: Tuple ensures 0 <= b.f(t) < b.buckets { BothInRange(hi.f(t), lo.f(t), hi.buckets, lo.buckets); }
  }

  lemma {:induction false} ProperCombine(hfs: seq<Hash>, m: nat)
    requires m <= |hfs| && forall i :: 0 <= i < |hfs| ==> Proper(hfs[i])
    ensures Proper(Combine(hfs, m))
  {
    if m > 0 {
      ProperCombine(hfs, m - 1);
      ProperBoth(Combine(hfs, m - 1), hfs[m - 1]);
    }
  }

  // ----- blocks -----

  lemma {:induction false} WholePartition(s: Relation, f: Tuple -> int, k: nat)
    requires Hashes(f, k)
    ensures |Partition(s, f, k)| == |s|
  {
    HashedDigits(s, f, k);
    DigitsCount(s, f);
    PartitionLength(s, f, k, Digits(s, f));
    BelowEverything(s, f, k);
  }

  lemma BelowEverything(s: Relation, f: Tuple -> int, k: nat)
    requires Hashes(f, k)
    ensures Counting.Below(Digits(s, f), k) == |s|
  {
    HashedDigits(s, f, k);
    BelowAllAtMost(Digits(s, f), k);
  }

  lemma {:induction false} BlocksLength(s: Relation, hi: Tuple -> int, lo: Tuple -> int, k: nat, n: nat)
    requires Hashes(lo, k)
    ensures |Blocks(s, hi, lo, k, n)| == |Partition(s, hi, n)|
  {
    hide Filter, Hashes;
    if n > 0 {
      BlocksLength(s, hi, lo, k, n - 1);
      WholePartition(Filter(s, hi, n - 1), lo, k);
    }
  }

  /** Block iter of the partition by hi: where it is, and that it is not out of bounds. */
  lemma BlockAt(s: Relation, p: Relation, hi: Hash, iter: nat)
    requires p == Partition(s, hi.f, hi.buckets) && iter < hi.buckets
    ensures var start := |Partition(s, hi.f, iter)|;
            start + |Filter(s, hi.f, iter)| == |Partition(s, hi.f, iter + 1)| <= |p| &&
              p[start..start + |Filter(s, hi.f, iter)|] == Filter(s, hi.f, iter)
  {
    PartitionPrefix(s, hi.f, iter + 1, hi.buckets);
    var q := Partition(s, hi.f, iter + 1);
    assert p[..|q|] == q == Partition(s, hi.f, iter) + Filter(s, hi.f, iter);
  }

  /** The offsets row so far: ends of all clusters of the finished blocks, zeros behind. */
  ghost predicate RowOk(cur: seq<int>, s: Relation, hi: Tuple -> int, lo: Hash, iter: nat) {
    && (forall j {:trigger cur[j]} ::
           0 <= j < iter * lo.buckets && j < |cur| ==> cur[j] == |Partition(s, Both(hi, lo.f, lo.buckets), j + 1)|)
    && (forall j {:trigger cur[j]} :: iter * lo.buckets <= j < |cur| ==> cur[j] == 0)
  }

  lemma RowStep(cur: seq<int>, cur': seq<int>, s: Relation, hi: Tuple -> int, lo: Hash, iter: nat)
    requires RowOk(cur, s, hi, lo, iter) && Proper(lo) && iter * lo.buckets + lo.buckets <= |cur|
    requires OnlySegment(cur, cur', iter * lo.buckets, lo.buckets)
    requires ClusterEnds(cur'[iter * lo.buckets..iter * lo.buckets + lo.buckets], Filter(s, hi, iter), lo.f,
             |Partition(s, hi, iter)|)
    ensures RowOk(cur', s, hi, lo, iter + 1)
  {
    hide Partition, Filter, Hashes;
    var k, base := lo.buckets, iter * lo.buckets;
    assert (iter + 1) * k == base + k;
    forall j {:trigger cur'[j]} | 0 <= j < base + k && j < |cur'|
      ensures cur'[j] == |Partition(s, Both(hi, lo.f, k), j + 1)|
    {
      if base <= j {
        assert cur'[base..base + k][j - base] == cur'[j];
        EndInBlock(s, hi, lo, iter, j - base);
      } else {
        assert cur'[j] == cur[j];
      }
    }
    forall j {:trigger cur'[j]} | base + k <= j < |cur'| ensures cur'[j] == 0 { assert cur'[j] == cur[j]; }
  }

  /** The end of a cluster within a block, counted from the start of the block and overall. */
  lemma EndInBlock(s: Relation, hi: Tuple -> int, lo: Hash, iter: nat, h: nat)
    requires Proper(lo) && h < lo.buckets
    ensures 0 <= iter * lo.buckets &&
            |Partition(s, Both(hi, lo.f, lo.buckets), iter * lo.buckets + h + 1)| ==
              |Partition(s, hi, iter)| + |Partition(Filter(s, hi, iter), lo.f, h + 1)|
  {
    hide Partition, Filter, Blocks;
    HashedDigits(s, lo.f, lo.buckets);
    Block(s, hi, lo.f, lo.buckets, iter, h + 1);
    MsdIsPartition(s, hi, lo.f, lo.buckets, iter);
    BlocksLength(s, hi, lo.f, lo.buckets, iter);
  }

  lemma BlankSegment(cur: seq<int>, s: Relation, hi: Tuple -> int, lo: Hash, iter: nat, accum: nat)
    requires RowOk(cur, s, hi, lo, iter) && iter < accum && |cur| == accum * lo.buckets
    ensures iter * lo.buckets + lo.buckets <= |cur| && Blank(cur[iter * lo.buckets..iter * lo.buckets + lo.buckets])
  {
    hide Partition;
    SegmentFits(iter, accum, lo.buckets);
    BlankBehind(cur, iter * lo.buckets, lo.buckets);
  }

  lemma SegmentFits(iter: nat, accum: nat, k: nat)
    requires iter < accum
    ensures 0 <= iter * k && iter * k + k <= accum * k
  {
    assert (accum - 1 - iter) * k >= 0;
    assert (accum - 1 - iter) * k == accum * k - k - iter * k;
  }

  lemma BlankBehind(cur: seq<int>, base: nat, k: nat)
    requires base + k <= |cur| && forall j {:trigger cur[j]} :: base <= j < |cur| ==> cur[j] == 0
    ensures Blank(cur[base..base + k])
  {
  }

  /** The new buffer so far: the finished blocks. */
  ghost predicate BufferOk(dest: Relation, s: Relation, hi: Tuple -> int, lo: Hash, iter: nat) {
    var b := Blocks(s, hi, lo.f, lo.buckets, iter);
    |b| <= |dest| && dest[..|b|] == b
  }

  lemma BufferStep(dest: Relation, dest': Relation, s: Relation, hi: Tuple -> int, lo: Hash, iter: nat, off: nat,
                   n: nat)
    requires BufferOk(dest, s, hi, lo, iter) && Proper(lo) && off == |Partition(s, hi, iter)| &&
             n == |Filter(s, hi, iter)|
    requires off + n <= |dest'| == |dest| && dest'[off..off + n] == Partition(Filter(s, hi, iter), lo.f, lo.buckets)
    requires forall q :: 0 <= q < |dest| && (q < off || off + n <= q) ==> dest'[q] == dest[q]
    ensures BufferOk(dest', s, hi, lo, iter + 1)
  {
    hide Partition, Filter, Hashes, Blocks;
    BlocksLength(s, hi, lo.f, lo.buckets, iter);
    WholePartition(Filter(s, hi, iter), lo.f, lo.buckets);
    Extend(dest, dest', Blocks(s, hi, lo.f, lo.buckets, iter), Partition(Filter(s, hi, iter), lo.f, lo.buckets));
    NextBlock(s, hi, lo, iter);
  }

  lemma NextBlock(s: Relation, hi: Tuple -> int, lo: Hash, iter: nat)
    ensures Blocks(s, hi, lo.f, lo.buckets, iter + 1) ==
            Blocks(s, hi, lo.f, lo.buckets, iter) + Partition(Filter(s, hi, iter), lo.f, lo.buckets)
  {
  }

  lemma Extend(dest: Relation, dest': Relation, b: Relation, p: Relation)
    requires |b| + |p| <= |dest'| == |dest| && dest[..|b|] == b && dest'[|b|..|b| + |p|] == p
    requires forall q :: 0 <= q < |dest| && (q < |b| || |b| + |p| <= q) ==> dest'[q] == dest[q]
    ensures dest'[..|b + p|] == b + p
  {
    assert dest'[..|b|] == dest[..|b|];
    assert dest'[..|b| + |p|] == dest'[..|b|] + dest'[|b|..|b| + |p|];
  }

  // ----- passes -----

  /** An offsets row: entry j is where cluster j ends. */
  ghost predicate Ends(row: seq<int>, s: Relation, f: Tuple -> int) {
    forall j {:trigger row[j]} :: 0 <= j < |row| ==> row[j] == |Partition(s, f, j + 1)|
  }

  /** Where iteration iter of a pass starts reading, and how many tuples it reads. */
  method BlockBounds(pass: nat, iter: nat, prev: array<int>, totaltuples: nat, ghost s: Relation, ghost hi: Hash)
    returns (iteroffset: nat, tuplesinblock: nat)
    requires iter < hi.buckets && |s| == totaltuples && Proper(hi)
    requires if pass == 0 then hi.buckets == 1 else prev.Length == hi.buckets && Ends(prev[..], s, hi.f)
    ensures iteroffset == |Partition(s, hi.f, iter)| && tuplesinblock == |Filter(s, hi.f, iter)|
  {
    hide Filter;
    WholePartition(s, hi.f, hi.buckets);
    assert Partition(s, hi.f, 0) == [];
    assert Partition(s, hi.f, iter + 1) == Partition(s, hi.f, iter) + Filter(s, hi.f, iter);
    if pass == 0 {
      tuplesinblock, iteroffset := totaltuples, 0;
    } else {
      assert prev[..][iter] == prev[iter];
      if iter == 0 {
        tuplesinblock, iteroffset := prev[iter], 0;
      } else {
        assert prev[..][iter - 1] == prev[iter - 1];
        tuplesinblock, iteroffset := prev[iter] - prev[iter - 1], prev[iter - 1];
      }
    }
  }

  ghost predicate HistogramsBlank(hist: seq<seq<int>>, width: nat) {
    |hist| >= 1 && forall t :: 0 <= t < |hist| ==> Blank(hist[t]) && |hist[t]| == width
  }

  /** One iteration of a pass. */
  method SplitOne(src: array<Tuple>, dest: array<Tuple>, pass: nat, iter: nat, prev: array<int>, cur: array<int>,
                  hf: Hash, hist: array<seq<int>>, ghost width: nat, ghost s: Relation, ghost hi: Hash)
    requires src != dest && src.Length == dest.Length == |s| && Proper(hf) && Proper(hi) && iter < hi.buckets &&
             prev != cur
    requires src[..] == Partition(s, hi.f, hi.buckets) && HistogramsBlank(hist[..], width) && hf.buckets <= width
    requires if pass == 0 then hi.buckets == 1 else prev.Length == hi.buckets && Ends(prev[..], s, hi.f)
    requires cur.Length == hi.buckets * hf.buckets && RowOk(cur[..], s, hi.f, hf, iter) &&
             BufferOk(dest[..], s, hi.f, hf, iter)
    modifies dest, hist, cur
    ensures HistogramsBlank(hist[..], width) && RowOk(cur[..], s, hi.f, hf, iter + 1) &&
            BufferOk(dest[..], s, hi.f, hf, iter + 1)
  {
    hide Partition, Filter, RowOk, BufferOk, Ends, Hashes, OnlySegment, ClusterEnds;
    var off, n := BlockBounds(pass, iter, prev, src.Length, s, hi);
    ghost var cur0, dest0, base, k := cur[..], dest[..], iter * hf.buckets, hf.buckets;
    BlockAt(s, src[..], hi, iter);
    BlankSegment(cur[..], s, hi.f, hf, iter, hi.buckets);
    assert src[off..off + n] == src[..][off..off + n];
    assert cur[iter * hf.buckets..iter * hf.buckets + hf.buckets] ==
        cur[..][iter * hf.buckets..iter * hf.buckets + hf.buckets];
    SplitBlock(src, dest, off, n, hf.f, hf.buckets, hist, cur, iter * hf.buckets);
    assert cur[base..base + k] == cur[..][base..base + k] && dest[off..off + n] == dest[..][off..off + n];
    RowStep(cur0, cur[..], s, hi.f, hf, iter);
    BufferStep(dest0, dest[..], s, hi.f, hf, iter, off, n);
  }

  /** One pass: dest receives the partition by all hashes up to this one, and the returned row
      the ends of its clusters. */
  method SplitPass(src: array<Tuple>, dest: array<Tuple>, pass: nat, prev: array<int>, hf: Hash, accum: nat,
                   hist: array<seq<int>>, ghost width: nat, ghost s: Relation, ghost hi: Hash)
    returns (cur: array<int>)
    requires src != dest && src.Length == dest.Length == |s| && Proper(hf) && Proper(hi) && accum == hi.buckets
    requires src[..] == Partition(s, hi.f, hi.buckets) && HistogramsBlank(hist[..], width) && hf.buckets <= width
    requires if pass == 0 then hi.buckets == 1 else prev.Length == hi.buckets && Ends(prev[..], s, hi.f)
    modifies dest, hist
    ensures fresh(cur) && cur.Length == accum * hf.buckets && Ends(cur[..], s, Both(hi.f, hf.f, hf.buckets))
    ensures dest[..] == Partition(s, Both(hi.f, hf.f, hf.buckets), accum * hf.buckets)
    ensures HistogramsBlank(hist[..], width)
  {
    hide Partition, RowOk, BufferOk, Ends, Hashes;
    cur := new int[accum * hf.buckets](_ => 0);
    ghost var prevRow := prev[..];
    PassBegins(cur[..], dest[..], s, hi.f, hf);
    var iter := 0;
    while iter < accum
      invariant 0 <= iter <= accum && fresh(cur) && src[..] == Partition(s, hi.f, hi.buckets) && prev[..] == prevRow
      invariant HistogramsBlank(hist[..], width) && RowOk(cur[..], s, hi.f, hf, iter) &&
                BufferOk(dest[..], s, hi.f, hf, iter)
    {
      SplitOne(src, dest, pass, iter, prev, cur, hf, hist, width, s, hi);
      iter := iter + 1;
    }
    PassEnds(cur[..], dest[..], s, hi, hf);
  }

  lemma PassBegins(cur: seq<int>, dest: Relation, s: Relation, hi: Tuple -> int, lo: Hash)
    requires forall j :: 0 <= j < |cur| ==> cur[j] == 0
    ensures RowOk(cur, s, hi, lo, 0) && BufferOk(dest, s, hi, lo, 0)
  {
  }

  lemma PassEnds(cur: seq<int>, dest: Relation, s: Relation, hi: Hash, lo: Hash)
    requires RowOk(cur, s, hi.f, lo, hi.buckets) && |cur| == hi.buckets * lo.buckets &&
             BufferOk(dest, s, hi.f, lo, hi.buckets)
    requires |dest| == |s| && Proper(hi) && Proper(lo)
    ensures Ends(cur, s, Both(hi.f, lo.f, lo.buckets))
    ensures dest == Partition(s, Both(hi.f, lo.f, lo.buckets), hi.buckets * lo.buckets)
  {
    hide Partition, Blocks;
    HashedDigits(s, lo.f, lo.buckets);
    MsdIsPartition(s, hi.f, lo.f, lo.buckets, hi.buckets);
    BlocksLength(s, hi.f, lo.f, lo.buckets, hi.buckets);
    WholePartition(s, hi.f, hi.buckets);
    assert dest[..|s|] == dest;
  }

  /** The histograms are made large enough for every pass. */
  method MaxBuckets(hfs: seq<Hash>) returns (width: nat)
    ensures forall i :: 0 <= i < |hfs| ==> hfs[i].buckets <= width
  {
    width := 0;
    var pass := 0;
    while pass < |hfs|
      invariant 0 <= pass <= |hfs| && forall i :: 0 <= i < pass ==> hfs[i].buckets <= width
    {
      if hfs[pass].buckets > width { width := hfs[pass].buckets; }
      pass := pass + 1;
    }
  }

  /** What holds between passes. */
  ghost predicate Between(out: Relation, offsets: seq<int>, s: Relation, hfs: seq<Hash>, pass: nat) {
    && pass <= |hfs| && |out| == |s| && out == Partition(s, Combine(hfs, pass).f, Combine(hfs, pass).buckets)
    && (pass > 0 ==> |offsets| == Combine(hfs, pass).buckets && Ends(offsets, s, Combine(hfs, pass).f))
  }

  lemma {:induction false} AllInBucketZero(s: Relation, f: Tuple -> int)
    requires forall t: Tuple :: f(t) == 0
    ensures Filter(s, f, 0) == s && Partition(s, f, 1) == s
  {
    if s != [] { AllInBucketZero(s[..|s|-1], f); }
    assert Partition(s, f, 0) == [];
    assert [] + s == s;
  }

  lemma BeforeFirstPass(s: Relation, hfs: seq<Hash>, offsets: seq<int>)
    ensures Between(s, offsets, s, hfs, 0)
  {
    AllInBucketZero(s, Combine(hfs, 0).f);
  }

  /** realsplit from beginning to end. For any number of threads, any pass hashes and any
      schedule, the output buffer is the stable partition of the input by the combined hash,
      and the last offsets row holds the ends of its clusters. */
  method Run(oldbuf: array<Tuple>, newbuf: array<Tuple>, hfs: seq<Hash>, nthreads: nat)
    returns (out: array<Tuple>, offsets: array<int>)
    requires oldbuf != newbuf && oldbuf.Length == newbuf.Length && nthreads >= 1 && |hfs| >= 1
    requires forall i :: 0 <= i < |hfs| ==> Proper(hfs[i])
    modifies oldbuf, newbuf
    ensures out == oldbuf || out == newbuf
    ensures out[..] == Partition(old(oldbuf[..]), Combine(hfs, |hfs|).f, Combine(hfs, |hfs|).buckets)
    ensures StableSort(old(oldbuf[..]), out[..], Combine(hfs, |hfs|).f)
    ensures fresh(offsets) && offsets.Length == Combine(hfs, |hfs|).buckets &&
            Ends(offsets[..], old(oldbuf[..]), Combine(hfs, |hfs|).f)
  {
    hide Partition, Ends, Hashes, Combine, StableSort;
    ghost var s := oldbuf[..];
    var width := MaxBuckets(hfs);
    var hist := new seq<int>[nthreads](_ => seq(width, _ => 0));
    offsets := new int[0];
    out := oldbuf;
    var other := newbuf;
    var accum, pass := 1, 0;
    BeforeFirstPass(s, hfs, offsets[..]);
    NoPasses(hfs);
    while pass < |hfs|
      invariant 0 <= pass <= |hfs| && {out, other} == {oldbuf, newbuf} && fresh(hist) && fresh(offsets) &&
                accum == Combine(hfs, pass).buckets
      invariant pass == 0 ==> accum == 1
      invariant HistogramsBlank(hist[..], width) && Between(out[..], offsets[..], s, hfs, pass)
    {
      ProperCombine(hfs, pass);
      OneMorePass(hfs, pass);
      var cur := SplitPass(out, other, pass, offsets, hfs[pass], accum, hist, width, s, Combine(hfs, pass));
      accum := accum * hfs[pass].buckets;
      out, other := other, out;
      offsets := cur;
      pass := pass + 1;
    }
    SortedByAll(s, out[..], hfs);
  }

  lemma SortedByAll(s: Relation, out: Relation, hfs: seq<Hash>)
    requires forall i :: 0 <= i < |hfs| ==> Proper(hfs[i])
    requires out == Partition(s, Combine(hfs, |hfs|).f, Combine(hfs, |hfs|).buckets)
    ensures StableSort(s, out, Combine(hfs, |hfs|).f)
  {
    hide Partition, Combine, StableSort;
    ProperCombine(hfs, |hfs|);
    StableSortIsPartition(s, out, Combine(hfs, |hfs|).f, Combine(hfs, |hfs|).buckets);
  }

  lemma NoPasses(hfs: seq<Hash>)
    ensures Combine(hfs, 0).buckets == 1
  {
  }

  lemma OneMorePass(hfs: seq<Hash>, pass: nat)
    requires pass < |hfs|
    ensures Combine(hfs, pass + 1) ==
            Hash(Both(Combine(hfs, pass).f, hfs[pass].f, hfs[pass].buckets), Combine(hfs, pass).buckets *
              hfs[pass].buckets)
  {
  }
}
