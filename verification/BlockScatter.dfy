/** The copying half of one iteration of RadixPartitioner::realsplit (radixpartition), and the
    iteration as a whole: one block of the old buffer becomes its stable partition in the new
    buffer. */
module BlockScatter {
  import opened BlockCount
  import opened Chunks
  import opened Counting
  import opened JoinSpec
  import opened StablePartition
  import opened ThreadedScatter

  /** A thread's own histogram while it copies: how many tuples of each hash come before its
      next one, in its own chunk or in an earlier one. */
  ghost predicate LocalOk(row: seq<int>, d: seq<int>, lo: nat, k: nat) {
    && k <= |row| && lo <= |d|
    && (forall h {:trigger row[h]} :: 0 <= h < k ==> row[h] == Count(d[..lo], h))
    && (forall h {:trigger row[h]} :: k <= h < |row| ==> row[h] == 0)
  }

  /** When a thread has copied its chunk it blanks its histogram. */
  ghost predicate ThreadOk(row: seq<int>, reset: bool, d: seq<int>, lo: nat, n: nat, pc: nat, k: nat) {
    k <= |row| && if reset then Blank(row) && pc == n else LocalOk(row, d, lo + pc, k)
  }

  ghost predicate ThreadsOk(hist: seq<seq<int>>, reset: seq<bool>, d: seq<int>, pc: seq<nat>, k: nat) {
    && |hist| == |reset| == |pc| >= 1
    && forall t {:trigger pc[t]} :: 0 <= t < |hist| ==>
         ThreadOk(hist[t], reset[t], d, ChunkStart(|d|, |hist|, t), ChunkLength(|d|, |hist|, t), pc[t], k)
  }

  lemma LocalStep(row: seq<int>, d: seq<int>, lo: nat, k: nat)
    requires LocalOk(row, d, lo, k) && lo < |d| && 0 <= d[lo] < k
    ensures LocalOk(row[d[lo] := row[d[lo]] + 1], d, lo + 1, k)
  {
    forall c ensures Count(d[..lo+1], c) == Count(d[..lo], c) + if d[lo] == c then 1 else 0 { CountPrefix(d, lo, c); }
  }

  /** The global offset of a hash, the end of the previous one, plus the local offset is the
      place of the tuple in the stable partition. */
  lemma OffsetIsPlace(seg: seq<int>, row: seq<int>, d: seq<int>, off: nat, i: nat, k: nat)
    requires EndsUpTo(seg, d, off, k) && |seg| == k && LocalOk(row, d, i, k) && i < |d| && 0 <= d[i] < k &&
             Nonnegative(d)
    ensures (if d[i] != 0 then seg[d[i] - 1] else off) + row[d[i]] == Places(d, off, 0)[i]
  {
    hide Below, Count, Places;
    PlaceIs(d, off, 0, i);
    BelowNone(d);
    assert row[d[i]] == Count(d[..i], d[i]);
    if d[i] != 0 { assert seg[d[i] - 1] == off + Below(d, d[i]); }
  }

  lemma ThreadsStep(hist: seq<seq<int>>, reset: seq<bool>, d: seq<int>, pc: seq<nat>, k: nat, t: nat, row: seq<int>,
                    r: bool, p: nat)
    requires ThreadsOk(hist, reset, d, pc, k) && t < |hist|
    requires ThreadOk(row, r, d, ChunkStart(|d|, |hist|, t), ChunkLength(|d|, |hist|, t), p, k)
    ensures ThreadsOk(hist[t := row], reset[t := r], d, pc[t := p], k)
  {
    hide ChunkStart, ChunkLength, ThreadOk;
    var pc' := pc[t := p];
    forall u {:trigger pc'[u]} | 0 <= u < |hist|
      ensures ThreadOk(hist[t := row][u], reset[t := r][u], d, ChunkStart(|d|, |hist|, u),
              ChunkLength(|d|, |hist|, u), pc'[u], k)
    {
      assert pc[u] == pc[u];
    }
  }

  lemma NextLocal(hist: seq<seq<int>>, reset: seq<bool>, d: seq<int>, pc: seq<nat>, k: nat, t: nat)
    requires ThreadsOk(hist, reset, d, pc, k) && Counters(|d|, |hist|, pc) && t < |hist| &&
             pc[t] < ChunkLength(|d|, |hist|, t)
    ensures !reset[t] && LocalOk(hist[t], d, NextItem(|d|, |hist|, pc, t), k)
    ensures NextItem(|d|, |hist|, pc, t) == ChunkStart(|d|, |hist|, t) + pc[t] < |d|
  {
    assert ThreadOk(hist[t], reset[t], d, ChunkStart(|d|, |hist|, t), ChunkLength(|d|, |hist|, t), pc[t], k);
  }

  /** Copy the next tuple of thread t. No thread has written its slot before. */
  method CopyOne(src: array<Tuple>, dest: array<Tuple>, off: nat, n: nat, f: Tuple -> int, k: nat,
                 hist: array<seq<int>>, reset: array<bool>, cur: array<int>, base: nat, pc: array<nat>, t: nat,
                 ghost s: Relation, ghost d: seq<int>, ghost dest0: Relation)
    requires src != dest && off + n <= src.Length == dest.Length && s == src[off..off + n] && d == Digits(s, f)
    requires forall i :: 0 <= i < |d| ==> 0 <= d[i] < k
    requires base + k <= cur.Length && EndsUpTo(cur[base..base + k], d, off, k) &&
             Targets(Places(d, off, 0), off, off + n)
    requires t < hist.Length == reset.Length == pc.Length && Counters(n, hist.Length, pc[..]) &&
             pc[t] < ChunkLength(n, hist.Length, t)
    requires ThreadsOk(hist[..], reset[..], d, pc[..], k)
    requires Progressed(s, Places(d, off, 0), dest0, dest[..], off, off + n, hist.Length, pc[..])
    modifies dest, hist, pc
    ensures Counters(n, hist.Length, pc[..]) && ThreadsOk(hist[..], reset[..], d, pc[..], k) &&
            SameWidths(old(hist[..]), hist[..])
    ensures Progressed(s, Places(d, off, 0), dest0, dest[..], off, off + n, hist.Length, pc[..])
    ensures Left(n, hist.Length, pc[..], hist.Length) < old(Left(n, hist.Length, pc[..], hist.Length))
  {
    hide Digits, Places, Below, Count, EndsUpTo, Targets, Progressed, ChunkStart, ChunkLength, ThreadsOk, LocalOk;
    ghost var hist0, pc0, dest1, pl := hist[..], pc[..], dest[..], Places(d, off, 0);
    var item := NextItem(n, hist.Length, pc[..], t);
    NextLocal(hist0, reset[..], d, pc0, k, t);
    var srctup := src[off + item];
    assert srctup == s[item];
    var h := f(srctup);
    assert h == d[item];
    RowWide(hist[t], d, item, k);
    var globaloff := if h != 0 then cur[base + h - 1] else off;
    OffsetIsPlace(cur[base..base + k], hist[t], d, off, item, k);
    LocalStep(hist[t], d, item, k);
    ThreadsStep(hist0, reset[..], d, pc0, k, t, hist[t][h := hist[t][h] + 1], false, pc[t] + 1);
    ThreadStep(s, pl, dest0, dest1, off, off + n, hist.Length, pc0, t);
    CountersStep(n, hist.Length, pc0, t, t, item);
    LeftShrinks(n, hist.Length, pc0, t, hist.Length);
    TargetAt(pl, off, off + n, item);
    dest[globaloff + hist[t][h]] := srctup;
    hist[t] := hist[t][h := hist[t][h] + 1];
    pc[t] := pc[t] + 1;
    assert pc[..] == pc0[t := pc0[t] + 1] && reset[..] == reset[..][t := false] &&
        dest[..] == dest1[pl[item] := s[item]];
  }

  lemma RowWide(row: seq<int>, d: seq<int>, lo: nat, k: nat)
    requires LocalOk(row, d, lo, k)
    ensures k <= |row|
  {
  }

  lemma TargetAt(pl: seq<int>, lo: int, hi: int, i: nat)
    requires Targets(pl, lo, hi) && i < |pl|
    ensures lo <= pl[i] < hi
  {
  }

  method BlankRow(row: seq<int>, k: nat) returns (row': seq<int>)
    requires k <= |row| && forall h {:trigger row[h]} :: k <= h < |row| ==> row[h] == 0
    ensures |row'| == |row| && Blank(row')
  {
    row' := row;
    var i := 0;
    while i < k
      invariant 0 <= i <= k && |row'| == |row| &&
                forall h {:trigger row'[h]} :: 0 <= h < |row| && (h < i || k <= h) ==> row'[h] == 0
    {
      row' := row'[i := 0];
      i := i + 1;
    }
  }

  /** A thread that has copied its chunk blanks its histogram for the next iteration. */
  method ResetOne(hist: array<seq<int>>, reset: array<bool>, k: nat, t: nat, n: nat, ghost d: seq<int>,
                  ghost pc: seq<nat>)
    requires t < hist.Length == reset.Length == |pc| && !reset[t] && n == |d| && pc[t] == ChunkLength(n, hist.Length, t)
    requires ThreadsOk(hist[..], reset[..], d, pc, k)
    modifies hist, reset
    ensures ThreadsOk(hist[..], reset[..], d, pc, k) && Unfinished(reset[..]) < old(Unfinished(reset[..]))
    ensures SameWidths(old(hist[..]), hist[..])
  {
    hide ChunkStart, ChunkLength, Count;
    assert ThreadOk(hist[..][t], reset[..][t], d, ChunkStart(n, hist.Length, t), ChunkLength(n, hist.Length, t),
        pc[t], k);
    var row := BlankRow(hist[t], k);
    ThreadsStep(hist[..], reset[..], d, pc, k, t, row, true, pc[t]);
    FinishOne(reset[..], t);
    hist[t] := row;
    reset[t] := true;
    assert pc[t := pc[t]] == pc;
  }

  lemma ThreadsStart(hist: seq<seq<int>>, seg: seq<int>, reset: seq<bool>, d: seq<int>, pc: seq<nat>, off: nat, k: nat)
    requires AllCombined(hist, seg, d, k) && |reset| == |pc| == |hist|
    requires forall t :: 0 <= t < |pc| ==> !reset[t] && pc[t] == 0
    ensures ThreadsOk(hist, reset, d, pc, k) && EndsUpTo(seg, d, off, 0)
  {
    hide ChunkStart, Count;
    forall t {:trigger pc[t]} | 0 <= t < |hist|
      ensures ThreadOk(hist[t], reset[t], d, ChunkStart(|d|, |hist|, t), ChunkLength(|d|, |hist|, t), pc[t], k)
    {
      forall h {:trigger hist[t][h]} | 0 <= h < k
        ensures hist[t][h] == Count(d[..ChunkStart(|d|, |hist|, t)], h)
      {
        assert hist[t][h] == Before(d, |hist|, t, h);
      }
    }
  }

  lemma ThreadsFinished(hist: seq<seq<int>>, reset: seq<bool>, d: seq<int>, pc: seq<nat>, k: nat)
    requires ThreadsOk(hist, reset, d, pc, k) && forall t :: 0 <= t < |reset| ==> reset[t]
    ensures forall t :: 0 <= t < |hist| ==> Blank(hist[t]) && k <= |hist[t]|
    ensures forall t :: 0 <= t < |hist| ==> pc[t] == ChunkLength(|d|, |hist|, t)
  {
    hide ChunkStart, ChunkLength;
    forall t | 0 <= t < |hist| ensures Blank(hist[t]) && k <= |hist[t]| && pc[t] == ChunkLength(|d|, |hist|, t) {
      assert ThreadOk(hist[t], reset[t], d, ChunkStart(|d|, |hist|, t), ChunkLength(|d|, |hist|, t), pc[t], k);
    }
  }

  /** All copying and blanking, up to the last barrier of the iteration. */
  method ScatterBlock(src: array<Tuple>, dest: array<Tuple>, off: nat, n: nat, f: Tuple -> int, k: nat,
                      hist: array<seq<int>>, cur: array<int>, base: nat, ghost s: Relation, ghost d: seq<int>)
    requires src != dest && off + n <= src.Length == dest.Length && s == src[off..off + n] && d == Digits(s, f)
    requires forall i :: 0 <= i < |d| ==> 0 <= d[i] < k
    requires base + k <= cur.Length && EndsUpTo(cur[base..base + k], d, off, k) &&
             Targets(Places(d, off, 0), off, off + n)
    requires hist.Length >= 1 && ThreadsOk(hist[..], seq(hist.Length, _ => false), d, seq(hist.Length, _ => 0), k)
    modifies dest, hist
    ensures ScatteredUpTo(s, Places(d, off, 0), old(dest[..]), dest[..], off, off + n, n) &&
            SameWidths(old(hist[..]), hist[..])
    ensures forall t :: 0 <= t < hist.Length ==> Blank(hist[t]) && k <= |hist[t]|
  {
    hide Digits, Places, Below, Count, EndsUpTo, Targets, Progressed, ChunkStart, ChunkLength, ThreadsOk, ScatteredUpTo;
    var reset, pc := new bool[hist.Length](_ => false), new nat[hist.Length](_ => 0);
    ghost var dest0, hist0, pl := dest[..], hist[..], Places(d, off, 0);
    assert reset[..] == seq(hist.Length, _ => false) && pc[..] == seq(hist.Length, _ => 0);
    ThreadsBegin(s, pl, dest0, off, off + n, hist.Length, pc[..]);
    CountersZero(n, hist.Length, pc[..]);
    while exists t :: 0 <= t < hist.Length && !reset[t]
      invariant fresh(pc) && fresh(reset) && SameWidths(hist0, hist[..]) && src[off..off + n] == s &&
                Counters(n, hist.Length, pc[..])
      invariant ThreadsOk(hist[..], reset[..], d, pc[..], k) &&
                Progressed(s, pl, dest0, dest[..], off, off + n, hist.Length, pc[..])
      decreases Left(n, hist.Length, pc[..], hist.Length), Unfinished(reset[..])
    {
      var t :| 0 <= t < hist.Length && !reset[t];
      if pc[t] < ChunkLength(n, hist.Length, t) {
        CopyOne(src, dest, off, n, f, k, hist, reset, cur, base, pc, t, s, d, dest0);
      } else {
        ResetOne(hist, reset, k, t, n, d, pc[..]);
      }
    }
    ThreadsFinished(hist[..], reset[..], d, pc[..], k);
    ThreadsDone(s, pl, dest0, dest[..], off, off + n, hist.Length, pc[..]);
  }

  lemma CountersZero(n: nat, nthreads: nat, pc: seq<nat>)
    requires nthreads >= 1 && |pc| == nthreads && forall t :: 0 <= t < nthreads ==> pc[t] == 0
    ensures Counters(n, nthreads, pc)
  {
  }

  lemma HashedDigits(s: Relation, f: Tuple -> int, k: nat)
    requires Hashes(f, k)
    ensures DigitsBelow(s, f, k) && Nonnegative(Digits(s, f)) && forall i :: 0 <= i < |s| ==> 0 <= Digits(s, f)[i] < k
  {
  }

  /** Cluster ends, counted from off on. */
  ghost predicate ClusterEnds(seg: seq<int>, s: Relation, f: Tuple -> int, off: nat) {
    forall h {:trigger seg[h]} :: 0 <= h < |seg| ==> seg[h] == off + |Partition(s, f, h + 1)|
  }

  lemma EndsOfClusters(seg: seq<int>, s: Relation, f: Tuple -> int, off: nat, k: nat)
    requires EndsUpTo(seg, Digits(s, f), off, k) && |seg| == k && Hashes(f, k)
    ensures ClusterEnds(seg, s, f, off)
  {
    hide Digits, Below, Count, Partition;
    HashedDigits(s, f, k);
    DigitsCount(s, f);
    forall h {:trigger seg[h]} | 0 <= h < k
      ensures seg[h] == off + |Partition(s, f, h + 1)|
    {
      PartitionLength(s, f, h + 1, Digits(s, f));
    }
  }

  /** The places counted from off on, as places of the block. */
  lemma SliceStands(s: Relation, out: Relation, d: seq<int>, off: nat)
    requires |d| == |s| && Nonnegative(d) && off + |s| <= |out| && StandAt(s, out, Places(d, off, 0))
    ensures StandAt(s, out[off..off + |s|], Places(d, 0, 0))
  {
    hide Places;
    forall i | 0 <= i < |s| ensures 0 <= Places(d, 0, 0)[i] < |s| && out[off..off + |s|][Places(d, 0, 0)[i]] == s[i] {
      PlaceIs(d, 0, 0, i);
      PlaceIs(d, off, 0, i);
      SlotInBucket(d, i);
    }
  }

  lemma PlacedSlice(s: Relation, out: Relation, f: Tuple -> int, off: nat)
    requires Placed(s, out, f, off, 0) && off + |s| <= |out| && Nonnegative(Digits(s, f))
    ensures Placed(s, out[off..off + |s|], f, 0, 0)
  {
    hide Digits, Places, StandAt;
    SliceStands(s, out, Digits(s, f), off);
  }

  lemma SlicePartition(s: Relation, out: Relation, f: Tuple -> int, off: nat, k: nat)
    requires Placed(s, out, f, off, 0) && off + |s| <= |out| && Hashes(f, k)
    ensures out[off..off + |s|] == Partition(s, f, k)
  {
    hide Placed, Digits;
    HashedDigits(s, f, k);
    PlacedSlice(s, out, f, off);
    ScatterIsPartition(s, out[off..off + |s|], f, k);
  }

  /** One iteration: whatever the schedule, the block ends up stably partitioned and its part
      of the offsets row holds the ends of its clusters. */
  method SplitBlock(src: array<Tuple>, dest: array<Tuple>, off: nat, n: nat, f: Tuple -> int, k: nat,
                    hist: array<seq<int>>, cur: array<int>, base: nat)
    requires src != dest && off + n <= src.Length == dest.Length && Hashes(f, k) && k >= 1 && hist.Length >= 1
    requires base + k <= cur.Length && Blank(cur[base..base + k])
    requires forall t :: 0 <= t < hist.Length ==> Blank(hist[t]) && k <= |hist[t]|
    modifies dest, hist, cur
    ensures dest[off..off + n] == Partition(src[off..off + n], f, k)
    ensures forall q :: 0 <= q < dest.Length && (q < off || off + n <= q) ==> dest[q] == old(dest[q])
    ensures OnlySegment(old(cur[..]), cur[..], base, k) && ClusterEnds(cur[base..base + k], src[off..off + n], f, off)
    ensures SameWidths(old(hist[..]), hist[..]) && forall t :: 0 <= t < hist.Length ==> Blank(hist[t])
  {
    hide Digits, Places, Partition, Targets, EndsUpTo, ThreadsOk, ScatteredUpTo, OnlySegment, Hashes, ColumnsCounted,
         AllCombined, ClusterEnds, Placed;
    ghost var s, d, cur0, dest0 := src[off..off + n], Digits(src[off..off + n], f), cur[..], dest[..];
    HashedDigits(s, f, k);
    PlacesAreTargets(d, off, 0, k);
    assert off + |d| + k * 0 == off + n;
    CreateHistograms(src, off, n, f, k, hist, cur, base, d);
    ghost var cur1 := cur[..];
    CombineHistograms(hist, cur, base, k, d);
    SegmentAgain(cur0, cur1, cur[..], base, k);
    ghost var cur2 := cur[..];
    ThreadsStart(hist[..], cur[base..base + k], seq(hist.Length, _ => false), d, seq(hist.Length, _ => 0), off, k);
    PrefixSums(cur, base, k, off, d);
    SegmentAgain(cur0, cur2, cur[..], base, k);
    ScatterBlock(src, dest, off, n, f, k, hist, cur, base, s, d);
    ScatterDone(s, f, d, dest0, dest[..], off, 0, off, off + n);
    EndsOfClusters(cur[base..base + k], s, f, off, k);
    SlicePartition(s, dest[..], f, off, k);
    assert dest[off..off + n] == dest[..][off..off + |s|];
  }
}
