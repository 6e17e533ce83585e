/** The counting half of one iteration of RadixPartitioner::realsplit: per-thread histograms
    (createhistogram), their combination by hash ranges (combinehistogram), and the prefix sums
    of thread 0. Each phase runs in any interleaving and ends at a barrier. */
module BlockCount {
  import opened Chunks
  import opened Counting
  import opened JoinSpec
  import opened StablePartition
  import opened ThreadedScatter

  // ----- 1. histograms -----

  /** A histogram row after pc tuples of a chunk. Rows may be longer than this pass needs. */
  ghost predicate Counted(row: seq<int>, chunk: seq<int>, k: nat, pc: nat) {
    && k <= |row| && pc <= |chunk|
    && (forall h :: 0 <= h < k ==> row[h] == Count(chunk[..pc], h))
    && (forall h :: k <= h < |row| ==> row[h] == 0)
  }

  /** Thread t counts into the row after its own; the last one into the global histogram. */
  function RowOf(hist: seq<seq<int>>, seg: seq<int>, t: nat): seq<int>
    requires t < |hist|
  {
    if t == |hist| - 1 then seg else hist[t + 1]
  }

  ghost predicate Blank(row: seq<int>) {
    forall h :: 0 <= h < |row| ==> row[h] == 0
  }

  ghost predicate RowsCounted(hist: seq<seq<int>>, seg: seq<int>, d: seq<int>, k: nat, pc: seq<nat>) {
    && |hist| == |pc| >= 1 && |seg| == k && Blank(hist[0]) && k <= |hist[0]|
    && forall t {:trigger pc[t]} :: 0 <= t < |hist| ==> Counted(RowOf(hist, seg, t), Chunk(d, |hist|, t), k, pc[t])
  }

  lemma CountedStep(row: seq<int>, chunk: seq<int>, k: nat, pc: nat, h: nat)
    requires Counted(row, chunk, k, pc) && pc < |chunk| && chunk[pc] == h < k
    ensures Counted(row[h := row[h] + 1], chunk, k, pc + 1)
  {
    forall c
      ensures Count(chunk[..pc+1], c) == Count(chunk[..pc], c) + if chunk[pc] == c then 1 else 0
    {
      CountPrefix(chunk, pc, c);
    }
  }

  lemma RowsStep(hist: seq<seq<int>>, seg: seq<int>, hist': seq<seq<int>>, seg': seq<int>, d: seq<int>, k: nat,
                 pc: seq<nat>, t: nat, h: nat)
    requires RowsCounted(hist, seg, d, k, pc) && t < |hist| && pc[t] < ChunkLength(|d|, |hist|, t)
    requires Chunk(d, |hist|, t)[pc[t]] == h < k
    requires var row := RowOf(hist, seg, t);
             k <= |row| &&
             if t == |hist| - 1 then hist' == hist && seg' == row[h := row[h] + 1]
             else hist' == hist[t + 1 := row[h := row[h] + 1]] && seg' == seg
    ensures RowsCounted(hist', seg', d, k, pc[t := pc[t] + 1])
  {
    hide Chunk, Count;
    var pc' := pc[t := pc[t] + 1];
    assert pc[t] == pc[t];
    CountedStep(RowOf(hist, seg, t), Chunk(d, |hist|, t), k, pc[t], h);
    forall u {:trigger pc'[u]} | 0 <= u < |hist|
      ensures Counted(RowOf(hist', seg', u), Chunk(d, |hist|, u), k, pc'[u])
    {
      assert Counted(RowOf(hist, seg, u), Chunk(d, |hist|, u), k, pc[u]);
    }
  }

  /** Histograms are never resized. */
  ghost predicate SameWidths(hist: seq<seq<int>>, hist': seq<seq<int>>) {
    |hist'| == |hist| && forall t :: 0 <= t < |hist| ==> |hist'[t]| == |hist[t]|
  }

  /** What a phase must leave alone: everything of the offsets row but the block's own part. */
  ghost predicate OnlySegment(cur: seq<int>, cur': seq<int>, base: nat, k: nat) {
    |cur'| == |cur| && forall q :: 0 <= q < |cur| && (q < base || base + k <= q) ==> cur'[q] == cur[q]
  }

  /** Add one to entry h of the row thread t counts into. */
  method Bump(hist: array<seq<int>>, cur: array<int>, base: nat, k: nat, t: nat, h: nat)
    requires base + k <= cur.Length && t < hist.Length && h < k && (t < hist.Length - 1 ==> h < |hist[t + 1]|)
    modifies hist, cur
    ensures OnlySegment(old(cur[..]), cur[..], base, k)
    ensures var row := RowOf(old(hist[..]), old(cur[base..base + k]), t);
            if t == hist.Length - 1 then hist[..] == old(hist[..]) && cur[base..base + k] == row[h := row[h] + 1]
            else hist[..] == old(hist[..])[t + 1 := row[h := row[h] + 1]] &&
                 cur[base..base + k] == old(cur[base..base + k])
  {
    if t == hist.Length - 1 {
      cur[base + h] := cur[base + h] + 1;
    } else {
      hist[t + 1] := hist[t + 1][h := hist[t + 1][h] + 1];
    }
  }

  lemma SegmentAgain(a: seq<int>, b: seq<int>, c: seq<int>, base: nat, k: nat)
    requires OnlySegment(a, b, base, k) && OnlySegment(b, c, base, k)
    ensures OnlySegment(a, c, base, k)
  {
  }

  lemma RowLongEnough(hist: seq<seq<int>>, seg: seq<int>, d: seq<int>, k: nat, pc: seq<nat>, t: nat)
    requires RowsCounted(hist, seg, d, k, pc) && t < |hist|
    ensures k <= |RowOf(hist, seg, t)|
  {
    assert Counted(RowOf(hist, seg, t), Chunk(d, |hist|, t), k, pc[t]);
  }

  /** One thread counts one tuple. */
  method CountOne(buf: array<Tuple>, off: nat, n: nat, f: Tuple -> int, k: nat, hist: array<seq<int>>,
                  cur: array<int>, base: nat, pc: array<nat>, t: nat, ghost d: seq<int>, ghost cur0: seq<int>)
    requires off + n <= buf.Length && d == Digits(buf[off..off + n], f) && forall i :: 0 <= i < |d| ==> 0 <= d[i] < k
    requires base + k <= cur.Length && t < hist.Length == pc.Length && pc[t] < ChunkLength(n, hist.Length, t) &&
             Counters(n, hist.Length, pc[..])
    requires RowsCounted(hist[..], cur[base..base + k], d, k, pc[..]) && OnlySegment(cur0, cur[..], base, k)
    modifies hist, cur, pc
    ensures RowsCounted(hist[..], cur[base..base + k], d, k, pc[..]) && OnlySegment(cur0, cur[..], base, k) &&
            Counters(n, hist.Length, pc[..])
    ensures SameWidths(old(hist[..]), hist[..])
    ensures Left(n, hist.Length, pc[..], hist.Length) < old(Left(n, hist.Length, pc[..], hist.Length))
  {
    hide Digits, Count, ChunkStart, ChunkLength, RowsCounted, OnlySegment, Chunk;
    ghost var hist0, seg0, pc0, cur1 := hist[..], cur[base..base + k], pc[..], cur[..];
    var item := NextItem(n, hist.Length, pc[..], t);
    var h := f(buf[off + item]);
    assert buf[off..off + n][item] == buf[off + item] && h == d[item];
    ChunkItem(d, hist.Length, pc[..], t);
    LeftShrinks(n, hist.Length, pc[..], t, hist.Length);
    RowLongEnough(hist0, seg0, d, k, pc0, t);
    assert pc0[t] == pc[t];
    Bump(hist, cur, base, k, t, h);
    SegmentAgain(cur0, cur1, cur[..], base, k);
    RowsStep(hist0, seg0, hist[..], cur[base..base + k], d, k, pc0, t, h);
    pc[t] := pc[t] + 1;
    assert pc[..] == pc0[t := pc0[t] + 1];
  }

  lemma ChunkItem(d: seq<int>, nthreads: nat, pc: seq<nat>, t: nat)
    requires Counters(|d|, nthreads, pc) && t < nthreads && pc[t] < ChunkLength(|d|, nthreads, t)
    ensures Chunk(d, nthreads, t)[pc[t]] == d[NextItem(|d|, nthreads, pc, t)]
  {
  }

  lemma RowsBegin(hist: seq<seq<int>>, seg: seq<int>, d: seq<int>, k: nat, pc: seq<nat>)
    requires |hist| == |pc| >= 1 && |seg| == k && Blank(seg)
    requires forall t :: 0 <= t < |hist| ==> Blank(hist[t]) && k <= |hist[t]| && pc[t] == 0
    ensures RowsCounted(hist, seg, d, k, pc) && Counters(|d|, |hist|, pc)
  {
    forall t {:trigger pc[t]} | 0 <= t < |hist| ensures Counted(RowOf(hist, seg, t), Chunk(d, |hist|, t), k, pc[t]) {
      assert Chunk(d, |hist|, t)[..0] == [];
    }
  }

  /** All histograms, up to the first barrier. */
  method CreateHistograms(buf: array<Tuple>, off: nat, n: nat, f: Tuple -> int, k: nat, hist: array<seq<int>>,
                          cur: array<int>, base: nat, ghost d: seq<int>)
    requires off + n <= buf.Length && d == Digits(buf[off..off + n], f) && forall i :: 0 <= i < |d| ==> 0 <= d[i] < k
    requires base + k <= cur.Length && hist.Length >= 1 && Blank(cur[base..base + k])
    requires forall t :: 0 <= t < hist.Length ==> Blank(hist[t]) && k <= |hist[t]|
    modifies hist, cur
    ensures OnlySegment(old(cur[..]), cur[..], base, k) && SameWidths(old(hist[..]), hist[..])
    ensures ColumnsCounted(hist[..], cur[base..base + k], d, k)
  {
    hide Digits, Count, ChunkStart, ChunkLength, RowsCounted, OnlySegment, Chunk;
    var pc := new nat[hist.Length](_ => 0);
    ghost var cur0, hist0 := cur[..], hist[..];
    RowsBegin(hist[..], cur[base..base + k], d, k, pc[..]);
    SegmentSame(cur0, base, k);
    while exists t :: 0 <= t < hist.Length && pc[t] < ChunkLength(n, hist.Length, t)
      invariant fresh(pc) && Counters(n, hist.Length, pc[..]) && SameWidths(hist0, hist[..])
      invariant RowsCounted(hist[..], cur[base..base + k], d, k, pc[..]) && OnlySegment(cur0, cur[..], base, k)
      decreases Left(n, hist.Length, pc[..], hist.Length)
    {
      var t :| 0 <= t < hist.Length && pc[t] < ChunkLength(n, hist.Length, t);
      CountOne(buf, off, n, f, k, hist, cur, base, pc, t, d, cur0);
    }
    RowsDone(hist[..], cur[base..base + k], d, k, pc[..]);
  }

  lemma SegmentSame(cur: seq<int>, base: nat, k: nat)
    ensures OnlySegment(cur, cur, base, k)
  {
  }

  // ----- 2. combination -----

  /** How often h occurs in thread t's chunk, and in the chunks before it. */
  ghost function Own(d: seq<int>, nthreads: nat, t: nat, h: int): nat
    requires t < nthreads
  {
    Count(Chunk(d, nthreads, t), h)
  }

  ghost function Before(d: seq<int>, nthreads: nat, t: nat, h: int): nat
    requires t <= nthreads && nthreads >= 1
  {
    Count(d[..ChunkStart(|d|, nthreads, t)], h)
  }

  lemma BeforeNext(d: seq<int>, nthreads: nat, t: nat, h: int)
    requires t < nthreads
    ensures Before(d, nthreads, t + 1, h) == Before(d, nthreads, t, h) + Own(d, nthreads, t, h)
  {
    hide Count;
    var lo, hi := ChunkStart(|d|, nthreads, t), ChunkStart(|d|, nthreads, t + 1);
    ChunksAscend(|d|, nthreads, t, t + 1);
    assert d[..hi] == d[..lo] + d[lo..hi];
    CountAppend(d[..lo], d[lo..hi], h);
  }

  lemma BeforeEnds(d: seq<int>, nthreads: nat, h: int)
    requires nthreads >= 1
    ensures Before(d, nthreads, 0, h) == 0 && Before(d, nthreads, nthreads, h) == Count(d, h)
  {
    ChunkEnd(|d|, nthreads);
    assert d[..|d|] == d && d[..0] == [];
  }

  /** What the histograms hold for hash h: the own counts of the threads, or, once combined,
      what comes before each thread's chunk. x is the global histogram's entry. */
  ghost predicate Column(col: seq<int>, x: int, d: seq<int>, h: int, done: bool) {
    && |col| >= 1
    && col[0] == 0
    && x == (if done then Count(d, h) else Own(d, |col|, |col| - 1, h))
    && forall t {:trigger col[t]} ::
           1 <= t < |col| ==> col[t] == if done then Before(d, |col|, t, h) else Own(d, |col|, t - 1, h)
  }

  function ColumnOf(hist: seq<seq<int>>, h: nat): (col: seq<int>)
    requires forall t :: 0 <= t < |hist| ==> h < |hist[t]|
    ensures |col| == |hist| && forall t :: 0 <= t < |hist| ==> col[t] == hist[t][h]
  {
    seq(|hist|, t requires 0 <= t < |hist| => hist[t][h])
  }

  ghost predicate Shape(hist: seq<seq<int>>, k: nat) {
    |hist| >= 1 && (forall t :: 0 <= t < |hist| ==> k <= |hist[t]|) &&
      forall t, h :: 0 <= t < |hist| && k <= h < |hist[t]| ==> hist[t][h] == 0
  }

  ghost predicate ColumnsCounted(hist: seq<seq<int>>, seg: seq<int>, d: seq<int>, k: nat) {
    Shape(hist, k) && |seg| == k &&
      forall h {:trigger seg[h]} :: 0 <= h < k ==> Column(ColumnOf(hist, h), seg[h], d, h, false)
  }

  lemma RowsDone(hist: seq<seq<int>>, seg: seq<int>, d: seq<int>, k: nat, pc: seq<nat>)
    requires RowsCounted(hist, seg, d, k, pc) && forall t :: 0 <= t < |hist| ==> pc[t] >= ChunkLength(|d|, |hist|, t)
    ensures ColumnsCounted(hist, seg, d, k)
  {
    hide ChunkStart, ChunkLength, Count, Chunk;
    forall t | 0 <= t < |hist|
      ensures Counted(RowOf(hist, seg, t), Chunk(d, |hist|, t), k, |Chunk(d, |hist|, t)|)
    {
      assert pc[t] == |Chunk(d, |hist|, t)|;
    }
    forall t | 0 <= t < |hist| ensures Chunk(d, |hist|, t)[..|Chunk(d, |hist|, t)|] == Chunk(d, |hist|, t) {}
    forall t | 0 < t < |hist| ensures hist[t] == RowOf(hist, seg, t - 1) {}
    forall h {:trigger seg[h]} | 0 <= h < k ensures Column(ColumnOf(hist, h), seg[h], d, h, false) {
      var col := ColumnOf(hist, h);
      forall t {:trigger col[t]} | 1 <= t < |col|
        ensures col[t] == Own(d, |col|, t - 1, h)
      {
        assert hist[t] == RowOf(hist, seg, t - 1);
      }
    }
  }

  ghost predicate OtherColumns(hist: seq<seq<int>>, hist': seq<seq<int>>, h: nat) {
    && |hist'| == |hist|
    && (forall t :: 0 <= t < |hist| ==> |hist'[t]| == |hist[t]|)
    && (forall t, c :: 0 <= t < |hist| && 0 <= c < |hist[t]| && c != h ==> hist'[t][c] == hist[t][c])
  }

  /** Rows below m already hold what comes before their chunk. */
  ghost predicate PartCombined(col: seq<int>, d: seq<int>, h: int, m: nat) {
    && |col| >= 1 && col[0] == 0
    && forall t {:trigger col[t]} ::
           1 <= t < |col| ==> col[t] == if t < m then Before(d, |col|, t, h) else Own(d, |col|, t - 1, h)
  }

  lemma CombineBegins(col: seq<int>, x: int, d: seq<int>, h: int)
    requires Column(col, x, d, h, false)
    ensures PartCombined(col, d, h, 2)
  {
    hide Own, Before, Count;
    BeforeEnds(d, |col|, h);
    BeforeNext(d, |col|, 0, h);
  }

  lemma CombineStep(col: seq<int>, d: seq<int>, h: int, m: nat)
    requires PartCombined(col, d, h, m) && 2 <= m < |col|
    ensures PartCombined(col[m := col[m] + col[m - 1]], d, h, m + 1)
  {
    hide Own, Before, Count;
    BeforeNext(d, |col|, m - 1, h);
    assert col[m - 1] == Before(d, |col|, m - 1, h);
  }

  lemma CombineEnds(col: seq<int>, x: int, d: seq<int>, h: int, m: nat)
    requires PartCombined(col, d, h, m) && m >= |col| && x == Own(d, |col|, |col| - 1, h)
    ensures Column(col, x + col[|col| - 1], d, h, true)
  {
    hide Own, Before, Count;
    BeforeEnds(d, |col|, h);
    BeforeNext(d, |col|, |col| - 1, h);
    assert |col| > 1 ==> col[|col| - 1] == Before(d, |col|, |col| - 1, h);
  }

  lemma ColumnUpdate(hist: seq<seq<int>>, h: nat, t: nat, x: int)
    requires t < |hist| && forall u :: 0 <= u < |hist| ==> h < |hist[u]|
    ensures ColumnOf(hist[t := hist[t][h := x]], h) == ColumnOf(hist, h)[t := x]
    ensures OtherColumns(hist, hist[t := hist[t][h := x]], h)
  {
  }

  lemma OtherColumnsAgain(a: seq<seq<int>>, b: seq<seq<int>>, c: seq<seq<int>>, h: nat)
    requires OtherColumns(a, b, h) && OtherColumns(b, c, h)
    ensures OtherColumns(a, c, h)
  {
  }

  /** Combine the histograms at one hash value. */
  method CombineColumn(hist: array<seq<int>>, cur: array<int>, base: nat, k: nat, h: nat, ghost d: seq<int>)
    requires h < k && base + k <= cur.Length && hist.Length >= 1 && forall t :: 0 <= t < hist.Length ==> h < |hist[t]|
    requires Column(ColumnOf(hist[..], h), cur[base + h], d, h, false)
    modifies hist, cur
    ensures OtherColumns(old(hist[..]), hist[..], h) && hist.Length >= 1 &&
            forall t :: 0 <= t < hist.Length ==> h < |hist[t]|
    ensures Column(ColumnOf(hist[..], h), cur[base + h], d, h, true) &&
            cur[..] == old(cur[..])[base + h := cur[base + h]]
  {
    hide Own, Before, Count, PartCombined, Column, OtherColumns;
    ghost var hist0, cur0, x := hist[..], cur[..], cur[base + h];
    CombineBegins(ColumnOf(hist[..], h), x, d, h);
    OwnOfLast(ColumnOf(hist[..], h), x, d, h);
    OtherColumnsSame(hist0, h);
    var tid := 2;
    while tid < hist.Length
      invariant 2 <= tid && forall t :: 0 <= t < hist.Length ==> h < |hist[t]|
      invariant PartCombined(ColumnOf(hist[..], h), d, h, tid) && OtherColumns(hist0, hist[..], h) && cur[..] == cur0
    {
      CombineStep(ColumnOf(hist[..], h), d, h, tid);
      ColumnUpdate(hist[..], h, tid, hist[tid][h] + hist[tid - 1][h]);
      OtherColumnsAgain(hist0, hist[..], hist[..][tid := hist[tid][h := hist[tid][h] + hist[tid - 1][h]]], h);
      hist[tid] := hist[tid][h := hist[tid][h] + hist[tid - 1][h]];
      tid := tid + 1;
    }
    CombineEnds(ColumnOf(hist[..], h), x, d, h, tid);
    cur[base + h] := cur[base + h] + hist[hist.Length - 1][h];
  }

  lemma OtherColumnsSame(hist: seq<seq<int>>, h: nat)
    ensures OtherColumns(hist, hist, h)
  {
  }

  lemma OwnOfLast(col: seq<int>, x: int, d: seq<int>, h: int)
    requires Column(col, x, d, h, false)
    ensures |col| >= 1 && x == Own(d, |col|, |col| - 1, h)
  {
  }

  /** Hash h has been combined by the thread it belongs to. */
  ghost predicate Combined(k: nat, nthreads: nat, pc: seq<nat>, h: nat)
    requires Counters(k, nthreads, pc)
  {
    exists u :: Handled(k, nthreads, pc, u, h)
  }

  lemma CombinedStep(k: nat, nthreads: nat, pc: seq<nat>, t: nat, h: nat)
    requires Counters(k, nthreads, pc) && t < nthreads && pc[t] < ChunkLength(k, nthreads, t)
    ensures !Combined(k, nthreads, pc, NextItem(k, nthreads, pc, t))
    ensures Counters(k, nthreads, pc[t := pc[t] + 1])
    ensures Combined(k, nthreads, pc[t := pc[t] + 1], h) <==>
            Combined(k, nthreads, pc, h) || h == NextItem(k, nthreads, pc, t)
  {
    hide ChunkStart, ChunkLength;
    var x, pc' := NextItem(k, nthreads, pc, t), pc[t := pc[t] + 1];
    CountersStep(k, nthreads, pc, t, t, x);
    if u :| Handled(k, nthreads, pc, u, x) { OneOwner(k, nthreads, t, u, x); }
    if u :| Handled(k, nthreads, pc, u, h) {
      CountersStep(k, nthreads, pc, t, u, h);
      assert Handled(k, nthreads, pc', u, h);
    }
    if u :| Handled(k, nthreads, pc', u, h) {
      CountersStep(k, nthreads, pc, t, u, h);
    }
    assert Handled(k, nthreads, pc', t, x);
  }

  ghost predicate ColumnsOk(hist: seq<seq<int>>, seg: seq<int>, d: seq<int>, k: nat, pc: seq<nat>) {
    && Shape(hist, k) && |seg| == k && Counters(k, |hist|, pc)
    && forall h {:trigger seg[h]} :: 0 <= h < k ==> Column(ColumnOf(hist, h), seg[h], d, h, Combined(k, |hist|, pc, h))
  }

  lemma ColumnsStep(hist: seq<seq<int>>, seg: seq<int>, hist': seq<seq<int>>, seg': seq<int>, d: seq<int>, k: nat,
                    pc: seq<nat>, t: nat)
    requires ColumnsOk(hist, seg, d, k, pc) && t < |hist| && pc[t] < ChunkLength(k, |hist|, t)
    requires var x := NextItem(k, |hist|, pc, t);
             OtherColumns(hist, hist', x) && |seg'| == k && seg' == seg[x := seg'[x]] &&
               Column(ColumnOf(hist', x), seg'[x], d, x, true)
    ensures ColumnsOk(hist', seg', d, k, pc[t := pc[t] + 1])
  {
    hide Combined, Column, ChunkStart, ChunkLength;
    var x, pc' := NextItem(k, |hist|, pc, t), pc[t := pc[t] + 1];
    CombinedStep(k, |hist|, pc, t, x);
    forall h {:trigger seg'[h]} | 0 <= h < k
      ensures Column(ColumnOf(hist', h), seg'[h], d, h, Combined(k, |hist|, pc', h))
    {
      CombinedStep(k, |hist|, pc, t, h);
      if h != x {
        assert seg'[h] == seg[h];
        assert ColumnOf(hist', h) == ColumnOf(hist, h);
      }
    }
  }

  /** One thread combines one of its hash values. */
  method CombineTurn(hist: array<seq<int>>, cur: array<int>, base: nat, k: nat, pc: array<nat>, t: nat,
                     ghost d: seq<int>, ghost cur0: seq<int>)
    requires base + k <= cur.Length && t < hist.Length == pc.Length && Counters(k, hist.Length, pc[..]) &&
             pc[t] < ChunkLength(k, hist.Length, t)
    requires ColumnsOk(hist[..], cur[base..base + k], d, k, pc[..]) && OnlySegment(cur0, cur[..], base, k)
    modifies hist, cur, pc
    ensures Counters(k, hist.Length, pc[..]) && ColumnsOk(hist[..], cur[base..base + k], d, k, pc[..]) &&
            OnlySegment(cur0, cur[..], base, k)
    ensures SameWidths(old(hist[..]), hist[..])
    ensures Left(k, hist.Length, pc[..], hist.Length) < old(Left(k, hist.Length, pc[..], hist.Length))
  {
    hide Own, Before, Count, Column, OtherColumns, ChunkStart, ChunkLength, ColumnsOk;
    ghost var hist0, seg0, pc0 := hist[..], cur[base..base + k], pc[..];
    var h := NextItem(k, hist.Length, pc[..], t);
    NextColumn(hist0, seg0, d, k, pc0, t);
    CombineColumn(hist, cur, base, k, h, d);
    OtherColumnsWidths(hist0, hist[..], h);
    ColumnsStep(hist0, seg0, hist[..], cur[base..base + k], d, k, pc0, t);
    CountersStep(k, hist.Length, pc0, t, t, h);
    LeftShrinks(k, hist.Length, pc0, t, hist.Length);
    pc[t] := pc[t] + 1;
    assert pc[..] == pc0[t := pc0[t] + 1];
  }

  lemma OtherColumnsWidths(hist: seq<seq<int>>, hist': seq<seq<int>>, h: nat)
    requires OtherColumns(hist, hist', h)
    ensures SameWidths(hist, hist')
  {
  }

  lemma NextColumn(hist: seq<seq<int>>, seg: seq<int>, d: seq<int>, k: nat, pc: seq<nat>, t: nat)
    requires Counters(k, |hist|, pc) && ColumnsOk(hist, seg, d, k, pc) && t < |hist| &&
             pc[t] < ChunkLength(k, |hist|, t)
    ensures var h := NextItem(k, |hist|, pc, t);
            h < |seg| == k && (forall u :: 0 <= u < |hist| ==> h < |hist[u]|) &&
              Column(ColumnOf(hist, h), seg[h], d, h, false)
  {
    hide Combined, Column, ChunkStart, ChunkLength;
    var h := NextItem(k, |hist|, pc, t);
    CombinedStep(k, |hist|, pc, t, h);
    assert seg[h] == seg[h];
  }

  /** When all is combined: per thread what comes before its chunk, globally the totals. */
  ghost predicate AllCombined(hist: seq<seq<int>>, seg: seq<int>, d: seq<int>, k: nat) {
    && Shape(hist, k) && |seg| == k
    && (forall h {:trigger seg[h]} :: 0 <= h < k ==> seg[h] == Count(d, h))
    && (forall t, h {:trigger hist[t][h]} :: 0 <= t < |hist| && 0 <= h < k ==> hist[t][h] == Before(d, |hist|, t, h))
  }

  lemma ColumnsBegin(hist: seq<seq<int>>, seg: seq<int>, d: seq<int>, k: nat, pc: seq<nat>)
    requires ColumnsCounted(hist, seg, d, k) && |pc| == |hist| && forall t :: 0 <= t < |pc| ==> pc[t] == 0
    ensures Counters(k, |hist|, pc) && ColumnsOk(hist, seg, d, k, pc)
  {
    hide Column;
    forall h | 0 <= h < k ensures !Combined(k, |hist|, pc, h) {}
  }

  lemma ColumnsEnd(hist: seq<seq<int>>, seg: seq<int>, d: seq<int>, k: nat, pc: seq<nat>)
    requires Counters(k, |hist|, pc) && ColumnsOk(hist, seg, d, k, pc) &&
             forall t :: 0 <= t < |hist| ==> pc[t] >= ChunkLength(k, |hist|, t)
    ensures AllCombined(hist, seg, d, k)
  {
    hide ChunkStart, ChunkLength, Before, Count, Own;
    forall h | 0 <= h < k ensures Column(ColumnOf(hist, h), seg[h], d, h, true) {
      ChunkEnd(k, |hist|);
      var u := OwnerOf(k, |hist|, h, |hist|);
      assert Handled(k, |hist|, pc, u, h);
      assert seg[h] == seg[h];
    }
    forall t, h {:trigger hist[t][h]} | 0 <= t < |hist| && 0 <= h < k ensures hist[t][h] == Before(d, |hist|, t, h) {
      var col := ColumnOf(hist, h);
      assert Column(col, seg[h], d, h, true);
      BeforeEnds(d, |hist|, h);
      assert col[t] == hist[t][h];
    }
  }

  /** All combinations, up to the second barrier. */
  method CombineHistograms(hist: array<seq<int>>, cur: array<int>, base: nat, k: nat, ghost d: seq<int>)
    requires base + k <= cur.Length && ColumnsCounted(hist[..], cur[base..base + k], d, k)
    modifies hist, cur
    ensures OnlySegment(old(cur[..]), cur[..], base, k) && SameWidths(old(hist[..]), hist[..]) &&
            AllCombined(hist[..], cur[base..base + k], d, k)
  {
    hide Count, ChunkStart, ChunkLength, ColumnsCounted, OnlySegment, ColumnsOk;
    assert hist.Length >= 1 by { hide *; CountedShape(hist[..], cur[base..base + k], d, k); }
    var pc := new nat[hist.Length](_ => 0);
    ghost var cur0, hist0 := cur[..], hist[..];
    ColumnsBegin(hist[..], cur[base..base + k], d, k, pc[..]);
    SegmentSame(cur0, base, k);
    while exists t :: 0 <= t < hist.Length && pc[t] < ChunkLength(k, hist.Length, t)
      invariant fresh(pc) && Counters(k, hist.Length, pc[..]) && SameWidths(hist0, hist[..])
      invariant ColumnsOk(hist[..], cur[base..base + k], d, k, pc[..]) && OnlySegment(cur0, cur[..], base, k)
      decreases Left(k, hist.Length, pc[..], hist.Length)
    {
      var t :| 0 <= t < hist.Length && pc[t] < ChunkLength(k, hist.Length, t);
      CombineTurn(hist, cur, base, k, pc, t, d, cur0);
    }
    ColumnsEnd(hist[..], cur[base..base + k], d, k, pc[..]);
  }

  lemma CountedShape(hist: seq<seq<int>>, seg: seq<int>, d: seq<int>, k: nat)
    requires ColumnsCounted(hist, seg, d, k)
    ensures |hist| >= 1
  {
  }

  // ----- 3. prefix sums -----

  /** The first i entries are cluster ends, the others still totals. */
  ghost predicate EndsUpTo(seg: seq<int>, d: seq<int>, off: nat, i: nat) {
    && (forall h {:trigger seg[h]} :: 0 <= h < |seg| && h < i ==> seg[h] == off + Below(d, h + 1))
    && (forall h {:trigger seg[h]} :: i <= h < |seg| ==> seg[h] == Count(d, h))
  }

  lemma EndsStep(seg: seq<int>, d: seq<int>, off: nat, i: nat)
    requires EndsUpTo(seg, d, off, i) && i < |seg| && Nonnegative(d)
    ensures EndsUpTo(seg[i := seg[i] + if i == 0 then off else seg[i - 1]], d, off, i + 1)
  {
    hide Below, Count;
    BelowNext(d, i);
    if i == 0 { BelowNone(d); }
  }

  /** Thread 0 turns the totals into the ends of the clusters. */
  method PrefixSums(cur: array<int>, base: nat, k: nat, off: nat, ghost d: seq<int>)
    requires base + k <= cur.Length && k >= 1 && Nonnegative(d) && EndsUpTo(cur[base..base + k], d, off, 0)
    modifies cur
    ensures OnlySegment(old(cur[..]), cur[..], base, k) && EndsUpTo(cur[base..base + k], d, off, k)
  {
    hide EndsUpTo;
    EndsStep(cur[base..base + k], d, off, 0);
    cur[base] := cur[base] + off;
    assert cur[base..base + k] == old(cur[base..base + k])[0 := cur[base]];
    var i := 1;
    while i < k
      invariant 1 <= i <= k && OnlySegment(old(cur[..]), cur[..], base, k) && EndsUpTo(cur[base..base + k], d, off, i)
    {
      ghost var seg := cur[base..base + k];
      EndsStep(seg, d, off, i);
      cur[base + i] := cur[base + i] + cur[base + i - 1];
      assert cur[base..base + k] == seg[i := seg[i] + seg[i - 1]];
      i := i + 1;
    }
  }
}
