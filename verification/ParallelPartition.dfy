/** parallel_radix_partition of parallel_radix_join.c: every thread counts its own chunk, and
    after a barrier works out from all histograms where its tuples go and copies them. The
    threads take their steps in any order; each scheduler loop ends where the barrier is. */
module ParallelPartition {
  import opened Chunks
  import opened Counting
  import opened JoinSpec
  import opened KeyBits
  import opened StablePartition
  import opened ThreadedScatter

  // ----- before the barrier: local histograms and their prefix sums -----

  /** A thread's histogram row: counts of what it has seen, in the end summed up. */
  ghost predicate RowOk(row: seq<int>, chunk: seq<int>, fanOut: nat, pc: nat, summed: bool) {
    && |row| == fanOut && pc <= |chunk| && (summed ==> pc == |chunk|)
    && forall c :: 0 <= c < fanOut ==> row[c] == if summed then Below(chunk, c + 1) else Count(chunk[..pc], c)
  }

  ghost predicate RowsOk(hist: seq<seq<int>>, d: seq<int>, nthreads: nat, fanOut: nat, pc: seq<nat>,
                         summed: seq<bool>)
  {
    && |hist| == |pc| == |summed| == nthreads
    && forall t :: 0 <= t < nthreads ==> RowOk(hist[t], Chunk(d, nthreads, t), fanOut, pc[t], summed[t])
  }

  method SumRow(row: seq<int>, ghost chunk: seq<int>) returns (sums: seq<int>)
    requires Nonnegative(chunk) && forall c :: 0 <= c < |row| ==> row[c] == Count(chunk, c)
    ensures |sums| == |row| && forall c :: 0 <= c < |row| ==> sums[c] == Below(chunk, c + 1)
  {
    var i, sum := 0, 0;
    sums := row;
    BelowNone(chunk);
    while i < |row|
      invariant 0 <= i <= |row| == |sums| && sum == Below(chunk, i)
      invariant forall c :: 0 <= c < i ==> sums[c] == Below(chunk, c + 1)
      invariant forall c :: i <= c < |row| ==> sums[c] == row[c]
    {
      BelowNext(chunk, i);
      sum := sum + sums[i];
      sums := sums[i := sum];
      i := i + 1;
    }
  }

  /** One step of a thread before the barrier: count a tuple or, at the end, sum the row. */
  method CountStep(row: seq<int>, digit: nat, ghost chunk: seq<int>, ghost pc: nat) returns (row': seq<int>)
    requires RowOk(row, chunk, |row|, pc, false) && pc < |chunk| && chunk[pc] == digit < |row|
    ensures RowOk(row', chunk, |row|, pc + 1, false)
  {
    forall c
      ensures Count(chunk[..pc+1], c) == Count(chunk[..pc], c) + if chunk[pc] == c then 1 else 0
    {
      CountPrefix(chunk, pc, c);
    }
    row' := row[digit := row[digit] + 1];
  }

  method SumStep(row: seq<int>, ghost chunk: seq<int>) returns (row': seq<int>)
    requires RowOk(row, chunk, |row|, |chunk|, false) && Nonnegative(chunk)
    ensures RowOk(row', chunk, |row|, |chunk|, true)
  {
    assert chunk[..|chunk|] == chunk;
    row' := SumRow(row, chunk);
  }

  /** All threads, in any interleaving, up to the barrier. */
  method Histograms(rel: array<Tuple>, n: nat, nthreads: nat, R: nat, D: nat) returns (hist: array<seq<int>>)
    requires n <= rel.Length && nthreads >= 1
    ensures fresh(hist) && hist.Length == nthreads
    ensures forall t :: 0 <= t < nthreads ==> |hist[t]| == Pow2(D)
    ensures forall t, c :: 0 <= t < nthreads && 0 <= c < Pow2(D) ==>
              hist[t][c] == Below(Chunk(Digits(rel[..n], ByKey(Bits(R, D))), nthreads, t), c + 1)
  {
    hide Digits, ChunkStart, ChunkLength, Pow2, Count, Below;
    ghost var d := Digits(rel[..n], ByKey(Bits(R, D)));
    var fanOut := Pow2(D);
    hist := new seq<int>[nthreads](_ => seq(fanOut, _ => 0));
    var pc := new nat[nthreads](_ => 0);
    var summed := new bool[nthreads](_ => false);
    RowsBegin(hist[..], d, nthreads, fanOut, pc[..], summed[..]);
    while exists t :: 0 <= t < nthreads && !summed[t]
      invariant RowsOk(hist[..], d, nthreads, fanOut, pc[..], summed[..]) && Counters(n, nthreads, pc[..])
      decreases Left(n, nthreads, pc[..], nthreads), Unfinished(summed[..])
    {
      var t :| 0 <= t < nthreads && !summed[t];
      HistogramTurn(rel, n, nthreads, R, D, hist, pc, summed, t, d);
    }
    assert forall t ::
          0 <= t < nthreads ==> RowOk(hist[..][t], Chunk(d, nthreads, t), fanOut, pc[..][t], summed[..][t]);
  }

  lemma RowsBegin(hist: seq<seq<int>>, d: seq<int>, nthreads: nat, fanOut: nat, pc: seq<nat>, summed: seq<bool>)
    requires |hist| == |pc| == |summed| == nthreads >= 1
    requires forall t :: 0 <= t < nthreads ==> hist[t] == seq(fanOut, _ => 0) && pc[t] == 0 && !summed[t]
    ensures RowsOk(hist, d, nthreads, fanOut, pc, summed) && Counters(|d|, nthreads, pc)
  {
    forall t | 0 <= t < nthreads ensures RowOk(hist[t], Chunk(d, nthreads, t), fanOut, pc[t], summed[t]) {
      assert Chunk(d, nthreads, t)[..0] == [];
    }
  }

  method HistogramTurn(rel: array<Tuple>, n: nat, nthreads: nat, R: nat, D: nat, hist: array<seq<int>>,
                       pc: array<nat>, summed: array<bool>, t: nat, ghost d: seq<int>)
    requires n <= rel.Length && d == Digits(rel[..n], ByKey(Bits(R, D)))
    requires t < nthreads && hist.Length == pc.Length == summed.Length == nthreads && !summed[t]
    requires RowsOk(hist[..], d, nthreads, Pow2(D), pc[..], summed[..]) && Counters(n, nthreads, pc[..])
    modifies hist, pc, summed
    ensures RowsOk(hist[..], d, nthreads, Pow2(D), pc[..], summed[..]) && Counters(n, nthreads, pc[..])
    ensures (pc[..] == old(pc[..]) && Unfinished(summed[..]) < old(Unfinished(summed[..]))) ||
            (summed[..] == old(summed[..]) &&
              Left(n, nthreads, pc[..], nthreads) < old(Left(n, nthreads, pc[..], nthreads)))
  {
    hide Digits, Pow2, Count, Below;
    ghost var chunk := Chunk(d, nthreads, t);
    assert RowOk(hist[..][t], chunk, Pow2(D), pc[..][t], summed[..][t]);
    if pc[t] < ChunkLength(n, nthreads, t) {
      var item := NextItem(n, nthreads, pc[..], t);
      var idx := Bits(R, D)(rel[item].key);
      assert rel[..n][item] == rel[item] && chunk[pc[t]] == d[item] == idx;
      LeftShrinks(n, nthreads, pc[..], t, nthreads);
      hist[t] := CountStep(hist[t], idx, chunk, pc[t]);
      pc[t] := pc[t] + 1;
    } else {
      ChunkNonnegative(d, nthreads, t);
      hist[t] := SumStep(hist[t], chunk);
      FinishOne(summed[..], t);
      summed[t] := true;
    }
  }

  // ----- after the barrier: where each thread's tuples go -----

  /** The summed histograms of all threads. */
  ghost predicate Summed(hist: seq<seq<int>>, d: seq<int>, nthreads: nat, fanOut: nat) {
    && |hist| == nthreads >= 1 && Nonnegative(d)
    && (forall t :: 0 <= t < nthreads ==> |hist[t]| == fanOut)
    && forall t, c :: 0 <= t < nthreads && 0 <= c < fanOut ==> hist[t][c] == Below(Chunk(d, nthreads, t), c + 1)
  }

  lemma ChunkAppend(d: seq<int>, nthreads: nat, from: nat, t: nat, c: int)
    requires from <= t < nthreads
    ensures ChunkStart(|d|, nthreads, from) <= ChunkStart(|d|, nthreads, t) <= ChunkStart(|d|, nthreads, t + 1) <= |d|
    ensures Below(d[ChunkStart(|d|, nthreads, from)..ChunkStart(|d|, nthreads, t + 1)], c) ==
            Below(d[ChunkStart(|d|, nthreads, from)..ChunkStart(|d|, nthreads, t)], c) + Below(Chunk(d, nthreads, t), c)
  {
    ChunksAscend(|d|, nthreads, from, t);
    ChunksAscend(|d|, nthreads, t, t + 1);
    ChunksAscend(|d|, nthreads, t + 1, nthreads);
    var a, b, e := ChunkStart(|d|, nthreads, from), ChunkStart(|d|, nthreads, t), ChunkStart(|d|, nthreads, t + 1);
    assert d[a..e] == d[a..b] + Chunk(d, nthreads, t);
    CountAppend(d[a..b], Chunk(d, nthreads, t), c);
  }

  /** Digits of the chunks from thread a up to, not including, thread b. */
  ghost function Stretch(d: seq<int>, nthreads: nat, a: nat, b: nat): seq<int>
    requires a <= b <= nthreads && nthreads >= 1
  {
    ChunksAscend(|d|, nthreads, a, b);
    d[ChunkStart(|d|, nthreads, a)..ChunkStart(|d|, nthreads, b)]
  }

  lemma StretchGrows(d: seq<int>, nthreads: nat, a: nat, t: nat, c: int)
    requires a <= t < nthreads
    ensures Below(Stretch(d, nthreads, a, t + 1), c) ==
            Below(Stretch(d, nthreads, a, t), c) + Below(Chunk(d, nthreads, t), c)
    ensures Stretch(d, nthreads, a, a) == []
  {
    ChunkAppend(d, nthreads, a, t, c);
  }

  /** The mixed sum: earlier threads contribute their counts up to and including a cluster,
      this thread and later ones only their counts of smaller clusters. Together that is
      everything smaller plus what earlier threads put into the same cluster. */
  lemma MixedSum(d: seq<int>, nthreads: nat, t: nat, c: nat)
    requires t < nthreads && Nonnegative(d)
    ensures ChunkStart(|d|, nthreads, t) <= |d|
    ensures Below(Stretch(d, nthreads, 0, t), c + 1) +
            (if c == 0 then 0 else Below(Stretch(d, nthreads, t, nthreads), c)) ==
            Below(d, c) + Count(d[..ChunkStart(|d|, nthreads, t)], c)
  {
    var lo := ChunkStart(|d|, nthreads, t);
    ChunkEnd(|d|, nthreads);
    ChunksAscend(|d|, nthreads, 0, t);
    ChunksAscend(|d|, nthreads, t, nthreads);
    assert Stretch(d, nthreads, 0, t) == d[..lo] && Stretch(d, nthreads, t, nthreads) == d[lo..];
    assert d == d[..lo] + d[lo..];
    CountAppend(d[..lo], d[lo..], c);
    BelowNext(d[..lo], c);
    if c == 0 {
      BelowNone(d);
      BelowNone(d[..lo]);
    }
  }

  /** Add a histogram row to the output, at the same entries or one further up. */
  method AddRow(output: seq<int>, row: seq<int>, shift: nat) returns (output': seq<int>)
    requires |output| == |row| + 1 && shift <= 1
    ensures |output'| == |output| && output'[|row|] == output[|row|]
    ensures forall j :: 0 <= j < |row| ==> output'[j] == output[j] + if j >= shift then row[j - shift] else 0
  {
    output' := output;
    var j := shift;
    while j < |row|
      invariant shift <= j && (j <= |row| || j == shift) && |output'| == |output| && output'[|row|] == output[|row|]
      invariant forall i ::
                  0 <= i < j && i < |row| ==> output'[i] == output[i] + if i >= shift then row[i - shift] else 0
      invariant forall i :: j <= i < |row| ==> output'[i] == output[i]
    {
      output' := output'[j := output'[j] + row[j - shift]];
      j := j + 1;
    }
  }

  /** Where thread t puts its first tuple of every cluster; entry fanOut is the end. */
  ghost predicate FirstSlots(output: seq<int>, d: seq<int>, lo: nat, padding: nat, fanOut: nat) {
    && |output| == fanOut + 1 && lo <= |d|
    && (forall c :: 0 <= c < fanOut ==> output[c] == Below(d, c) + Count(d[..lo], c) + c * padding)
    && output[fanOut] == |d| + fanOut * padding
  }

  method Outputs(hist: array<seq<int>>, nthreads: nat, t: nat, fanOut: nat, padding: nat, total: nat,
                 ghost d: seq<int>)
    returns (output: seq<int>)
    requires hist.Length == nthreads && t < nthreads && Summed(hist[..], d, nthreads, fanOut) && total == |d|
    ensures FirstSlots(output, d, ChunkStart(|d|, nthreads, t), padding, fanOut)
  {
    hide Below, Count, ChunkStart, Chunk;
    output := seq(fanOut + 1, _ => 0);
    var i := 0;
    StretchEmpty(d, nthreads, 0);
    while i < t
      invariant 0 <= i <= t && |output| == fanOut + 1
      invariant forall j :: 0 <= j < fanOut ==> output[j] == Below(Stretch(d, nthreads, 0, i), j + 1)
    {
      forall c
        ensures Below(Stretch(d, nthreads, 0, i + 1), c) ==
                Below(Stretch(d, nthreads, 0, i), c) + Below(Chunk(d, nthreads, i), c)
      {
        StretchGrows(d, nthreads, 0, i, c);
      }
      assert hist[..][i] == hist[i];
      output := AddRow(output, hist[i], 0);
      i := i + 1;
    }
    ghost var first := output;
    StretchEmpty(d, nthreads, t);
    while i < nthreads
      invariant t <= i <= nthreads && |output| == fanOut + 1
      invariant forall j ::
                  0 <= j < fanOut ==>
                    output[j] == first[j] + if j == 0 then 0 else Below(Stretch(d, nthreads, t, i), j)
    {
      forall c
        ensures Below(Stretch(d, nthreads, t, i + 1), c) ==
                Below(Stretch(d, nthreads, t, i), c) + Below(Chunk(d, nthreads, i), c)
      {
        StretchGrows(d, nthreads, t, i, c);
      }
      assert hist[..][i] == hist[i];
      output := AddRow(output, hist[i], 1);
      i := i + 1;
    }
    output := AddPadding(output, fanOut, padding, total);
    forall c | 0 <= c < fanOut
      ensures output[c] == Below(d, c) + Count(d[..ChunkStart(|d|, nthreads, t)], c) + c * padding
    {
      MixedSum(d, nthreads, t, c);
    }
  }

  lemma StretchEmpty(d: seq<int>, nthreads: nat, a: nat)
    requires a <= nthreads && nthreads >= 1
    ensures forall c :: Below(Stretch(d, nthreads, a, a), c) == 0
  {
    assert Stretch(d, nthreads, a, a) == [];
  }

  method AddPadding(output: seq<int>, fanOut: nat, padding: nat, total: nat) returns (output': seq<int>)
    requires |output| == fanOut + 1
    ensures |output'| == fanOut + 1 && output'[fanOut] == total + fanOut * padding
    ensures forall j :: 0 <= j < fanOut ==> output'[j] == output[j] + j * padding
  {
    output' := output;
    var i := 0;
    while i < fanOut
      invariant 0 <= i <= fanOut && |output'| == fanOut + 1
      invariant forall j :: 0 <= j < i ==> output'[j] == output[j] + j * padding
      invariant forall j :: i <= j < fanOut ==> output'[j] == output[j]
    {
      output' := output'[i := output'[i] + i * padding];
      i := i + 1;
    }
    output' := output'[fanOut := total + fanOut * padding];
  }

  // ----- after the barrier: copying -----

  /** One thread after the barrier: once it knows its slots, its cursors stand behind the
      tuples it has copied. */
  ghost predicate ThreadOk(ready: bool, output: seq<int>, dst: seq<int>, start: seq<int>, d: seq<int>, lo: nat,
                           pc: nat, padding: nat, fanOut: nat)
  {
    if ready then FirstSlots(output, d, lo, padding, fanOut) && |dst| == fanOut && Cursors(dst, start, d, lo + pc)
      else pc == 0
  }

  ghost predicate ThreadsOk(ready: seq<bool>, outputs: seq<seq<int>>, dst: seq<seq<int>>, start: seq<int>,
                            d: seq<int>, nthreads: nat, pc: seq<nat>, padding: nat, fanOut: nat)
  {
    && nthreads >= 1 && |ready| == |outputs| == |dst| == |pc| == nthreads
    && forall t ::
           0 <= t < nthreads ==>
             ThreadOk(ready[t], outputs[t], dst[t], start, d, ChunkStart(|d|, nthreads, t), pc[t], padding, fanOut)
  }

  /** Initial cursors of all clusters together. */
  ghost function GlobalStart(d: seq<int>, padding: nat, fanOut: nat): (start: seq<int>)
    ensures |start| == fanOut && Starts(start, d, 0, padding)
  {
    seq(fanOut, c requires 0 <= c < fanOut => 0 + Below(d, c) + c * padding)
  }

  lemma ReadyCursors(output: seq<int>, start: seq<int>, d: seq<int>, lo: nat, padding: nat, fanOut: nat)
    requires FirstSlots(output, d, lo, padding, fanOut) && |start| == fanOut && Starts(start, d, 0, padding)
    ensures Cursors(output[..fanOut], start, d, lo)
  {
  }

  /** One step of thread t after the barrier: work out its slots, or copy one tuple. */
  method CopyTurn(rel: array<Tuple>, n: nat, nthreads: nat, R: nat, D: nat, padding: nat, out: array<Tuple>,
                  hist: array<seq<int>>, ready: array<bool>, outputs: array<seq<int>>, dst: array<seq<int>>,
                  pc: array<nat>, t: nat, ghost s: Relation, ghost d: seq<int>, ghost start: seq<int>,
                  ghost out0: Relation, ghost hi: nat)
    requires n <= rel.Length && rel != out && s == rel[..n] && d == Digits(s, ByKey(Bits(R, D)))
    requires t < nthreads && hist.Length == ready.Length == outputs.Length == dst.Length == pc.Length == nthreads
    requires hist != outputs && hist != dst && outputs != dst
    requires Summed(hist[..], d, nthreads, Pow2(D)) && |start| == Pow2(D) && Starts(start, d, 0, padding)
    requires Targets(Places(d, 0, padding), 0, hi)
    requires ThreadsOk(ready[..], outputs[..], dst[..], start, d, nthreads, pc[..], padding, Pow2(D))
    requires Progressed(s, Places(d, 0, padding), out0, out[..], 0, hi, nthreads, pc[..])
    requires !ready[t] || pc[t] < ChunkLength(n, nthreads, t)
    modifies out, ready, outputs, dst, pc
    ensures ThreadsOk(ready[..], outputs[..], dst[..], start, d, nthreads, pc[..], padding, Pow2(D))
    ensures Progressed(s, Places(d, 0, padding), out0, out[..], 0, hi, nthreads, pc[..])
    ensures (pc[..] == old(pc[..]) && Unfinished(ready[..]) < old(Unfinished(ready[..]))) ||
            (ready[..] == old(ready[..]) &&
              Left(n, nthreads, pc[..], nthreads) < old(Left(n, nthreads, pc[..], nthreads)))
  {
    hide Digits, Places, Below, Count, Chunk, Targets, Starts, Pow2, Progressed, ChunkStart, ChunkLength, Summed;
    assert ThreadOk(ready[..][t], outputs[..][t], dst[..][t], start, d, ChunkStart(n, nthreads, t), pc[..][t],
        padding, Pow2(D));
    if !ready[t] {
      outputs[t] := Outputs(hist, nthreads, t, Pow2(D), padding, n, d);
      dst[t] := outputs[t][..Pow2(D)];
      ReadyCursors(outputs[t], start, d, ChunkStart(n, nthreads, t), padding, Pow2(D));
      FinishOne(ready[..], t);
      ready[t] := true;
    } else {
      CopyTuple(rel, n, nthreads, R, D, padding, out, dst, pc, t, s, d, start, out0, hi);
    }
  }

  /** Copy the next tuple of thread t. No thread has written its slot before. */
  method CopyTuple(rel: array<Tuple>, n: nat, nthreads: nat, R: nat, D: nat, padding: nat, out: array<Tuple>,
                   dst: array<seq<int>>, pc: array<nat>, t: nat, ghost s: Relation, ghost d: seq<int>,
                   ghost start: seq<int>, ghost out0: Relation, ghost hi: nat)
    requires n <= rel.Length && rel != out && s == rel[..n] && d == Digits(s, ByKey(Bits(R, D)))
    requires t < nthreads && dst.Length == pc.Length == nthreads
    requires |start| == Pow2(D) && Starts(start, d, 0, padding) && Targets(Places(d, 0, padding), 0, hi)
    requires Progressed(s, Places(d, 0, padding), out0, out[..], 0, hi, nthreads, pc[..])
    requires pc[t] < ChunkLength(n, nthreads, t)
    requires |dst[t]| == Pow2(D) && Cursors(dst[t], start, d, ChunkStart(n, nthreads, t) + pc[t])
    modifies out, dst, pc
    ensures Progressed(s, Places(d, 0, padding), out0, out[..], 0, hi, nthreads, pc[..])
    ensures |dst[t]| == Pow2(D) && Cursors(dst[t], start, d, ChunkStart(n, nthreads, t) + pc[t])
    ensures pc[..] == old(pc[..])[t := old(pc[t]) + 1] &&
            forall u :: 0 <= u < nthreads && u != t ==> dst[u] == old(dst[u])
    ensures Counters(n, nthreads, old(pc[..])) &&
            Left(n, nthreads, pc[..], nthreads) < old(Left(n, nthreads, pc[..], nthreads))
  {
    hide Digits, Places, Below, Count, Targets, Starts, Pow2;
    ghost var pl := Places(d, 0, padding);
    var item := NextItem(n, nthreads, pc[..], t);
    var tuple := rel[item];
    assert tuple == s[item];
    var idx := Bits(R, D)(tuple.key);
    assert idx == d[item];
    CursorIsPlace(dst[t], start, d, 0, padding, item);
    CursorStep(dst[t], start, d, item);
    ThreadStep(s, pl, out0, out[..], 0, hi, nthreads, pc[..], t);
    CountersStep(n, nthreads, pc[..], t, t, item);
    LeftShrinks(n, nthreads, pc[..], t, nthreads);
    TargetInside(pl, 0, hi, item);
    out[dst[t][idx]] := tuple;
    dst[t] := dst[t][idx := dst[t][idx] + 1];
    pc[t] := pc[t] + 1;
  }

  lemma TargetInside(pl: seq<int>, lo: int, hi: int, i: nat)
    requires Targets(pl, lo, hi) && i < |pl|
    ensures lo <= pl[i] < hi
  {
  }

  /** Everything after the barrier. */
  method CopyPhase(rel: array<Tuple>, n: nat, out: array<Tuple>, nthreads: nat, R: nat, D: nat, padding: nat,
                   hist: array<seq<int>>, ghost s: Relation, ghost d: seq<int>, ghost start: seq<int>,
                   ghost out0: Relation, ghost hi: nat)
    returns (output: seq<int>)
    requires n <= rel.Length && rel != out && s == rel[..n] && d == Digits(s, ByKey(Bits(R, D))) && out0 == out[..]
    requires nthreads >= 1 && hist.Length == nthreads && Summed(hist[..], d, nthreads, Pow2(D))
    requires |start| == Pow2(D) && Starts(start, d, 0, padding) && Targets(Places(d, 0, padding), 0, hi) &&
             hi <= out.Length
    modifies out
    ensures ScatteredUpTo(s, Places(d, 0, padding), out0, out[..], 0, hi, n)
    ensures |output| == Pow2(D) + 1 && output[Pow2(D)] == n + Pow2(D) * padding
    ensures forall c :: 0 <= c < Pow2(D) ==> output[c] == Below(d, c) + c * padding
  {
    hide Digits, Places, Below, Count, Targets, Pow2, Progressed, ChunkStart, ChunkLength, ThreadsOk, Starts, Summed,
         ScatteredUpTo;
    var ready, pc := new bool[nthreads](_ => false), new nat[nthreads](_ => 0);
    var outputs, dst := new seq<int>[nthreads](_ => []), new seq<int>[nthreads](_ => []);
    ThreadsBegin(s, Places(d, 0, padding), out0, 0, hi, nthreads, pc[..]);
    CopyBegin(ready[..], outputs[..], dst[..], start, d, nthreads, pc[..], padding, Pow2(D));
    ProgressedCounters(s, Places(d, 0, padding), out0, out[..], 0, hi, nthreads, pc[..]);
    ghost var summedHist := hist[..];
    while exists t :: 0 <= t < nthreads && (!ready[t] || pc[t] < ChunkLength(n, nthreads, t))
      invariant fresh(ready) && fresh(pc) && fresh(outputs) && fresh(dst) && rel[..n] == s && hist[..] == summedHist
      invariant ThreadsOk(ready[..], outputs[..], dst[..], start, d, nthreads, pc[..], padding, Pow2(D))
      invariant Progressed(s, Places(d, 0, padding), out0, out[..], 0, hi, nthreads, pc[..]) &&
                Counters(n, nthreads, pc[..])
      decreases Left(n, nthreads, pc[..], nthreads), Unfinished(ready[..])
    {
      var t :| 0 <= t < nthreads && (!ready[t] || pc[t] < ChunkLength(n, nthreads, t));
      CopyTurn(rel, n, nthreads, R, D, padding, out, hist, ready, outputs, dst, pc, t, s, d, start, out0, hi);
      ProgressedCounters(s, Places(d, 0, padding), out0, out[..], 0, hi, nthreads, pc[..]);
    }
    ThreadsDone(s, Places(d, 0, padding), out0, out[..], 0, hi, nthreads, pc[..]);
    FirstRow(ready[..], outputs[..], dst[..], start, d, nthreads, pc[..], padding, Pow2(D));
    output := outputs[0];
  }

  /** The whole partitioning of one relation by all threads. Every tuple ends at the place the
      stable clustering with gaps gives it, however the threads are scheduled; the output row
      of thread 0 holds the cluster starts. */
  method PartitionAll(rel: array<Tuple>, n: nat, out: array<Tuple>, nthreads: nat, R: nat, D: nat, padding: nat)
    returns (output: seq<int>)
    requires n <= rel.Length && rel != out && nthreads >= 1 && n + Pow2(D) * padding <= out.Length
    modifies out
    ensures Placed(rel[..n], out[..], ByKey(Bits(R, D)), 0, padding)
    ensures |output| == Pow2(D) + 1 && output[Pow2(D)] == n + Pow2(D) * padding
    ensures forall c :: 0 <= c < Pow2(D) ==> output[c] == Below(Digits(rel[..n], ByKey(Bits(R, D))), c) + c * padding
  {
    hide Digits, Places, Below, Count, Chunk, Targets, Pow2, Starts, Placed, ScatteredUpTo, ChunkStart, ChunkLength;
    ghost var s, d, out0, hi := rel[..n], Digits(rel[..n], ByKey(Bits(R, D))), out[..], n + Pow2(D) * padding;
    var hist := Histograms(rel, n, nthreads, R, D);
    ghost var start := GlobalStart(d, padding, Pow2(D));
    forall i | 0 <= i < |d| ensures 0 <= d[i] < Pow2(D) { BitsRange(R, D, s[i].key); }
    PlacesAreTargets(d, 0, padding, Pow2(D));
    SummedNow(hist[..], d, nthreads, Pow2(D));
    output := CopyPhase(rel, n, out, nthreads, R, D, padding, hist, s, d, start, out0, hi);
    ScatterDone(s, ByKey(Bits(R, D)), d, out0, out[..], 0, padding, 0, hi);
  }

  lemma ProgressedCounters(s: Relation, pl: seq<int>, out0: Relation, out: Relation, lo: int, hi: int, nthreads: nat,
                           pc: seq<nat>)
    requires Progressed(s, pl, out0, out, lo, hi, nthreads, pc)
    ensures Counters(|s|, nthreads, pc) && |out| == |out0|
  {
  }

  lemma SummedNow(hist: seq<seq<int>>, d: seq<int>, nthreads: nat, fanOut: nat)
    requires |hist| == nthreads >= 1 && Nonnegative(d)
    requires forall t :: 0 <= t < nthreads ==> |hist[t]| == fanOut
    requires forall t, c :: 0 <= t < nthreads && 0 <= c < fanOut ==> hist[t][c] == Below(Chunk(d, nthreads, t), c + 1)
    ensures Summed(hist, d, nthreads, fanOut)
  {
  }

  lemma CopyBegin(ready: seq<bool>, outputs: seq<seq<int>>, dst: seq<seq<int>>, start: seq<int>, d: seq<int>,
                  nthreads: nat, pc: seq<nat>, padding: nat, fanOut: nat)
    requires nthreads >= 1 && |ready| == |outputs| == |dst| == |pc| == nthreads
    requires forall t :: 0 <= t < nthreads ==> !ready[t] && pc[t] == 0
    ensures ThreadsOk(ready, outputs, dst, start, d, nthreads, pc, padding, fanOut)
  {
  }

  lemma FirstRow(ready: seq<bool>, outputs: seq<seq<int>>, dst: seq<seq<int>>, start: seq<int>, d: seq<int>,
                 nthreads: nat, pc: seq<nat>, padding: nat, fanOut: nat)
    requires ThreadsOk(ready, outputs, dst, start, d, nthreads, pc, padding, fanOut) && ready[0]
    ensures |outputs[0]| == fanOut + 1 && outputs[0][fanOut] == |d| + fanOut * padding
    ensures forall c :: 0 <= c < fanOut ==> outputs[0][c] == Below(d, c) + c * padding
  {
    ChunkEnd(|d|, nthreads);
    assert ThreadOk(ready[0], outputs[0], dst[0], start, d, ChunkStart(|d|, nthreads, 0), pc[0], padding, fanOut);
    assert d[..0] == [];
  }
}
