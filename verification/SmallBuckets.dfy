/** What the main loop of mainSort keeps: the pointers stay grouped by their first two bytes,
    and the small buckets that are marked as done are in order. */
module SmallBuckets {
  import opened BucketSynthesis
  import opened BytePairs
  import opened Counting
  import opened PredecessorScan
  import opened Rearrangement
  import opened Rotations

  /** Pointer x may stand at position p. */
  ghost predicate InBucket(b: seq<int>, x: int, p: int) {
    0 <= x < |b| && Start(b, Pairs(b)[x]) <= p < Start(b, Pairs(b)[x] + 1)
  }

  /** Every rotation is listed once, in its small bucket. */
  ghost predicate Grouped(b: seq<int>, ptr: seq<int>) {
    |ptr| == |b| && Distinct(ptr) &&
      forall p {:trigger InBucket(b, ptr[p], p)} :: 0 <= p < |b| ==> InBucket(b, ptr[p], p)
  }

  ghost predicate Ordered(rank: seq<int>, ptr: seq<int>, lo: int, hi: int) {
    0 <= lo && hi <= |ptr| &&
      forall p, q {:trigger AtMost(rank, ptr[p], ptr[q])} :: lo <= p < q < hi ==> AtMost(rank, ptr[p], ptr[q])
  }

  ghost predicate OrderedBucket(b: seq<int>, rank: seq<int>, ptr: seq<int>, v: int) {
    Ordered(rank, ptr, Start(b, v), Start(b, v + 1))
  }

  /** The small buckets marked as done are in order. */
  ghost predicate DoneOrdered(b: seq<int>, rank: seq<int>, ptr: seq<int>, done: seq<bool>) {
    |done| == 65537 &&
      forall v {:trigger OrderedBucket(b, rank, ptr, v)} ::
          0 <= v < 65536 && done[v] ==> OrderedBucket(b, rank, ptr, v)
  }

  lemma PairAt(b: seq<int>, ptr: seq<int>, p: int, v: int, w: int)
    requires Grouped(b, ptr) && 0 <= p < |b| && Start(b, v) <= p < Start(b, w)
    ensures 0 <= ptr[p] < |b| && v <= Pairs(b)[ptr[p]] < w
  {
    hide Start, Pairs;
    assert InBucket(b, ptr[p], p);
    var u := Pairs(b)[ptr[p]];
    if u < v { StartAscends(b, u + 1, v); }
    if u >= w { StartAscends(b, w, u); }
  }

  /** Small buckets in order, one after the other, are in order together. */
  lemma OrderedTogether(b: seq<int>, rank: seq<int>, ptr: seq<int>, done: seq<bool>, v: int, w: int)
    requires IsBytes(b) && Orders(b, rank) && Grouped(b, ptr) && DoneOrdered(b, rank, ptr, done) && 0 <= v <= w <= 65536
    requires forall u :: v <= u < w ==> done[u]
    ensures Ordered(rank, ptr, Start(b, v), Start(b, w))
  {
    hide Start, Pairs, Orders;
    StartAscends(b, w, 65536);
    forall p, q {:trigger AtMost(rank, ptr[p], ptr[q])} | Start(b, v) <= p < q < Start(b, w)
      ensures AtMost(rank, ptr[p], ptr[q])
    {
      PairAt(b, ptr, p, v, w);
      PairAt(b, ptr, q, v, w);
      assert InBucket(b, ptr[p], p) && InBucket(b, ptr[q], q);
      var x, y := Pairs(b)[ptr[p]], Pairs(b)[ptr[q]];
      if x < y {
        PairOrder(b, rank, ptr[p], ptr[q]);
      } else {
        if y < x { StartAscends(b, y + 1, x); }
        assert OrderedBucket(b, rank, ptr, x);
      }
    }
  }

  // ----- what step 2 needs of step 1 -----

  ghost predicate SmallDone(done: seq<bool>, ss: int) {
    |done| == 65537 && 0 <= ss < 256 && forall v :: 256 * ss <= v < 256 * ss + 256 && v != 256 * ss + ss ==> done[v]
  }

  lemma PairBytes(b: seq<int>, x: int, ss: int)
    requires IsBytes(b) && 0 <= x < |b| && 0 <= ss < 256 && 256 * ss <= Pairs(b)[x] < 256 * ss + 256
    ensures b[x] == ss && b[Next(|b|, x)] == Pairs(b)[x] - 256 * ss
  {
  }

  lemma FrontIsOk(b: seq<int>, rank: seq<int>, ptr: seq<int>, done: seq<bool>, ss: int)
    requires IsBytes(b) && Orders(b, rank) && Grouped(b, ptr) && DoneOrdered(b, rank, ptr, done) && SmallDone(done, ss)
    ensures FrontOk(b, rank, ss, true, FrontOf(b, ptr, ss))
  {
    hide Start, Pairs, Orders;
    var front, s0 := FrontOf(b, ptr, ss), Start(b, 256 * ss);
    StartAscends(b, 256 * ss, 256 * ss + ss);
    OrderedTogether(b, rank, ptr, done, 256 * ss, 256 * ss + ss);
    forall k | 0 <= k < |front|
      ensures 0 <= front[k] < |b| && 256 * ss <= Pairs(b)[front[k]] < 256 * ss + ss && b[front[k]] == ss &&
              b[Next(|b|, front[k])] < ss
    {
      assert front[k] == ptr[s0 + k];
      PairAt(b, ptr, s0 + k, 256 * ss, 256 * ss + ss);
      PairBytes(b, front[k], ss);
    }
    forall p, q {:trigger AtMost(rank, front[p], front[q])} | 0 <= p < q < |front|
      ensures AtMost(rank, front[p], front[q])
    {
      assert AtMost(rank, ptr[s0 + p], ptr[s0 + q]);
    }
    forall k, x {:trigger AtMost(rank, front[k], x)} | 0 <= k < |front| && 0 <= x < |b| && b[x] == ss == b[Next(|b|, x)]
      ensures AtMost(rank, front[k], x)
    {
      PairIs(b, x, ss, ss);
      PairOrder(b, rank, front[k], x);
    }
  }

  lemma BackIsOk(b: seq<int>, rank: seq<int>, ptr: seq<int>, done: seq<bool>, ss: int)
    requires IsBytes(b) && Orders(b, rank) && Grouped(b, ptr) && DoneOrdered(b, rank, ptr, done) && SmallDone(done, ss)
    ensures FrontOk(b, Negated(rank), ss, false, BackOf(b, ptr, ss))
  {
    hide Start, Pairs, Orders;
    var back, up, m1, e0 := BackOf(b, ptr, ss), Negated(rank), Start(b, 256 * ss + ss + 1), Start(b, 256 * ss + 256);
    StartAscends(b, 256 * ss + ss + 1, 256 * ss + 256);
    OrderedTogether(b, rank, ptr, done, 256 * ss + ss + 1, 256 * ss + 256);
    forall k | 0 <= k < |back|
      ensures 0 <= back[k] < |b| && 256 * ss + ss < Pairs(b)[back[k]] < 256 * ss + 256 && b[back[k]] == ss &&
              b[Next(|b|, back[k])] > ss
    {
      assert back[k] == ptr[e0 - 1 - k];
      PairAt(b, ptr, e0 - 1 - k, 256 * ss + ss + 1, 256 * ss + 256);
      PairBytes(b, back[k], ss);
    }
    forall p, q {:trigger AtMost(up, back[p], back[q])} | 0 <= p < q < |back| ensures AtMost(up, back[p], back[q]) {
      assert AtMost(rank, ptr[e0 - 1 - q], ptr[e0 - 1 - p]);
      NegatedAtMost(rank, back[p], back[q]);
    }
    forall k, x {:trigger AtMost(up, back[k], x)} | 0 <= k < |back| && 0 <= x < |b| && b[x] == ss == b[Next(|b|, x)]
      ensures AtMost(up, back[k], x)
    {
      PairIs(b, x, ss, ss);
      PairOrder(b, rank, x, back[k]);
      NegatedAtMost(rank, back[k], x);
    }
  }

  lemma GroupedHas(b: seq<int>, ptr: seq<int>, x: int) returns (p: int)
    requires Grouped(b, ptr) && 0 <= x < |b|
    ensures 0 <= p < |b| && ptr[p] == x
  {
    forall k | 0 <= k < |b| ensures 0 <= ptr[k] < |b| { assert InBucket(b, ptr[k], k); }
    p := PermutationHits(ptr, |b|, x);
  }

  /** Front and back are all rotations that begin with ss and go on with something else. */
  lemma FrontsAreAll(b: seq<int>, ptr: seq<int>, ss: int)
    requires IsBytes(b) && Grouped(b, ptr) && 0 <= ss < 256
    ensures FrontsAll(b, ss, FrontOf(b, ptr, ss), BackOf(b, ptr, ss))
  {
    hide Start, Pairs;
    forall x | 0 <= x < |b| && b[x] == ss && b[Next(|b|, x)] != ss
      ensures x in FrontOf(b, ptr, ss) || x in BackOf(b, ptr, ss)
    {
      var p := GroupedHas(b, ptr, x);
      var c := b[Next(|b|, x)];
      PairIs(b, x, ss, c);
      assert InBucket(b, ptr[p], p);
      if c < ss {
        StartAscends(b, 256 * ss, 256 * ss + c);
        StartAscends(b, 256 * ss + c + 1, 256 * ss + ss);
        assert FrontOf(b, ptr, ss)[p - Start(b, 256 * ss)] == x;
      } else {
        StartAscends(b, 256 * ss + ss + 1, 256 * ss + c);
        StartAscends(b, 256 * ss + c + 1, 256 * ss + 256);
        assert BackOf(b, ptr, ss)[Start(b, 256 * ss + 256) - 1 - p] == x;
      }
    }
  }

  // ----- what step 2 leaves behind -----

  /** Both lists have been read to their ends. */
  ghost predicate Synthesised(b: seq<int>, rank: seq<int>, ptr: seq<int>, ptr0: seq<int>, big: seq<bool>, ss: int,
                              W: seq<int>, V: seq<int>)
  {
    && |ptr0| == |b| && 0 <= ss < 256 && |big| == 256 && !big[ss] && Placing(b, ptr, ptr0, big, ss, W, V)
    && Scan(b, rank, ss, true, FrontOf(b, ptr0, ss), W, |W|) &&
         Scan(b, Negated(rank), ss, false, BackOf(b, ptr0, ss), V, |V|)
  }

  lemma BothSides(b: seq<int>, rank: seq<int>, ptr: seq<int>, ptr0: seq<int>, big: seq<bool>, ss: int, W: seq<int>,
                  V: seq<int>)
    requires Synthesised(b, rank, ptr, ptr0, big, ss, W, V)
    ensures AllSide(b, W, ss, true) && AllSide(b, V, ss, false) && InRow(rank, W) && InRow(Negated(rank), V)
    ensures |ptr| == |b| && Within(W, |b|) && Within(V, |b|)
  {
  }

  /** A position of a small bucket that is being filled holds a predecessor of one of the lists. */
  lemma FilledWith(b: seq<int>, ptr: seq<int>, ptr0: seq<int>, big: seq<bool>, ss: int, W: seq<int>, V: seq<int>,
                   c: int, p: int)
    requires IsBytes(b) && Placing(b, ptr, ptr0, big, ss, W, V) && 0 <= c < 256 && !big[c]
    requires |Preds(b, W, c)| + |Preds(b, V, c)| == Count(Pairs(b), 256 * c + ss)
    requires Start(b, 256 * c + ss) <= p < Start(b, 256 * c + ss + 1)
    ensures 0 <= p < |ptr|
    ensures var lo, hi, A, B := Start(b, 256 * c + ss), Start(b, 256 * c + ss + 1), Preds(b, W, c), Preds(b, V, c);
            if p < lo + |A| then ptr[p] == A[p - lo] else 0 <= hi - 1 - p < |B| && ptr[p] == B[hi - 1 - p]
  {
    hide Start, Preds, Pairs;
    StartNext(b, 256 * c + ss);
    assert PartOf(b, ptr, ptr0, ss, W, V, c);
    var lo, hi, A, B := Start(b, 256 * c + ss), Start(b, 256 * c + ss + 1), Preds(b, W, c), Preds(b, V, c);
    if p < lo + |A| {
      assert ptr[lo + (p - lo)] == A[p - lo];
    } else {
      assert ptr[hi - 1 - (hi - 1 - p)] == B[hi - 1 - p];
    }
  }

  /** The two halves of a filled bucket, as one sequence. */
  ghost predicate Halves(b: seq<int>, rank: seq<int>, c: int, ss: int, A: seq<int>, B: seq<int>) {
    && Distinct(A) && Distinct(B) && InRow(rank, A) && InRow(Negated(rank), B)
    && (forall k :: 0 <= k < |A| ==> 0 <= A[k] < |b| && b[A[k]] == c && Side(b, Next(|b|, A[k]), ss, true))
    && (forall k :: 0 <= k < |B| ==> 0 <= B[k] < |b| && b[B[k]] == c && Side(b, Next(|b|, B[k]), ss, false))
  }

  lemma PredsHalves(b: seq<int>, rank: seq<int>, ss: int, W: seq<int>, V: seq<int>, c: int)
    requires Orders(b, rank) && AllSide(b, W, ss, true) && AllSide(b, V, ss, false) && InRow(rank, W) &&
             InRow(Negated(rank), V)
    ensures Halves(b, rank, c, ss, Preds(b, W, c), Preds(b, V, c))
  {
    hide Preds, Side;
    PredsHas(b, W, c);
    PredsHas(b, V, c);
    PredsDistinct(b, W, c);
    PredsDistinct(b, V, c);
    PredsInRow(b, rank, W, c);
    NegatedSteps(b, rank);
    PredsInRow(b, Negated(rank), V, c);
  }

  /** Everything in the first half differs from and comes before everything in the second. */
  lemma HalvesApart(b: seq<int>, rank: seq<int>, c: int, ss: int, A: seq<int>, B: seq<int>, j: int, k: int)
    requires Orders(b, rank) && Halves(b, rank, c, ss, A, B) && 0 <= j < |A| && 0 <= k < |B|
    ensures A[j] != B[k] && AtMost(rank, A[j], B[k])
  {
    SidesApart(b, rank, ss, Next(|b|, A[j]), Next(|b|, B[k]));
  }

  lemma FilledBucket(b: seq<int>, rank: seq<int>, ptr: seq<int>, ptr0: seq<int>, big: seq<bool>, ss: int, W: seq<int>,
                     V: seq<int>, c: int)
    requires IsBytes(b) && Orders(b, rank) && Synthesised(b, rank, ptr, ptr0, big, ss, W, V) &&
             Complete(b, ss, W, V) && 0 <= c < 256 && !big[c]
    ensures OrderedBucket(b, rank, ptr, 256 * c + ss)
    ensures forall p ::
              Start(b, 256 * c + ss) <= p < Start(b, 256 * c + ss + 1) ==>
                0 <= p < |b| && 0 <= ptr[p] < |b| && InBucket(b, ptr[p], p) && Pairs(b)[ptr[p]] == 256 * c + ss
    ensures forall p, q :: Start(b, 256 * c + ss) <= p < q < Start(b, 256 * c + ss + 1) ==> ptr[p] != ptr[q]
  {
    hide Start, Preds, Pairs, Side, Scan, Orders, Complete, Placing, Halves, AllSide, InRow, InBucket, PartOf;
    BothSides(b, rank, ptr, ptr0, big, ss, W, V);
    BothFill(b, rank, ss, W, V, c);
    PredsHalves(b, rank, ss, W, V, c);
    var lo, hi, A, B := Start(b, 256 * c + ss), Start(b, 256 * c + ss + 1), Preds(b, W, c), Preds(b, V, c);
    StartNext(b, 256 * c + ss);
    StartAscends(b, 256 * c + ss + 1, 65536);
    forall p | lo <= p < hi
      ensures 0 <= p < |b| && 0 <= ptr[p] < |b| && InBucket(b, ptr[p], p) && Pairs(b)[ptr[p]] == 256 * c + ss
    {
      FilledWith(b, ptr, ptr0, big, ss, W, V, c, p);
      FilledPlace(b, rank, c, ss, A, B, lo, hi, p, ptr[p]);
    }
    forall p, q | lo <= p < q < hi ensures ptr[p] != ptr[q] && AtMost(rank, ptr[p], ptr[q]) {
      FilledWith(b, ptr, ptr0, big, ss, W, V, c, p);
      FilledWith(b, ptr, ptr0, big, ss, W, V, c, q);
      InHalves(b, rank, c, ss, A, B, p - lo, q - lo, hi - lo);
    }
  }

  lemma FilledPlace(b: seq<int>, rank: seq<int>, c: int, ss: int, A: seq<int>, B: seq<int>, lo: int, hi: int, p: int,
                    x: int)
    requires IsBytes(b) && Halves(b, rank, c, ss, A, B) && lo <= p < hi && lo == Start(b, 256 * c + ss) &&
             hi == Start(b, 256 * c + ss + 1) && 0 <= c < 256 && 0 <= ss < 256
    requires if p < lo + |A| then x == A[p - lo] else 0 <= hi - 1 - p < |B| && x == B[hi - 1 - p]
    ensures 0 <= x < |b| && InBucket(b, x, p) && Pairs(b)[x] == 256 * c + ss
  {
    hide Start, Pairs, Side;
    SideByte(b, rank, c, ss, A, B);
    PairIs(b, x, c, ss);
  }

  lemma SideByte(b: seq<int>, rank: seq<int>, c: int, ss: int, A: seq<int>, B: seq<int>)
    requires Halves(b, rank, c, ss, A, B)
    ensures forall k :: 0 <= k < |A| ==> b[Next(|b|, A[k])] == ss
    ensures forall k :: 0 <= k < |B| ==> b[Next(|b|, B[k])] == ss
  {
  }

  /** Two places of a filled bucket. */
  lemma InHalves(b: seq<int>, rank: seq<int>, c: int, ss: int, A: seq<int>, B: seq<int>, i: int, j: int, size: int)
    requires Orders(b, rank) && Halves(b, rank, c, ss, A, B) && 0 <= i < j < size == |A| + |B|
    ensures var x, y := if i < |A| then A[i] else B[size - 1 - i], if j < |A| then A[j] else B[size - 1 - j];
            x != y && AtMost(rank, x, y)
  {
    hide Side, Orders;
    if j < |A| {
      assert AtMost(rank, A[i], A[j]);
    } else if i < |A| {
      HalvesApart(b, rank, c, ss, A, B, i, size - 1 - j);
    } else {
      assert AtMost(Negated(rank), B[size - 1 - j], B[size - 1 - i]);
      NegatedAtMost(rank, B[size - 1 - j], B[size - 1 - i]);
    }
  }

  /** Small bucket v is one of those being filled. */
  ghost predicate IsFilled(big: seq<bool>, ss: int, v: int) {
    |big| == 256 && 0 <= v < 65536 && v % 256 == ss && !big[v / 256]
  }

  lemma OtherBuckets(b: seq<int>, big: seq<bool>, ss: int, v: int, p: int)
    requires |big| == 256 && 0 <= ss < 256 && 0 <= v < 65536 && !IsFilled(big, ss, v) &&
             Start(b, v) <= p < Start(b, v + 1)
    ensures Outside(b, big, ss, p)
  {
    hide Start;
    forall c {:trigger big[c]} | 0 <= c < 256 && !big[c]
      ensures p < Start(b, 256 * c + ss) || Start(b, 256 * c + ss + 1) <= p
    {
      assert (256 * c + ss) % 256 == ss && (256 * c + ss) / 256 == c;
      if 256 * c + ss < v { StartAscends(b, 256 * c + ss + 1, v); } else { StartAscends(b, v + 1, 256 * c + ss); }
    }
  }

  /** The small buckets after step 2: those that end in ss have been added. */
  ghost function Added(done: seq<bool>, ss: int): (r: seq<bool>)
    requires |done| == 65537
    ensures |r| == 65537 && forall v :: 0 <= v < 65537 ==> r[v] == (done[v] || (v < 65536 && v % 256 == ss))
  {
    seq(65537, v requires 0 <= v < 65537 => done[v] || (v < 65536 && v % 256 == ss))
  }

  /** The small buckets of the finished big buckets are done. */
  ghost predicate BigDone(big: seq<bool>, done: seq<bool>) {
    |big| == 256 && |done| == 65537 && forall v :: 0 <= v < 65536 && big[v / 256] ==> done[v]
  }

  /** A bucket that is filled and one that is not. */
  lemma BucketAfter(b: seq<int>, rank: seq<int>, ptr: seq<int>, ptr0: seq<int>, big: seq<bool>, ss: int, W: seq<int>,
                    V: seq<int>, v: int)
    requires IsBytes(b) && Orders(b, rank) && Synthesised(b, rank, ptr, ptr0, big, ss, W, V) &&
             Complete(b, ss, W, V) && 0 <= v < 65536
    ensures IsFilled(big, ss, v) ==> OrderedBucket(b, rank, ptr, v)
    ensures forall p ::
              Start(b, v) <= p < Start(b, v + 1) ==>
                0 <= p < |b| && if IsFilled(big, ss, v) then InBucket(b, ptr[p], p) else ptr[p] == ptr0[p]
    ensures forall p, q :: Start(b, v) <= p < q < Start(b, v + 1) && IsFilled(big, ss, v) ==> ptr[p] != ptr[q]
  {
    hide Start, Orders, Scan, Complete;
    StartAscends(b, v + 1, 65536);
    if IsFilled(big, ss, v) {
      FilledBucket(b, rank, ptr, ptr0, big, ss, W, V, v / 256);
      assert 256 * (v / 256) + ss == v;
    } else {
      forall p | Start(b, v) <= p < Start(b, v + 1)
        ensures 0 <= p < |b| && ptr[p] == ptr0[p]
      {
        OtherBuckets(b, big, ss, v, p);
      }
    }
  }

  lemma StillGrouped(b: seq<int>, rank: seq<int>, ptr: seq<int>, ptr0: seq<int>, big: seq<bool>, ss: int, W: seq<int>,
                     V: seq<int>)
    requires IsBytes(b) && Orders(b, rank) && Synthesised(b, rank, ptr, ptr0, big, ss, W, V) &&
             Complete(b, ss, W, V) && Grouped(b, ptr0)
    ensures Grouped(b, ptr)
  {
    hide Start, Orders, Scan, Complete, Pairs;
    PairRange(b);
    forall p {:trigger InBucket(b, ptr[p], p)} | 0 <= p < |b| ensures InBucket(b, ptr[p], p) {
      assert InBucket(b, ptr0[p], p);
      BucketAfter(b, rank, ptr, ptr0, big, ss, W, V, Pairs(b)[ptr0[p]]);
    }
    forall p, q | 0 <= p < q < |b| ensures ptr[p] != ptr[q] {
      assert InBucket(b, ptr[p], p) && InBucket(b, ptr[q], q);
      BucketAfter(b, rank, ptr, ptr0, big, ss, W, V, Pairs(b)[ptr[p]]);
    }
  }

  lemma StillOrdered(b: seq<int>, rank: seq<int>, ptr: seq<int>, ptr0: seq<int>, big: seq<bool>, ss: int, W: seq<int>,
                     V: seq<int>, done: seq<bool>)
    requires IsBytes(b) && Orders(b, rank) && Synthesised(b, rank, ptr, ptr0, big, ss, W, V) && Complete(b, ss, W, V)
    requires DoneOrdered(b, rank, ptr0, done) && BigDone(big, done)
    ensures DoneOrdered(b, rank, ptr, Added(done, ss))
  {
    hide Start, Orders, Scan, Complete, Pairs;
    forall v {:trigger OrderedBucket(b, rank, ptr, v)} | 0 <= v < 65536 && Added(done, ss)[v]
      ensures OrderedBucket(b, rank, ptr, v)
    {
      BucketAfter(b, rank, ptr, ptr0, big, ss, W, V, v);
      if !IsFilled(big, ss, v) {
        assert OrderedBucket(b, rank, ptr0, v);
        forall p, q {:trigger AtMost(rank, ptr[p], ptr[q])} | Start(b, v) <= p < q < Start(b, v + 1)
          ensures AtMost(rank, ptr[p], ptr[q])
        {
          assert AtMost(rank, ptr0[p], ptr0[q]);
        }
      }
    }
  }

  // ----- a block of one byte only -----

  lemma {:induction false} NoSide(b: seq<int>, x: nat, ss: int, f: nat)
    requires x < |b| && forall y :: 0 <= y < |b| ==> b[y] == ss
    ensures !Low(b, x, ss, f) && !High(b, x, ss, f)
    decreases f
  {
    if f > 0 { NoSide(b, Next(|b|, x), ss, f - 1); }
  }

  lemma NoList(b: seq<int>, W: seq<int>, ss: int, low: bool)
    requires AllSide(b, W, ss, low) && forall y :: 0 <= y < |b| ==> b[y] == ss
    ensures W == []
  {
    if W != [] {
      assert Side(b, W[0], ss, low);
      if low {
        var f: nat :| Low(b, W[0], ss, f);
        NoSide(b, W[0], ss, f);
      } else {
        var f: nat :| High(b, W[0], ss, f);
        NoSide(b, W[0], ss, f);
      }
    }
  }

  /** Nothing is read and nothing written, and every order is right. */
  lemma OneByteOnly(b: seq<int>, rank: seq<int>, ptr: seq<int>, ptr0: seq<int>, big: seq<bool>, ss: int, W: seq<int>,
                    V: seq<int>, done: seq<bool>)
    requires IsBytes(b) && Orders(b, rank) && Synthesised(b, rank, ptr, ptr0, big, ss, W, V) &&
             (forall y :: 0 <= y < |b| ==> b[y] == ss)
    requires Grouped(b, ptr0) && |done| == 65537
    ensures W == [] && V == [] && ptr == ptr0 && DoneOrdered(b, rank, ptr, Added(done, ss))
  {
    hide Start, Orders, Scan, Side, Pairs;
    BothSides(b, rank, ptr, ptr0, big, ss, W, V);
    NoList(b, W, ss, true);
    NoList(b, V, ss, false);
    NothingPlaced(b, ptr, ptr0, big, ss);
    SameOrder(b, rank);
    forall v {:trigger OrderedBucket(b, rank, ptr, v)} | 0 <= v < 65536 ensures OrderedBucket(b, rank, ptr, v) {
      StartAscends(b, v + 1, 65536);
      forall p, q {:trigger AtMost(rank, ptr[p], ptr[q])} | Start(b, v) <= p < q < Start(b, v + 1)
        ensures AtMost(rank, ptr[p], ptr[q])
      {
        assert InBucket(b, ptr[p], p) && InBucket(b, ptr[q], q);
      }
    }
  }

  lemma SameOrder(b: seq<int>, rank: seq<int>)
    requires Orders(b, rank) && AllSame(b)
    ensures forall x, y {:trigger AtMost(rank, x, y)} :: 0 <= x < |b| && 0 <= y < |b| ==> AtMost(rank, x, y)
  {
  }

  lemma NothingPlaced(b: seq<int>, ptr: seq<int>, ptr0: seq<int>, big: seq<bool>, ss: int)
    requires Placing(b, ptr, ptr0, big, ss, [], [])
    ensures ptr == ptr0
  {
    hide Start;
    forall p | 0 <= p < |b| ensures ptr[p] == ptr0[p] {
      if !Outside(b, big, ss, p) {
        var c :| 0 <= c < 256 && !big[c] && !(p < Start(b, 256 * c + ss) || Start(b, 256 * c + ss + 1) <= p);
        assert PartOf(b, ptr, ptr0, ss, [], [], c);
        PredsNone(b, c);
      }
    }
  }

  /** Step 2 as a whole. */
  lemma SynthesisKeeps(b: seq<int>, rank: seq<int>, ptr: seq<int>, ptr0: seq<int>, big: seq<bool>, ss: int,
                       W: seq<int>, V: seq<int>, done: seq<bool>)
    requires |done| == 65537 && IsBytes(b) && Orders(b, rank) && Synthesised(b, rank, ptr, ptr0, big, ss, W, V)
    requires Grouped(b, ptr0) && DoneOrdered(b, rank, ptr0, done) && BigDone(big, done)
    ensures Grouped(b, ptr) && DoneOrdered(b, rank, ptr, Added(done, ss))
  {
    hide Start, Orders, Scan, Pairs, Placing, Complete, DoneOrdered, BigDone, Grouped;
    FrontsAreAll(b, ptr0, ss);
    CompleteOrSame(b, rank, Negated(rank), ss, FrontOf(b, ptr0, ss), BackOf(b, ptr0, ss), W, V);
    if Complete(b, ss, W, V) {
      StillGrouped(b, rank, ptr, ptr0, big, ss, W, V);
      StillOrdered(b, rank, ptr, ptr0, big, ss, W, V, done);
    } else {
      OneByteOnly(b, rank, ptr, ptr0, big, ss, W, V, done);
    }
  }

  /** Assertion 1007: the two cursors of [ss, ss] meet, or the block consists of one byte. */
  lemma CursorsMeet(b: seq<int>, rank: seq<int>, ptr: seq<int>, ptr0: seq<int>, big: seq<bool>, ss: int, W: seq<int>,
                    V: seq<int>, up: int, down: int)
    requires IsBytes(b) && Orders(b, rank) && Synthesised(b, rank, ptr, ptr0, big, ss, W, V) && Grouped(b, ptr0)
    requires up == Start(b, 256 * ss + ss) + |Preds(b, W, ss)| &&
             down == Start(b, 256 * ss + ss + 1) - 1 - |Preds(b, V, ss)|
    ensures up - 1 == down || (up == 0 && down == |b| - 1)
  {
    hide Start, Orders, Scan, Pairs, Placing, Complete, Grouped, Preds;
    FrontsAreAll(b, ptr0, ss);
    CompleteOrSame(b, rank, Negated(rank), ss, FrontOf(b, ptr0, ss), BackOf(b, ptr0, ss), W, V);
    BothSides(b, rank, ptr, ptr0, big, ss, W, V);
    StartNext(b, 256 * ss + ss);
    if Complete(b, ss, W, V) {
      BothFill(b, rank, ss, W, V, ss);
    } else {
      OneBucket(b, ss);
      NoList(b, W, ss, true);
      NoList(b, V, ss, false);
      PredsNone(b, ss);
    }
  }

  /** Then all rotations are in one small bucket. */
  lemma OneBucket(b: seq<int>, ss: int)
    requires 0 <= ss < 256 && forall y :: 0 <= y < |b| ==> b[y] == ss
    ensures Start(b, 256 * ss + ss) == 0 && Start(b, 256 * ss + ss + 1) == |b|
  {
    hide Below;
    var d, v := Pairs(b), 256 * ss + ss;
    forall i | 0 <= i < |d| ensures v <= d[i] < v + 1 {}
    BelowExtremes(d, v, v + 1);
  }
}
