/** Step 3 of mainSort: the order of a finished big bucket is cached in the quadrant table. At
    all times the table means what the comparator takes it to mean. */
module Quadrants {
  import opened BucketSynthesis
  import opened BytePairs
  import opened KeyBits
  import opened MainCompare
  import opened MainSimpleSort
  import opened Rearrangement
  import opened Rotations
  import opened SmallBuckets
  import opened SmallSorting

  /** Nothing is cached for big buckets that are not finished; for the others unequal quadrants
      follow the order. Every quadrant fits into sixteen bits. */
  ghost predicate Cached(b: seq<int>, rank: seq<int>, quadrant: seq<int>, big: seq<bool>) {
    && Extended(quadrant, |b|) && |big| == 256 && IsBytes(b) && |rank| == |b| &&
         (forall i :: 0 <= i < |quadrant| ==> 0 <= quadrant[i] < 65536)
    && (forall x :: 0 <= x < |b| && !big[b[x]] ==> quadrant[x] == 0)
    && (forall x, y {:trigger AtMost(rank, x, y)} ::
           0 <= x < |b| && 0 <= y < |b| && b[x] == b[y] && quadrant[x] < quadrant[y] ==> AtMost(rank, x, y))
  }

  /** That is the meaning the comparator relies on. */
  lemma CachedMeans(b: seq<int>, block: seq<int>, quadrant: seq<int>, big: seq<bool>)
    requires Cached(b, Ranks(b), quadrant, big) && Extended(block, |b|) && block[..|b|] == b
    ensures Tables(b, block, quadrant)
  {
    hide Ranks, Cmp;
    forall i, j | 0 <= i < |b| && 0 <= j < |b| && b[i] == b[j] && quadrant[i] < quadrant[j]
      ensures Cmp(b, i, j, |b|) <= 0
    {
      assert AtMost(Ranks(b), i, j);
      RankOrder(b, i, j);
    }
  }

  /** Entries from j on of the big bucket have been cached. */
  ghost predicate Updated(q0: seq<int>, q: seq<int>, list: seq<int>, shifts: nat, j: int, n: nat) {
    && Extended(q, n) && |q0| == |q| && (forall k :: 0 <= k < |list| ==> 0 <= list[k] < n)
    && (forall k :: 0 <= j <= k < |list| ==> q[list[k]] == k / Pow2(shifts))
    && (forall x :: 0 <= x < n && x !in list ==> q[x] == q0[x])
    && (forall i :: 0 <= i < |q| ==> 0 <= q[i] < 65536)
  }

  lemma UpdateStep(q0: seq<int>, q: seq<int>, list: seq<int>, shifts: nat, j: nat, n: nat, q': seq<int>)
    requires Updated(q0, q, list, shifts, j + 1, n) && j < |list| && Distinct(list) && 0 <= j / Pow2(shifts) < 65536
    requires q' ==
             var a := q[list[j] := j / Pow2(shifts)];
               if list[j] < N_OVERSHOOT then a[list[j] + n := j / Pow2(shifts)] else a
    ensures Updated(q0, q', list, shifts, j, n)
  {
    forall k | j <= k < |list| ensures q'[list[k]] == k / Pow2(shifts) {
      if k > j { assert list[j] != list[k]; }
    }
  }

  lemma Product(x: nat, y: nat, p: nat)
    requires x <= y
    ensures x * p <= y * p
  {
  }

  lemma SmallerShare(x: nat, y: nat, p: nat)
    requires x <= y && p > 0
    ensures x / p <= y / p
  {
    assert x / p * p <= x && y < y / p * p + p;
    if x / p > y / p { Product(y / p + 1, x / p, p); }
  }

  lemma Twice(a: nat, q: nat, p: nat)
    requires a >= q >= 1
    ensures a * (2 * p) >= q * p + p
  {
    Product(q, a, p);
    Product(1, a, p);
    assert a * (2 * p) == a * p + a * p;
  }

  lemma HalfShare(x: nat, s: nat)
    requires x / Pow2(s) > 0
    ensures x / Pow2(s + 1) < x / Pow2(s)
  {
    var p, a := Pow2(s), x / Pow2(s + 1);
    assert a * (2 * p) <= x && x < x / p * p + p;
    if a >= x / p { Twice(a, x / p, p); }
  }

  /** No further than the positions in the big bucket must be shifted to fit. */
  ghost predicate LeastShift(bbSize: nat, shifts: nat) {
    bbSize / Pow2(shifts) <= 65534 && (shifts > 0 ==> bbSize / Pow2(shifts - 1) > 65534)
  }

  method Shifts(bbSize: nat) returns (shifts: nat)
    ensures LeastShift(bbSize, shifts)
  {
    shifts := 0;
    while bbSize / Pow2(shifts) > 65534
      invariant shifts > 0 ==> bbSize / Pow2(shifts - 1) > 65534
      decreases bbSize / Pow2(shifts)
    {
      HalfShare(bbSize, shifts);
      shifts := shifts + 1;
    }
  }

  /** Cache one rotation, also in the overshoot if it is there twice. */
  method CacheOne(quadrant: array<int>, nblock: nat, a2update: int, qVal: int, ghost q0: seq<int>,
                  ghost list: seq<int>, ghost shifts: nat, ghost j: nat)
    requires Updated(q0, quadrant[..], list, shifts, j + 1, nblock) && j < |list| && Distinct(list) &&
             a2update == list[j] && qVal == j / Pow2(shifts) < 65536
    modifies quadrant
    ensures Updated(q0, quadrant[..], list, shifts, j, nblock)
  {
    hide Pow2, Updated;
    ghost var q := quadrant[..];
    UpdatedShape(q0, q, list, shifts, j + 1, nblock);
    quadrant[a2update] := qVal;
    if a2update < N_OVERSHOOT { quadrant[a2update + nblock] := qVal; }
    UpdateStep(q0, q, list, shifts, j, nblock, quadrant[..]);
  }

  lemma UpdatedShape(q0: seq<int>, q: seq<int>, list: seq<int>, shifts: nat, j: int, n: nat)
    requires Updated(q0, q, list, shifts, j, n)
    ensures |q| == n + N_OVERSHOOT > 2 * N_OVERSHOOT && forall k :: 0 <= k < |list| ==> 0 <= list[k] < n
  {
  }

  /** The update loop. The values fit into sixteen bits, as assertion 1002 says. */
  method CacheBucket(quadrant: array<int>, ptr: array<int>, nblock: nat, bbStart: nat, bbSize: nat,
                     ghost list: seq<int>)
    returns (ghost shifts: nat)
    requires quadrant != ptr && Extended(quadrant[..], nblock) && bbStart + bbSize <= ptr.Length &&
             list == ptr[bbStart..bbStart + bbSize] && Distinct(list)
    requires (forall k :: 0 <= k < |list| ==> 0 <= list[k] < nblock) &&
             forall i :: 0 <= i < quadrant.Length ==> 0 <= quadrant[i] < 65536
    modifies quadrant
    ensures Updated(old(quadrant[..]), quadrant[..], list, shifts, 0, nblock) && LeastShift(bbSize, shifts)
  {
    hide Pow2, Updated, Extended, Distinct;
    ghost var q0 := quadrant[..];
    var sh := Shifts(bbSize);
    shifts := sh;
    var j := bbSize - 1;
    NothingUpdated(q0, list, sh, nblock);
    while j >= 0
      invariant -1 <= j < bbSize && ptr[bbStart..bbStart + bbSize] == list &&
                Updated(q0, quadrant[..], list, sh, j + 1, nblock)
    {
      SmallerShare(j, bbSize, Pow2(sh));
      assert ptr[bbStart..bbStart + bbSize][j] == list[j];
      var a2update := ptr[bbStart + j];
      CacheOne(quadrant, nblock, a2update, j / Pow2(sh), q0, list, sh, j);
      j := j - 1;
    }
  }

  lemma NothingUpdated(q0: seq<int>, list: seq<int>, shifts: nat, n: nat)
    requires Extended(q0, n) && (forall k :: 0 <= k < |list| ==> 0 <= list[k] < n) &&
             forall i :: 0 <= i < |q0| ==> 0 <= q0[i] < 65536
    ensures Updated(q0, q0, list, shifts, |list|, n)
  {
  }

  lemma InList(list: seq<int>, x: int) returns (k: nat)
    requires x in list
    ensures k < |list| && list[k] == x
  {
    k :| 0 <= k < |list| && list[k] == x;
  }

  /** The table still means what it should when the big bucket of ss has been cached. */
  lemma CachedAfter(b: seq<int>, rank: seq<int>, q0: seq<int>, q: seq<int>, big: seq<bool>, ss: int, list: seq<int>,
                    shifts: nat)
    requires Cached(b, rank, q0, big) && 0 <= ss < 256 && Updated(q0, q, list, shifts, 0, |b|) &&
             PredecessorScan.InRow(rank, list)
    requires forall x :: 0 <= x < |b| ==> (x in list <==> b[x] == ss)
    ensures Cached(b, rank, q, big[ss := true])
  {
    forall x, y {:trigger AtMost(rank, x, y)} | 0 <= x < |b| && 0 <= y < |b| && b[x] == b[y] && q[x] < q[y]
      ensures AtMost(rank, x, y)
    {
      if b[x] == ss {
        var i := InList(list, x);
        var j := InList(list, y);
        if j <= i { SmallerShare(j, i, Pow2(shifts)); }
        assert AtMost(rank, list[i], list[j]);
      }
    }
  }

  /** What is in the big bucket of ss. */
  lemma BigBucket(b: seq<int>, rank: seq<int>, ptr: seq<int>, done: seq<bool>, ss: int, list: seq<int>)
    requires IsBytes(b) && Orders(b, rank) && Grouped(b, ptr) && DoneOrdered(b, rank, ptr, done) && 0 <= ss < 256
    requires forall v :: 256 * ss <= v < 256 * ss + 256 ==> done[v]
    requires Start(b, 256 * ss) <= Start(b, 256 * ss + 256) <= |ptr| &&
             list == ptr[Start(b, 256 * ss)..Start(b, 256 * ss + 256)]
    ensures PredecessorScan.InRow(rank, list) && Distinct(list) && forall k :: 0 <= k < |list| ==> 0 <= list[k] < |b|
    ensures forall x :: 0 <= x < |b| ==> (x in list <==> b[x] == ss)
  {
    hide Start, Pairs, Orders;
    var s0, e0 := Start(b, 256 * ss), Start(b, 256 * ss + 256);
    OrderedTogether(b, rank, ptr, done, 256 * ss, 256 * ss + 256);
    forall k | 0 <= k < |list| ensures 0 <= list[k] < |b| && b[list[k]] == ss {
      assert list[k] == ptr[s0 + k];
      PairAt(b, ptr, s0 + k, 256 * ss, 256 * ss + 256);
      PairBytes(b, list[k], ss);
    }
    forall p, q {:trigger AtMost(rank, list[p], list[q])} | 0 <= p < q < |list| ensures AtMost(rank, list[p], list[q]) {
      assert AtMost(rank, ptr[s0 + p], ptr[s0 + q]);
    }
    forall x | 0 <= x < |b| && b[x] == ss ensures x in list {
      var p := GroupedHas(b, ptr, x);
      var c := b[Next(|b|, x)];
      PairIs(b, x, ss, c);
      assert InBucket(b, ptr[p], p);
      StartAscends(b, 256 * ss, 256 * ss + c);
      StartAscends(b, 256 * ss + c + 1, 256 * ss + 256);
      assert Pairs(b)[x] == 256 * ss + c && s0 <= p < e0;
      assert list[p - s0] == ptr[p] == x;
    }
  }

  /** Every rotation of the big bucket of ss has its place there, shifted down, in the table;
      the rest of the table is as it was. */
  ghost predicate PlacesCached(b: seq<int>, ptr: seq<int>, q0: seq<int>, q: seq<int>, ss: int, shifts: nat) {
    var lo, hi := Start(b, 256 * ss), Start(b, 256 * ss + 256);
    lo <= hi <= |ptr| && LeastShift(hi - lo, shifts) && Updated(q0, q, ptr[lo..hi], shifts, 0, |b|)
  }

  /** Step 3. */
  method UpdateQuadrants(quadrant: array<int>, ptr: array<int>, ftab: array<int>, nblock: nat, ss: nat,
                         ghost b: seq<int>, ghost done: seq<bool>, ghost big: seq<bool>)
    returns (ghost shifts: nat)
    requires nblock == |b| && Sorting(b, ptr[..], done) && Marks(b, ftab[..], done) && ss < 256 && quadrant != ptr &&
             quadrant != ftab
    requires Cached(b, Ranks(b), quadrant[..], big) && forall v :: 256 * ss <= v < 256 * ss + 256 ==> done[v]
    modifies quadrant
    ensures Cached(b, Ranks(b), quadrant[..], big[ss := true])
    ensures PlacesCached(b, ptr[..], old(quadrant[..]), quadrant[..], ss, shifts)
  {
    hide LeastShift, Start, Ranks, Grouped, DoneOrdered, Orders, Marks, Cached, Updated;
    ghost var rank := Ranks(b);
    RanksOrder(b);
    GroupedLength(b, ptr[..]);
    MarksSize(b, ftab[..], done);
    MarkAt(b, ftab[..], done, 256 * ss);
    MarkAt(b, ftab[..], done, 256 * (ss + 1));
    StartAscends(b, 256 * ss, 256 * ss + 256);
    StartAscends(b, 256 * ss + 256, 65536);
    var bbStart := Clear(ftab[256 * ss]);
    var bbSize := Clear(ftab[256 * (ss + 1)]) - bbStart;
    ghost var list, q0 := ptr[bbStart..bbStart + bbSize], quadrant[..];
    assert list == ptr[..][Start(b, 256 * ss)..Start(b, 256 * ss + 256)];
    BigBucket(b, rank, ptr[..], done, ss, list);
    CachedShape(b, rank, q0, big);
    shifts := CacheBucket(quadrant, ptr, nblock, bbStart, bbSize, list);
    CachedAfter(b, rank, q0, quadrant[..], big, ss, list, shifts);
  }

  lemma CachedShape(b: seq<int>, rank: seq<int>, q: seq<int>, big: seq<bool>)
    requires Cached(b, rank, q, big)
    ensures Extended(q, |b|) && |big| == 256 && forall i :: 0 <= i < |q| ==> 0 <= q[i] < 65536
  {
  }
}
