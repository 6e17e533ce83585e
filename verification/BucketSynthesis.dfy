/** Step 2 of mainSort: the small buckets that end in byte ss are put in order by reading the
    big bucket of ss from both ends. */
module BucketSynthesis {
  import opened BytePairs
  import opened Counting
  import opened PredecessorScan
  import opened Rotations

  // ----- where the small buckets lie -----

  /** Where the rotations that begin with pair v begin in the sorted order. */
  ghost function Start(b: seq<int>, v: int): (r: nat)
  {
    Below(Pairs(b), v)
  }

  lemma StartAscends(b: seq<int>, v: int, w: int)
    requires v <= w
    ensures Start(b, v) <= Start(b, w) <= |b|
  {
    BelowMonotone(Pairs(b), v, w);
  }

  lemma StartNext(b: seq<int>, v: int)
    ensures Start(b, v + 1) == Start(b, v) + Count(Pairs(b), v)
  {
    BelowNext(Pairs(b), v);
  }

  lemma StartEnds(b: seq<int>)
    requires IsBytes(b)
    ensures Start(b, 0) == 0 && Start(b, 65536) == |b|
  {
    PairRange(b);
    BelowExtremes(Pairs(b), 0, 65536);
  }

  // ----- the small buckets while they are being filled -----

  /** A stretch with A put in from its beginning and B from its end. */
  ghost predicate Part(ptr: seq<int>, ptr0: seq<int>, lo: int, hi: int, A: seq<int>, B: seq<int>) {
    && |ptr| == |ptr0| && 0 <= lo && lo + |A| <= hi - |B| && hi <= |ptr|
    && (forall k :: 0 <= k < |A| ==> ptr[lo + k] == A[k])
    && (forall k :: 0 <= k < |B| ==> ptr[hi - 1 - k] == B[k])
    && (forall p :: lo + |A| <= p < hi - |B| ==> ptr[p] == ptr0[p])
  }

  /** Small bucket [c, ss]. */
  ghost predicate PartOf(b: seq<int>, ptr: seq<int>, ptr0: seq<int>, ss: int, F: seq<int>, G: seq<int>, c: int) {
    Within(F, |b|) && Within(G, |b|) &&
      Part(ptr, ptr0, Start(b, 256 * c + ss), Start(b, 256 * c + ss + 1), Preds(b, F, c), Preds(b, G, c))
  }

  /** Position p belongs to none of the small buckets that are being filled. */
  ghost predicate Outside(b: seq<int>, big: seq<bool>, ss: int, p: int) {
    |big| == 256 &&
      forall c {:trigger big[c]} ::
          0 <= c < 256 && !big[c] ==> p < Start(b, 256 * c + ss) || Start(b, 256 * c + ss + 1) <= p
  }

  ghost predicate Placing(b: seq<int>, ptr: seq<int>, ptr0: seq<int>, big: seq<bool>, ss: int, F: seq<int>,
                          G: seq<int>)
  {
    && |ptr| == |ptr0| == |b| && |big| == 256 && 0 <= ss < 256 && Within(F, |b|) && Within(G, |b|)
    && (forall c {:trigger PartOf(b, ptr, ptr0, ss, F, G, c)} ::
           0 <= c < 256 && !big[c] ==> PartOf(b, ptr, ptr0, ss, F, G, c))
    && (forall p {:trigger Outside(b, big, ss, p)} :: 0 <= p < |b| && Outside(b, big, ss, p) ==> ptr[p] == ptr0[p])
  }

  lemma PlacingBegins(b: seq<int>, ptr: seq<int>, big: seq<bool>, ss: int)
    requires |ptr| == |b| && |big| == 256 && 0 <= ss < 256
    ensures Placing(b, ptr, ptr, big, ss, [], [])
  {
    hide Start;
    forall c {:trigger PartOf(b, ptr, ptr, ss, [], [], c)} | 0 <= c < 256 ensures PartOf(b, ptr, ptr, ss, [], [], c) {
      StartAscends(b, 256 * c + ss, 256 * c + ss + 1);
    }
  }

  /** Two small buckets do not overlap. */
  lemma BucketsApart(b: seq<int>, ss: int, c: int, c': int)
    requires 0 <= ss < 256 && c < c'
    ensures Start(b, 256 * c + ss + 1) <= Start(b, 256 * c' + ss)
  {
    StartAscends(b, 256 * c + ss + 1, 256 * c' + ss);
  }

  /** Writing into one small bucket leaves the others alone. */
  lemma OthersKept(b: seq<int>, ptr: seq<int>, ptr0: seq<int>, big: seq<bool>, ss: int, F: seq<int>, G: seq<int>,
                   F': seq<int>, G': seq<int>, c1: int, q: int, ptr': seq<int>)
    requires Placing(b, ptr, ptr0, big, ss, F, G) && 0 <= c1 < 256 && !big[c1] &&
             Start(b, 256 * c1 + ss) <= q < Start(b, 256 * c1 + ss + 1)
    requires |ptr'| == |ptr| && (forall p :: 0 <= p < |ptr| && p != q ==> ptr'[p] == ptr[p]) && Within(F', |b|) &&
             Within(G', |b|)
    requires forall c ::
               0 <= c < 256 && c != c1 ==> Preds(b, F', c) == Preds(b, F, c) && Preds(b, G', c) == Preds(b, G, c)
    requires PartOf(b, ptr', ptr0, ss, F', G', c1)
    ensures Placing(b, ptr', ptr0, big, ss, F', G')
  {
    hide Start, Preds;
    forall c {:trigger PartOf(b, ptr', ptr0, ss, F', G', c)} | 0 <= c < 256 && !big[c]
      ensures PartOf(b, ptr', ptr0, ss, F', G', c)
    {
      if c != c1 {
        assert PartOf(b, ptr, ptr0, ss, F, G, c);
        if c < c1 { BucketsApart(b, ss, c, c1); } else { BucketsApart(b, ss, c1, c); }
      }
    }
    forall p {:trigger Outside(b, big, ss, p)} | 0 <= p < |b| && Outside(b, big, ss, p) ensures ptr'[p] == ptr0[p] {
      assert !big[c1];
    }
  }

  /** One rotation read from the beginning. */
  lemma PlaceForward(b: seq<int>, ptr: seq<int>, ptr0: seq<int>, big: seq<bool>, ss: int, F: seq<int>, G: seq<int>,
                     y: int, c1: int, q: int)
    requires Placing(b, ptr, ptr0, big, ss, F, G) && 0 <= y < |b| && c1 == b[Prev(|b|, y)] && 0 <= c1 < 256 && !big[c1]
    requires |Preds(b, F, c1)| + 1 + |Preds(b, G, c1)| <= Count(Pairs(b), 256 * c1 + ss) &&
             q == Start(b, 256 * c1 + ss) + |Preds(b, F, c1)|
    ensures Start(b, 256 * c1 + ss) <= q < Start(b, 256 * c1 + ss + 1) <= |ptr| && Within(F + [y], |b|)
    ensures Placing(b, ptr[q := Prev(|b|, y)], ptr0, big, ss, F + [y], G)
  {
    hide Start, Preds;
    StartNext(b, 256 * c1 + ss);
    assert PartOf(b, ptr, ptr0, ss, F, G, c1);
    forall c
      ensures Preds(b, F + [y], c) == Preds(b, F, c) + if c1 == c then [Prev(|b|, y)] else []
    {
      PredsSnoc(b, F, y, c);
    }
    var ptr' := ptr[q := Prev(|b|, y)];
    assert PartOf(b, ptr', ptr0, ss, F + [y], G, c1);
    OthersKept(b, ptr, ptr0, big, ss, F, G, F + [y], G, c1, q, ptr');
  }

  /** One rotation read from the end. */
  lemma PlaceBackward(b: seq<int>, ptr: seq<int>, ptr0: seq<int>, big: seq<bool>, ss: int, F: seq<int>, G: seq<int>,
                      y: int, c1: int, q: int)
    requires Placing(b, ptr, ptr0, big, ss, F, G) && 0 <= y < |b| && c1 == b[Prev(|b|, y)] && 0 <= c1 < 256 && !big[c1]
    requires |Preds(b, F, c1)| + 1 + |Preds(b, G, c1)| <= Count(Pairs(b), 256 * c1 + ss) &&
             q == Start(b, 256 * c1 + ss + 1) - 1 - |Preds(b, G, c1)|
    ensures Start(b, 256 * c1 + ss) <= q < Start(b, 256 * c1 + ss + 1) <= |ptr| && Within(G + [y], |b|)
    ensures Placing(b, ptr[q := Prev(|b|, y)], ptr0, big, ss, F, G + [y])
  {
    hide Start, Preds;
    StartNext(b, 256 * c1 + ss);
    assert PartOf(b, ptr, ptr0, ss, F, G, c1);
    forall c
      ensures Preds(b, G + [y], c) == Preds(b, G, c) + if c1 == c then [Prev(|b|, y)] else []
    {
      PredsSnoc(b, G, y, c);
    }
    var ptr' := ptr[q := Prev(|b|, y)];
    assert PartOf(b, ptr', ptr0, ss, F, G + [y], c1);
    OthersKept(b, ptr, ptr0, big, ss, F, G, F, G + [y], c1, q, ptr');
  }

  /** A rotation whose predecessor belongs to a finished big bucket. */
  lemma PlaceNothing(b: seq<int>, ptr: seq<int>, ptr0: seq<int>, big: seq<bool>, ss: int, F: seq<int>, G: seq<int>,
                     y: int, c1: int)
    requires Placing(b, ptr, ptr0, big, ss, F, G) && 0 <= y < |b| && c1 == b[Prev(|b|, y)] && 0 <= c1 < 256 && big[c1]
    ensures Within(F + [y], |b|) && Placing(b, ptr, ptr0, big, ss, F + [y], G)
    ensures Within(G + [y], |b|) && Placing(b, ptr, ptr0, big, ss, F, G + [y])
  {
    hide Start, Preds;
    forall c
      ensures Preds(b, F + [y], c) == Preds(b, F, c) + if c1 == c then [Prev(|b|, y)] else []
    {
      PredsSnoc(b, F, y, c);
    }
    forall c
      ensures Preds(b, G + [y], c) == Preds(b, G, c) + if c1 == c then [Prev(|b|, y)] else []
    {
      PredsSnoc(b, G, y, c);
    }
    forall c {:trigger PartOf(b, ptr, ptr0, ss, F + [y], G, c)} | 0 <= c < 256 && !big[c]
      ensures PartOf(b, ptr, ptr0, ss, F + [y], G, c)
    {
      assert PartOf(b, ptr, ptr0, ss, F, G, c);
    }
    forall c {:trigger PartOf(b, ptr, ptr0, ss, F, G + [y], c)} | 0 <= c < 256 && !big[c]
      ensures PartOf(b, ptr, ptr0, ss, F, G + [y], c)
    {
      assert PartOf(b, ptr, ptr0, ss, F, G, c);
    }
  }

  // ----- reading from the beginning -----

  /** What has been scanned of the big bucket of ss begins with the small buckets before [ss, ss]. */
  ghost function FrontOf(b: seq<int>, ptr0: seq<int>, ss: int): (r: seq<int>)
    requires |ptr0| == |b| && 0 <= ss < 256
    ensures |r| == Start(b, 256 * ss + ss) - Start(b, 256 * ss)
  {
    StartAscends(b, 256 * ss, 256 * ss + ss);
    ptr0[Start(b, 256 * ss)..Start(b, 256 * ss + ss)]
  }

  ghost predicate CursorsUp(b: seq<int>, big: seq<bool>, ss: int, copyStart: seq<int>, F: seq<int>) {
    |copyStart| == |big| == 256 && Within(F, |b|) &&
      forall c :: 0 <= c < 256 ==> copyStart[c] == Start(b, 256 * c + ss) + if big[c] then 0 else |Preds(b, F, c)|
  }

  ghost predicate Upward(b: seq<int>, rank: seq<int>, ptr: seq<int>, ptr0: seq<int>, big: seq<bool>, ss: int,
                         W: seq<int>, i: nat, copyStart: seq<int>)
  {
    && |ptr0| == |b| && 0 <= ss < 256 && |big| == 256 && !big[ss] && Scan(b, rank, ss, true, FrontOf(b, ptr0, ss), W, i)
    && Placing(b, ptr, ptr0, big, ss, W[..i], []) && CursorsUp(b, big, ss, copyStart, W[..i])
  }

  lemma OutsideFront(b: seq<int>, big: seq<bool>, ss: int, p: int)
    requires |big| == 256 && 0 <= ss < 256 && Start(b, 256 * ss) <= p < Start(b, 256 * ss + ss)
    ensures Outside(b, big, ss, p)
  {
    hide Start;
    forall c {:trigger big[c]} | 0 <= c < 256 && !big[c]
      ensures p < Start(b, 256 * c + ss) || Start(b, 256 * c + ss + 1) <= p
    {
      if c < ss { StartAscends(b, 256 * c + ss + 1, 256 * ss); } else { StartAscends(b, 256 * ss + ss, 256 * c + ss); }
    }
  }

  /** The list lies in the array, and ends where the next entry will be put. */
  lemma UpwardList(b: seq<int>, rank: seq<int>, ptr: seq<int>, ptr0: seq<int>, big: seq<bool>, ss: int, W: seq<int>,
                   i: nat, copyStart: seq<int>)
    requires Upward(b, rank, ptr, ptr0, big, ss, W, i, copyStart)
    ensures copyStart[ss] == Start(b, 256 * ss) + |W| <= Start(b, 256 * ss + ss + 1)
    ensures forall k :: 0 <= k < |W| ==> 0 <= Start(b, 256 * ss) + k < |ptr| && ptr[Start(b, 256 * ss) + k] == W[k]
  {
    hide Start, Preds;
    var s0, m0 := Start(b, 256 * ss), Start(b, 256 * ss + ss);
    StartAscends(b, 256 * ss, 256 * ss + ss);
    assert PartOf(b, ptr, ptr0, ss, W[..i], [], ss);
    StartAscends(b, 256 * ss + ss + 1, 65536);
    forall k | 0 <= k < |W| ensures 0 <= s0 + k < |ptr| && ptr[s0 + k] == W[k] {
      if k < m0 - s0 {
        OutsideFront(b, big, ss, s0 + k);
        assert W[k] == FrontOf(b, ptr0, ss)[k] == ptr0[s0 + k];
      } else {
        assert W[k] == Preds(b, W[..i], ss)[k - (m0 - s0)];
        assert ptr[m0 + (k - (m0 - s0))] == Preds(b, W[..i], ss)[k - (m0 - s0)];
      }
    }
  }

  lemma AllSidePrefix(b: seq<int>, rank: seq<int>, ss: int, low: bool, front: seq<int>, W: seq<int>, i: nat, m: nat)
    requires Scan(b, rank, ss, low, front, W, i) && m <= |W|
    ensures AllSide(b, W[..m], ss, low)
  {
  }

  lemma UpwardStep(b: seq<int>, rank: seq<int>, ptr: seq<int>, ptr0: seq<int>, big: seq<bool>, ss: int, W: seq<int>,
                   i: nat, copyStart: seq<int>, c1: int)
    requires Upward(b, rank, ptr, ptr0, big, ss, W, i, copyStart) && i < |W| && IsBytes(b) && Orders(b, rank)
    requires FrontOk(b, rank, ss, true, FrontOf(b, ptr0, ss)) && c1 == b[Prev(|b|, W[i])] && 0 <= c1 < 256
    ensures big[c1] ==> Upward(b, rank, ptr, ptr0, big, ss, Grown(b, W, i, ss), i + 1, copyStart)
    ensures !big[c1] ==> 0 <= copyStart[c1] < |ptr|
    ensures !big[c1] ==>
            Upward(b, rank, ptr[copyStart[c1] := Prev(|b|, W[i])], ptr0, big, ss, Grown(b, W, i, ss), i +
              1, copyStart[c1 := copyStart[c1] + 1])
  {
    hide Start, Preds, CursorsUp, Scan, FrontOk, Placing, Orders, FrontOf;
    var front := FrontOf(b, ptr0, ss);
    OrdersStep(b, rank);
    ScanShape(b, rank, ss, true, front, W, i);
    ScanStep(b, rank, ss, true, front, W, i);
    var F, y := W[..i], W[i];
    assert W[..i + 1] == F + [y] && Grown(b, W, i, ss)[..i + 1] == F + [y];
    CursorUp(b, big, ss, copyStart, F, y, c1);
    PredsSnoc(b, F, y, c1);
    if big[c1] {
      PlaceNothing(b, ptr, ptr0, big, ss, F, [], y, c1);
    } else {
      CursorUpAt(b, big, ss, copyStart, F, c1);
      AllSidePrefix(b, rank, ss, true, front, W, i, i + 1);
      BothFit(b, rank, ss, F + [y], [], c1);
      PlaceForward(b, ptr, ptr0, big, ss, F, [], y, c1, copyStart[c1]);
    }
  }

  lemma CursorUp(b: seq<int>, big: seq<bool>, ss: int, copyStart: seq<int>, F: seq<int>, y: int, c1: int)
    requires CursorsUp(b, big, ss, copyStart, F) && 0 <= y < |b| && c1 == b[Prev(|b|, y)] && 0 <= c1 < 256
    ensures CursorsUp(b, big, ss, if big[c1] then copyStart else copyStart[c1 := copyStart[c1] + 1], F + [y])
  {
    hide Start, Preds;
    forall c
      ensures Preds(b, F + [y], c) == Preds(b, F, c) + if c1 == c then [Prev(|b|, y)] else []
    {
      PredsSnoc(b, F, y, c);
    }
  }

  lemma CursorDown(b: seq<int>, big: seq<bool>, ss: int, copyEnd: seq<int>, G: seq<int>, y: int, c1: int)
    requires CursorsDown(b, big, ss, copyEnd, G) && 0 <= y < |b| && c1 == b[Prev(|b|, y)] && 0 <= c1 < 256
    ensures CursorsDown(b, big, ss, if big[c1] then copyEnd else copyEnd[c1 := copyEnd[c1] - 1], G + [y])
  {
    hide Start, Preds;
    forall c
      ensures Preds(b, G + [y], c) == Preds(b, G, c) + if c1 == c then [Prev(|b|, y)] else []
    {
      PredsSnoc(b, G, y, c);
    }
  }

  lemma CursorUpAt(b: seq<int>, big: seq<bool>, ss: int, copyStart: seq<int>, F: seq<int>, c: int)
    requires CursorsUp(b, big, ss, copyStart, F) && 0 <= c < 256 && !big[c]
    ensures |copyStart| == 256 && Within(F, |b|) && copyStart[c] == Start(b, 256 * c + ss) + |Preds(b, F, c)|
  {
  }

  lemma CursorDownAt(b: seq<int>, big: seq<bool>, ss: int, copyEnd: seq<int>, G: seq<int>, c: int)
    requires CursorsDown(b, big, ss, copyEnd, G) && 0 <= c < 256 && !big[c]
    ensures |copyEnd| == 256 && Within(G, |b|) && copyEnd[c] == Start(b, 256 * c + ss + 1) - 1 - |Preds(b, G, c)|
  {
  }

  lemma OrdersStep(b: seq<int>, rank: seq<int>)
    requires Orders(b, rank)
    ensures Steps(b, rank)
  {
  }

  lemma ScanShape(b: seq<int>, rank: seq<int>, ss: int, low: bool, front: seq<int>, W: seq<int>, i: nat)
    requires Scan(b, rank, ss, low, front, W, i)
    ensures Within(W, |b|) && i <= |W|
  {
  }

  // ----- reading from the end -----

  ghost function BackOf(b: seq<int>, ptr0: seq<int>, ss: int): (r: seq<int>)
    requires |ptr0| == |b| && 0 <= ss < 256
    ensures |r| == Start(b, 256 * ss + 256) - Start(b, 256 * ss + ss + 1)
    ensures forall k ::
              0 <= k < |r| ==>
                0 <= Start(b, 256 * ss + 256) - 1 - k < |b| && r[k] == ptr0[Start(b, 256 * ss + 256) - 1 - k]
  {
    StartAscends(b, 256 * ss + ss + 1, 256 * ss + 256);
    StartAscends(b, 256 * ss + 256, 65536);
    var m1, e0 := Start(b, 256 * ss + ss + 1), Start(b, 256 * ss + 256);
    seq(e0 - m1, k requires 0 <= k < e0 - m1 => ptr0[e0 - 1 - k])
  }

  ghost predicate CursorsDown(b: seq<int>, big: seq<bool>, ss: int, copyEnd: seq<int>, G: seq<int>) {
    |copyEnd| == |big| == 256 && Within(G, |b|) &&
      forall c ::
          0 <= c < 256 ==> copyEnd[c] == Start(b, 256 * c + ss + 1) - 1 - if big[c] then 0 else |Preds(b, G, c)|
  }

  ghost predicate Downward(b: seq<int>, rank: seq<int>, ptr: seq<int>, ptr0: seq<int>, big: seq<bool>, ss: int,
                           W: seq<int>, V: seq<int>, i: nat, copyEnd: seq<int>)
  {
    && |ptr0| == |b| && 0 <= ss < 256 && |big| == 256 && !big[ss] &&
         Scan(b, Negated(rank), ss, false, BackOf(b, ptr0, ss), V, i)
    && AllSide(b, W, ss, true) && Placing(b, ptr, ptr0, big, ss, W, V[..i]) && CursorsDown(b, big, ss, copyEnd, V[..i])
  }

  lemma OutsideBack(b: seq<int>, big: seq<bool>, ss: int, p: int)
    requires |big| == 256 && 0 <= ss < 256 && Start(b, 256 * ss + ss + 1) <= p < Start(b, 256 * ss + 256)
    ensures Outside(b, big, ss, p)
  {
    hide Start;
    forall c {:trigger big[c]} | 0 <= c < 256 && !big[c]
      ensures p < Start(b, 256 * c + ss) || Start(b, 256 * c + ss + 1) <= p
    {
      if c <= ss {
        StartAscends(b, 256 * c + ss + 1, 256 * ss + ss + 1);
      } else {
        StartAscends(b, 256 * ss + 256, 256 * c + ss);
      }
    }
  }

  lemma DownwardList(b: seq<int>, rank: seq<int>, ptr: seq<int>, ptr0: seq<int>, big: seq<bool>, ss: int, W: seq<int>,
                     V: seq<int>, i: nat, copyEnd: seq<int>)
    requires Downward(b, rank, ptr, ptr0, big, ss, W, V, i, copyEnd)
    ensures copyEnd[ss] == Start(b, 256 * ss + 256) - 1 - |V| >= Start(b, 256 * ss + ss) - 1
    ensures forall k ::
              0 <= k < |V| ==>
                0 <= Start(b, 256 * ss + 256) - 1 - k < |ptr| && ptr[Start(b, 256 * ss + 256) - 1 - k] == V[k]
  {
    hide Start, Preds;
    var m1, e0 := Start(b, 256 * ss + ss + 1), Start(b, 256 * ss + 256);
    StartAscends(b, 256 * ss + ss + 1, 256 * ss + 256);
    assert PartOf(b, ptr, ptr0, ss, W, V[..i], ss);
    StartAscends(b, 256 * ss + 256, 65536);
    forall k | 0 <= k < |V| ensures 0 <= e0 - 1 - k < |ptr| && ptr[e0 - 1 - k] == V[k] {
      if k < e0 - m1 {
        OutsideBack(b, big, ss, e0 - 1 - k);
        assert V[k] == BackOf(b, ptr0, ss)[k] == ptr0[e0 - 1 - k];
      } else {
        assert V[k] == Preds(b, V[..i], ss)[k - (e0 - m1)];
        assert ptr[m1 - 1 - (k - (e0 - m1))] == Preds(b, V[..i], ss)[k - (e0 - m1)];
      }
    }
  }

  lemma DownwardStep(b: seq<int>, rank: seq<int>, ptr: seq<int>, ptr0: seq<int>, big: seq<bool>, ss: int, W: seq<int>,
                     V: seq<int>, i: nat, copyEnd: seq<int>, c1: int)
    requires Downward(b, rank, ptr, ptr0, big, ss, W, V, i, copyEnd) && i < |V| && IsBytes(b) && Orders(b, rank)
    requires FrontOk(b, Negated(rank), ss, false, BackOf(b, ptr0, ss)) && c1 == b[Prev(|b|, V[i])] && 0 <= c1 < 256
    ensures big[c1] ==> Downward(b, rank, ptr, ptr0, big, ss, W, Grown(b, V, i, ss), i + 1, copyEnd)
    ensures !big[c1] ==> 0 <= copyEnd[c1] < |ptr|
    ensures !big[c1] ==>
            Downward(b, rank, ptr[copyEnd[c1] := Prev(|b|, V[i])], ptr0, big, ss, W, Grown(b, V, i, ss), i +
              1, copyEnd[c1 := copyEnd[c1] - 1])
  {
    hide Start, Preds, CursorsDown, Scan, FrontOk, Placing, Orders, BackOf, AllSide;
    var back := BackOf(b, ptr0, ss);
    OrdersStep(b, rank);
    NegatedSteps(b, rank);
    ScanShape(b, Negated(rank), ss, false, back, V, i);
    ScanStep(b, Negated(rank), ss, false, back, V, i);
    var G, y := V[..i], V[i];
    assert V[..i + 1] == G + [y] && Grown(b, V, i, ss)[..i + 1] == G + [y];
    CursorDown(b, big, ss, copyEnd, G, y, c1);
    PredsSnoc(b, G, y, c1);
    if big[c1] {
      PlaceNothing(b, ptr, ptr0, big, ss, W, G, y, c1);
    } else {
      CursorDownAt(b, big, ss, copyEnd, G, c1);
      AllSidePrefix(b, Negated(rank), ss, false, back, V, i, i + 1);
      BothFit(b, rank, ss, W, G + [y], c1);
      PlaceBackward(b, ptr, ptr0, big, ss, W, G, y, c1, copyEnd[c1]);
    }
  }
}
