/** The idea behind step 2 of mainSort: to read the sorted rotations of one first byte in order
    is to meet their predecessors in order. The list that is read grows while it is read, since
    predecessors with the same byte belong to it. */
module PredecessorScan {
  import opened BytePairs
  import opened Counting
  import opened Rearrangement
  import opened Rotations

  ghost predicate Within(F: seq<int>, n: nat) {
    forall k :: 0 <= k < |F| ==> 0 <= F[k] < n
  }

  ghost predicate InRow(rank: seq<int>, s: seq<int>) {
    forall p, q {:trigger AtMost(rank, s[p], s[q])} :: 0 <= p < q < |s| ==> AtMost(rank, s[p], s[q])
  }

  /** The predecessors of the rotations in F that begin with byte c, in the order of F. */
  ghost function Preds(b: seq<int>, F: seq<int>, c: int): (r: seq<int>)
    requires Within(F, |b|)
    ensures |r| <= |F|
  {
    if F == [] then []
    else Preds(b, F[..|F| - 1], c) + if b[Prev(|b|, F[|F| - 1])] == c then [Prev(|b|, F[|F| - 1])] else []
  }

  lemma PredsSnoc(b: seq<int>, F: seq<int>, y: int, c: int)
    requires Within(F, |b|) && 0 <= y < |b|
    ensures Within(F + [y], |b|)
    ensures Preds(b, F + [y], c) == Preds(b, F, c) + if b[Prev(|b|, y)] == c then [Prev(|b|, y)] else []
  {
    assert (F + [y])[..|F|] == F;
  }

  lemma PredsNone(b: seq<int>, c: int)
    ensures Preds(b, [], c) == []
  {
  }

  lemma {:induction false} PredsAppend(b: seq<int>, F: seq<int>, G: seq<int>, c: int)
    requires Within(F, |b|) && Within(G, |b|)
    ensures Within(F + G, |b|) && Preds(b, F + G, c) == Preds(b, F, c) + Preds(b, G, c)
    decreases |G|
  {
    hide Preds;
    if G == [] {
      assert F + G == F;
      PredsNone(b, c);
    } else {
      var g := |G| - 1;
      var front, y := G[..g], G[g];
      assert G == front + [y] && F + G == (F + front) + [y];
      PredsAppend(b, F, front, c);
      PredsSnoc(b, F + front, y, c);
      PredsSnoc(b, front, y, c);
    }
  }

  lemma {:induction false} PredsHas(b: seq<int>, F: seq<int>, c: int)
    requires Within(F, |b|)
    ensures forall k ::
              0 <= k < |Preds(b, F, c)| ==>
                0 <= Preds(b, F, c)[k] < |b| && b[Preds(b, F, c)[k]] == c && Next(|b|, Preds(b, F, c)[k]) in F
    ensures forall x :: 0 <= x < |b| && b[x] == c && Next(|b|, x) in F ==> x in Preds(b, F, c)
    decreases |F|
  {
    if F != [] {
      var m := |F| - 1;
      PredsHas(b, F[..m], c);
      assert F == F[..m] + [F[m]];
      forall x | 0 <= x < |b| && b[x] == c && Next(|b|, x) in F ensures x in Preds(b, F, c) {
        if Next(|b|, x) != F[m] { assert Next(|b|, x) in F[..m]; } else { assert x == Prev(|b|, F[m]); }
      }
    }
  }

  /** Different rotations have different predecessors. */
  lemma {:induction false} PredsDistinct(b: seq<int>, F: seq<int>, c: int)
    requires Within(F, |b|) && Distinct(F)
    ensures Distinct(Preds(b, F, c))
    decreases |F|
  {
    if F != [] {
      var m := |F| - 1;
      PredsDistinct(b, F[..m], c);
      PredsHas(b, F[..m], c);
      var x, front := Prev(|b|, F[m]), Preds(b, F[..m], c);
      forall k | 0 <= k < |front| ensures front[k] != x {
        var i :| 0 <= i < m && F[..m][i] == Next(|b|, front[k]);
        assert F[i] != F[m];
      }
    }
  }

  /** Rotations in order have their predecessors in order. */
  lemma {:induction false} PredsInRow(b: seq<int>, rank: seq<int>, F: seq<int>, c: int)
    requires Within(F, |b|) && InRow(rank, F) && Steps(b, rank)
    ensures InRow(rank, Preds(b, F, c))
    decreases |F|
  {
    if F != [] {
      var m := |F| - 1;
      forall p, q {:trigger AtMost(rank, F[..m][p], F[..m][q])} | 0 <= p < q < m
        ensures AtMost(rank, F[..m][p], F[..m][q])
      {
        assert AtMost(rank, F[p], F[q]);
      }
      PredsInRow(b, rank, F[..m], c);
      var r, front, x := Preds(b, F, c), Preds(b, F[..m], c), Prev(|b|, F[m]);
      if b[x] == c {
        PredsLast(b, rank, F, c, front, x);
        forall p, q {:trigger AtMost(rank, r[p], r[q])} | 0 <= p < q < |r| ensures AtMost(rank, r[p], r[q]) {
          if q < |front| { assert AtMost(rank, front[p], front[q]); } else { assert AtMost(rank, front[p], x); }
        }
      } else {
        assert r == front;
      }
    }
  }

  /** The last predecessor comes after all before it. */
  lemma PredsLast(b: seq<int>, rank: seq<int>, F: seq<int>, c: int, front: seq<int>, x: int)
    requires Within(F, |b|) && InRow(rank, F) && Steps(b, rank) && F != [] && x == Prev(|b|, F[|F| - 1]) &&
             b[x] == c && front == Preds(b, F[..|F| - 1], c)
    ensures forall k :: 0 <= k < |front| ==> AtMost(rank, front[k], x)
  {
    var m := |F| - 1;
    PredsHas(b, F[..m], c);
    forall k | 0 <= k < |front| ensures AtMost(rank, front[k], x) {
      var i :| 0 <= i < m && F[..m][i] == Next(|b|, front[k]);
      assert AtMost(rank, F[i], F[m]);
    }
  }

  /** Predecessors of rotations that begin with ss begin with c and then ss. */
  lemma PredsFit(b: seq<int>, F: seq<int>, c: int, ss: int)
    requires IsBytes(b) && Within(F, |b|) && Distinct(F) && 0 <= c < 256 && 0 <= ss < 256 &&
             forall k :: 0 <= k < |F| ==> b[F[k]] == ss
    ensures |Preds(b, F, c)| <= Count(Pairs(b), 256 * c + ss)
    ensures |Preds(b, F, c)| == Count(Pairs(b), 256 * c + ss) <==>
            forall x :: 0 <= x < |b| && b[x] == c && b[Next(|b|, x)] == ss ==> Next(|b|, x) in F
  {
    hide Preds, Pairs;
    var r, d := Preds(b, F, c), Pairs(b);
    PredsHas(b, F, c);
    PredsDistinct(b, F, c);
    forall k | 0 <= k < |r| ensures 0 <= r[k] < |d| && d[r[k]] == 256 * c + ss { PairIs(b, r[k], c, ss); }
    AllOrFewer(d, 256 * c + ss, r);
    forall x | 0 <= x < |b|
      ensures d[x] == 256 * c + ss <==> b[x] == c && b[Next(|b|, x)] == ss
    {
      PairIs(b, x, c, ss);
    }
  }

  // ----- the list being read -----

  /** From which side the list is read. */
  ghost predicate Side(b: seq<int>, x: int, ss: int, low: bool) {
    0 <= x < |b| && b[x] == ss && if low then exists f: nat :: Low(b, x, ss, f) else exists f: nat :: High(b, x, ss, f)
  }

  /** The beginning of the list: sorted rotations that begin with ss and go on with a smaller, or
      with a larger byte. */
  ghost predicate FrontOk(b: seq<int>, rank: seq<int>, ss: int, low: bool, front: seq<int>) {
    && Within(front, |b|) && Distinct(front) && InRow(rank, front)
    && (forall k ::
           0 <= k < |front| ==>
             b[front[k]] == ss && if low then b[Next(|b|, front[k])] < ss else b[Next(|b|, front[k])] > ss)
    && (forall k, x {:trigger AtMost(rank, front[k], x)} ::
           0 <= k < |front| && 0 <= x < |b| && b[x] == ss == b[Next(|b|, x)] ==> AtMost(rank, front[k], x))
  }

  /** The list W when its first i entries have been read. */
  ghost predicate Scan(b: seq<int>, rank: seq<int>, ss: int, low: bool, front: seq<int>, W: seq<int>, i: nat) {
    && Within(W, |b|) && i <= |W| && W == front + Preds(b, W[..i], ss) && Distinct(W) && InRow(rank, W)
    && forall k :: 0 <= k < |W| ==> Side(b, W[k], ss, low)
  }

  lemma ScanBegin(b: seq<int>, rank: seq<int>, ss: int, low: bool, front: seq<int>)
    requires FrontOk(b, rank, ss, low, front)
    ensures Scan(b, rank, ss, low, front, front, 0)
  {
    forall k | 0 <= k < |front| ensures Side(b, front[k], ss, low) {
      if low {
        assert Low(b, Next(|b|, front[k]), ss, 0);
        assert Low(b, front[k], ss, 1);
      } else {
        assert High(b, Next(|b|, front[k]), ss, 0);
        assert High(b, front[k], ss, 1);
      }
    }
    assert front[..0] == [];
  }

  lemma SideBefore(b: seq<int>, x: nat, ss: int, low: bool)
    requires x < |b| && b[x] == ss && Side(b, Next(|b|, x), ss, low)
    ensures Side(b, x, ss, low)
  {
    if low {
      var f: nat :| Low(b, Next(|b|, x), ss, f);
      assert Low(b, x, ss, f + 1);
    } else {
      var f: nat :| High(b, Next(|b|, x), ss, f);
      assert High(b, x, ss, f + 1);
    }
  }

  /** The predecessor of the entry read next is new to the list and belongs at its end. */
  lemma NewEntry(b: seq<int>, rank: seq<int>, ss: int, low: bool, front: seq<int>, W: seq<int>, i: nat)
    requires FrontOk(b, rank, ss, low, front) && Scan(b, rank, ss, low, front, W, i) && i < |W| && Steps(b, rank) &&
             b[Prev(|b|, W[i])] == ss
    ensures Side(b, Prev(|b|, W[i]), ss, low)
    ensures forall k :: 0 <= k < |W| ==> W[k] != Prev(|b|, W[i]) && AtMost(rank, W[k], Prev(|b|, W[i]))
  {
    hide Preds;
    var x := Prev(|b|, W[i]);
    assert Side(b, W[i], ss, low);
    SideBefore(b, x, ss, low);
    PredsHas(b, W[..i], ss);
    forall k | 0 <= k < |W| ensures W[k] != x && AtMost(rank, W[k], x) {
      if k < |front| {
        assert W[k] == front[k];
      } else {
        assert W[k] == Preds(b, W[..i], ss)[k - |front|];
        assert Next(|b|, W[k]) in W[..i];
        var j :| 0 <= j < i && W[..i][j] == Next(|b|, W[k]);
        assert W[j] != W[i] && AtMost(rank, W[j], W[i]);
      }
    }
  }

  /** The list after one more entry has been read. */
  ghost function Grown(b: seq<int>, W: seq<int>, i: nat, ss: int): (r: seq<int>)
    requires Within(W, |b|) && i < |W|
  {
    if b[Prev(|b|, W[i])] == ss then W + [Prev(|b|, W[i])] else W
  }

  lemma ScanStep(b: seq<int>, rank: seq<int>, ss: int, low: bool, front: seq<int>, W: seq<int>, i: nat)
    requires FrontOk(b, rank, ss, low, front) && Scan(b, rank, ss, low, front, W, i) && i < |W| && Steps(b, rank)
    ensures Scan(b, rank, ss, low, front, Grown(b, W, i, ss), i + 1)
  {
    hide Preds, FrontOk, Side;
    var W', x := Grown(b, W, i, ss), Prev(|b|, W[i]);
    assert W'[..i + 1] == W[..i] + [W[i]];
    PredsSnoc(b, W[..i], W[i], ss);
    if b[x] == ss {
      NewEntry(b, rank, ss, low, front, W, i);
      forall p, q {:trigger AtMost(rank, W'[p], W'[q])} | 0 <= p < q < |W'| ensures AtMost(rank, W'[p], W'[q]) {
        if q < |W| { assert AtMost(rank, W[p], W[q]); } else { assert AtMost(rank, W[p], x); }
      }
    }
  }

  // ----- both lists together -----

  /** Nothing is read from both sides. */
  lemma SidesApart(b: seq<int>, rank: seq<int>, ss: int, x: int, y: int)
    requires Orders(b, rank) && Side(b, x, ss, true) && Side(b, y, ss, false)
    ensures x != y && AtMost(rank, x, y)
  {
    var f: nat :| Low(b, x, ss, f);
    var g: nat :| High(b, y, ss, g);
    LowBeforeHigh(b, rank, x, y, ss, f, g);
  }

  ghost predicate AllSide(b: seq<int>, W: seq<int>, ss: int, low: bool) {
    Within(W, |b|) && Distinct(W) && forall k :: 0 <= k < |W| ==> Side(b, W[k], ss, low)
  }

  lemma BothDistinct(b: seq<int>, rank: seq<int>, ss: int, W: seq<int>, V: seq<int>)
    requires Orders(b, rank) && AllSide(b, W, ss, true) && AllSide(b, V, ss, false)
    ensures Distinct(W + V) && Within(W + V, |b|) && forall k :: 0 <= k < |W + V| ==> b[(W + V)[k]] == ss
  {
    forall j, k | 0 <= j < k < |W + V| ensures (W + V)[j] != (W + V)[k] {
      if j < |W| <= k { SidesApart(b, rank, ss, W[j], V[k - |W|]); }
    }
  }

  /** What both lists lead to fits into its small bucket. */
  lemma BothFit(b: seq<int>, rank: seq<int>, ss: int, W: seq<int>, V: seq<int>, c: int)
    requires IsBytes(b) && Orders(b, rank) && AllSide(b, W, ss, true) && AllSide(b, V, ss, false) && 0 <= c < 256 &&
             0 <= ss < 256
    ensures |Preds(b, W, c)| + |Preds(b, V, c)| <= Count(Pairs(b), 256 * c + ss)
  {
    BothDistinct(b, rank, ss, W, V);
    PredsAppend(b, W, V, c);
    PredsFit(b, W + V, c, ss);
  }

  /** Everything that begins with ss is on one of the lists. */
  ghost predicate Complete(b: seq<int>, ss: int, W: seq<int>, V: seq<int>) {
    forall x :: 0 <= x < |b| && b[x] == ss ==> x in W || x in V
  }

  /** Then their predecessors fill the small bucket. */
  lemma BothFill(b: seq<int>, rank: seq<int>, ss: int, W: seq<int>, V: seq<int>, c: int)
    requires IsBytes(b) && Orders(b, rank) && AllSide(b, W, ss, true) && AllSide(b, V, ss, false) && 0 <= c < 256 &&
             0 <= ss < 256
    requires Complete(b, ss, W, V)
    ensures |Preds(b, W, c)| + |Preds(b, V, c)| == Count(Pairs(b), 256 * c + ss)
  {
    BothDistinct(b, rank, ss, W, V);
    PredsAppend(b, W, V, c);
    PredsFit(b, W + V, c, ss);
    forall x | 0 <= x < |b| && b[x] == c && b[Next(|b|, x)] == ss ensures Next(|b|, x) in W + V {
      assert Next(|b|, x) in W || Next(|b|, x) in V;
    }
  }

  /** On neither list. */
  ghost predicate Missed(b: seq<int>, ss: int, W: seq<int>, V: seq<int>, x: int) {
    0 <= x < |b| && b[x] == ss && x !in W && x !in V
  }

  ghost predicate FrontsAll(b: seq<int>, ss: int, front: seq<int>, back: seq<int>) {
    forall x :: 0 <= x < |b| && b[x] == ss && b[Next(|b|, x)] != ss ==> x in front || x in back
  }

  /** What follows a rotation missed by both lists has been missed too. */
  lemma MissedNext(b: seq<int>, rank: seq<int>, up: seq<int>, ss: int, front: seq<int>, back: seq<int>, W: seq<int>,
                   V: seq<int>, x: int)
    requires Scan(b, rank, ss, true, front, W, |W|) && Scan(b, up, ss, false, back, V, |V|) &&
             FrontsAll(b, ss, front, back)
    requires Missed(b, ss, W, V, x)
    ensures Missed(b, ss, W, V, Next(|b|, x))
  {
    hide Preds, Side;
    assert W[..|W|] == W && V[..|V|] == V;
    PredsHas(b, W, ss);
    PredsHas(b, V, ss);
    assert W == front + Preds(b, W, ss) && V == back + Preds(b, V, ss);
    forall z | z in front ensures z in W { var k :| 0 <= k < |front| && front[k] == z; assert W[k] == z; }
    forall z | z in back ensures z in V { var k :| 0 <= k < |back| && back[k] == z; assert V[k] == z; }
    ListClosed(b, front, W, ss);
    ListClosed(b, back, V, ss);
  }

  /** A list that has been read to its end holds the predecessors of its entries. */
  lemma ListClosed(b: seq<int>, front: seq<int>, W: seq<int>, ss: int)
    requires Within(W, |b|) && W == front + Preds(b, W, ss)
    ensures forall z :: 0 <= z < |b| && b[z] == ss && Next(|b|, z) in W ==> z in W
  {
    hide Preds;
    PredsHas(b, W, ss);
  }

  lemma {:induction false} MissedAll(b: seq<int>, rank: seq<int>, up: seq<int>, ss: int, front: seq<int>,
                                     back: seq<int>, W: seq<int>, V: seq<int>, x: int, m: nat)
    requires Scan(b, rank, ss, true, front, W, |W|) && Scan(b, up, ss, false, back, V, |V|) &&
             FrontsAll(b, ss, front, back)
    requires Missed(b, ss, W, V, x) && m <= |b|
    ensures Missed(b, ss, W, V, Advance(|b|, x, m))
    decreases m
  {
    hide Scan, FrontsAll;
    if m > 0 {
      MissedAll(b, rank, up, ss, front, back, W, V, x, m - 1);
      MissedNext(b, rank, up, ss, front, back, W, V, Advance(|b|, x, m - 1));
    }
  }

  /** So if anything is missed, the block consists of one byte. */
  lemma CompleteOrSame(b: seq<int>, rank: seq<int>, up: seq<int>, ss: int, front: seq<int>, back: seq<int>,
                       W: seq<int>, V: seq<int>)
    requires Scan(b, rank, ss, true, front, W, |W|) && Scan(b, up, ss, false, back, V, |V|) &&
             FrontsAll(b, ss, front, back)
    ensures Complete(b, ss, W, V) || (forall x :: 0 <= x < |b| ==> b[x] == ss)
  {
    hide Scan, FrontsAll;
    if !Complete(b, ss, W, V) {
      var x :| 0 <= x < |b| && b[x] == ss && !(x in W || x in V);
      forall y | 0 <= y < |b| ensures b[y] == ss {
        MissedAll(b, rank, up, ss, front, back, W, V, x, if y >= x then y - x else y - x + |b|);
        assert Advance(|b|, x, if y >= x then y - x else y - x + |b|) == y;
      }
    }
  }

}
