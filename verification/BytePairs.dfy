/** The first two bytes of a rotation, which mainSort of blocksort.c sorts by first, and what it
    needs to know of the order of rotations to go on from there. */
module BytePairs {
  import opened Counting
  import opened MainSimpleSort
  import opened Rearrangement
  import opened Rotations

  function Next(n: nat, i: nat): (r: nat)
    requires i < n
    ensures r < n && r == Advance(n, i, 1)
  {
    if i + 1 == n then 0 else i + 1
  }

  function Prev(n: nat, i: nat): (r: nat)
    requires i < n
    ensures r < n && Next(n, r) == i
  {
    if i == 0 then n - 1 else i - 1
  }

  /** The first two bytes of every rotation, as one number. */
  function Pairs(b: seq<int>): (d: seq<int>)
    ensures |d| == |b| && forall i :: 0 <= i < |b| ==> d[i] == 256 * b[i] + b[Next(|b|, i)]
  {
    seq(|b|, i requires 0 <= i < |b| => 256 * b[i] + b[Next(|b|, i)])
  }

  lemma PairRange(b: seq<int>)
    requires IsBytes(b)
    ensures forall i :: 0 <= i < |b| ==> 0 <= Pairs(b)[i] < 65536
  {
  }

  lemma PairIs(b: seq<int>, x: nat, c1: nat, c2: nat)
    requires IsBytes(b) && x < |b| && c1 < 256 && c2 < 256
    ensures Pairs(b)[x] == 256 * c1 + c2 <==> b[x] == c1 && b[Next(|b|, x)] == c2
  {
  }

  // ----- the order of rotations, as a rank -----

  ghost predicate AtMost(rank: seq<int>, x: int, y: int) {
    0 <= x < |rank| && 0 <= y < |rank| && rank[x] <= rank[y]
  }

  ghost predicate AllSame(b: seq<int>) {
    forall x, y :: 0 <= x < |b| && 0 <= y < |b| ==> b[x] == b[y]
  }

  /** Rotations with the same first byte are in the order of the rotations that follow them. */
  ghost predicate Steps(b: seq<int>, rank: seq<int>) {
    |rank| == |b| &&
      forall x, y {:trigger AtMost(rank, x, y)} ::
          0 <= x < |b| && 0 <= y < |b| && b[x] == b[y] && AtMost(rank, Next(|b|, x), Next(|b|, y)) ==>
            AtMost(rank, x, y)
  }

  /** And rotations with different first bytes in the order of these. */
  ghost predicate Orders(b: seq<int>, rank: seq<int>) {
    && Steps(b, rank)
    && (forall x, y {:trigger AtMost(rank, x, y)} :: 0 <= x < |b| && 0 <= y < |b| && b[x] < b[y] ==> AtMost(rank, x, y))
    && (AllSame(b) ==> forall x, y {:trigger AtMost(rank, x, y)} :: 0 <= x < |b| && 0 <= y < |b| ==> AtMost(rank, x, y))
  }

  lemma RankStep(b: seq<int>, x: nat, y: nat)
    requires x < |b| && y < |b| && b[x] == b[y] && Ranks(b)[Next(|b|, x)] <= Ranks(b)[Next(|b|, y)]
    ensures Ranks(b)[x] <= Ranks(b)[y]
  {
    hide Ranks;
    var n := |b|;
    RankOrder(b, x, y);
    RankOrder(b, Next(n, x), Next(n, y));
    CmpSplit(b, Next(n, x), Next(n, y), n - 1, 1);
    CmpSplit(b, x, y, 1, n - 1);
    assert Cmp(b, Next(n, x), Next(n, y), 0) == 0;
  }

  lemma RankByte(b: seq<int>, x: nat, y: nat)
    requires x < |b| && y < |b| && b[x] < b[y]
    ensures Ranks(b)[x] <= Ranks(b)[y]
  {
    hide Ranks;
    RankOrder(b, x, y);
  }

  lemma {:induction false} NoDifference(b: seq<int>, x: nat, y: nat, d: nat)
    requires x < |b| && y < |b| && AllSame(b)
    ensures Cmp(b, x, y, d) == 0
    decreases d
  {
    if d > 0 { NoDifference(b, Advance(|b|, x, 1), Advance(|b|, y, 1), d - 1); }
  }

  /** The ranks are such an order. */
  lemma RanksOrder(b: seq<int>)
    ensures Orders(b, Ranks(b))
  {
    hide Ranks;
    var rank := Ranks(b);
    forall x, y {:trigger AtMost(rank, x, y)}
      | 0 <= x < |b| && 0 <= y < |b| && b[x] == b[y] && AtMost(rank, Next(|b|, x), Next(|b|, y))
      ensures AtMost(rank, x, y)
    {
      RankStep(b, x, y);
    }
    forall x, y {:trigger AtMost(rank, x, y)} | 0 <= x < |b| && 0 <= y < |b| && b[x] < b[y] ensures AtMost(rank, x, y) {
      RankByte(b, x, y);
    }
    if AllSame(b) {
      forall x, y {:trigger AtMost(rank, x, y)} | 0 <= x < |b| && 0 <= y < |b| ensures AtMost(rank, x, y) {
        NoDifference(b, x, y, |b|);
        RankOrder(b, x, y);
      }
    }
  }

  /** A smaller pair comes first. */
  lemma PairOrder(b: seq<int>, rank: seq<int>, x: nat, y: nat)
    requires IsBytes(b) && Orders(b, rank) && x < |b| && y < |b| && Pairs(b)[x] < Pairs(b)[y]
    ensures AtMost(rank, x, y)
  {
    if b[x] == b[y] { assert AtMost(rank, Next(|b|, x), Next(|b|, y)); }
  }

  // ----- the order read backwards -----

  ghost function Negated(rank: seq<int>): (r: seq<int>)
    ensures |r| == |rank| && forall i :: 0 <= i < |rank| ==> r[i] == -rank[i]
  {
    seq(|rank|, i requires 0 <= i < |rank| => -rank[i])
  }

  lemma NegatedAtMost(rank: seq<int>, x: int, y: int)
    ensures AtMost(Negated(rank), x, y) <==> AtMost(rank, y, x)
  {
  }

  lemma NegatedSteps(b: seq<int>, rank: seq<int>)
    requires Steps(b, rank)
    ensures Steps(b, Negated(rank))
  {
    forall x, y {:trigger AtMost(Negated(rank), x, y)}
      | 0 <= x < |b| && 0 <= y < |b| && b[x] == b[y] && AtMost(Negated(rank), Next(|b|, x), Next(|b|, y))
      ensures AtMost(Negated(rank), x, y)
    {
      NegatedAtMost(rank, Next(|b|, x), Next(|b|, y));
      assert AtMost(rank, y, x);
    }
  }

  // ----- before and after a run of one byte -----

  /** Within at most f copies of byte s comes a smaller byte. */
  ghost predicate Low(b: seq<int>, x: nat, s: int, f: nat)
    requires x < |b|
    decreases f
  {
    b[x] < s || (b[x] == s && f > 0 && Low(b, Next(|b|, x), s, f - 1))
  }

  /** Within at most f copies of byte s comes a larger byte. */
  ghost predicate High(b: seq<int>, x: nat, s: int, f: nat)
    requires x < |b|
    decreases f
  {
    b[x] > s || (b[x] == s && f > 0 && High(b, Next(|b|, x), s, f - 1))
  }

  /** A run that ends in a smaller byte comes before one that ends in a larger byte. */
  lemma {:induction false} LowBeforeHigh(b: seq<int>, rank: seq<int>, x: nat, y: nat, s: int, f: nat, g: nat)
    requires Orders(b, rank) && x < |b| && y < |b| && Low(b, x, s, f) && High(b, y, s, g)
    ensures AtMost(rank, x, y) && x != y
    decreases f
  {
    if b[x] == b[y] { LowBeforeHigh(b, rank, Next(|b|, x), Next(|b|, y), s, f - 1, g - 1); }
  }

  // ----- how many rotations begin with a pair -----

  ghost function Where(d: seq<int>, v: int): (r: set<int>)
    ensures forall x :: x in r <==> 0 <= x < |d| && d[x] == v
  {
    set x | 0 <= x < |d| && d[x] == v
  }

  lemma {:induction false} WhereCount(d: seq<int>, v: int)
    ensures |Where(d, v)| == Count(d, v)
  {
    if d == [] {
      assert Where(d, v) == {};
    } else {
      var n := |d| - 1;
      WhereCount(d[..n], v);
      assert Where(d, v) == Where(d[..n], v) + if d[n] == v then {n} else {};
    }
  }

  /** Different positions with pair v are at most as many as v occurs, and if they are as many
      they are all of them. */
  lemma AllOrFewer(d: seq<int>, v: int, s: seq<int>)
    requires Distinct(s) && forall k :: 0 <= k < |s| ==> 0 <= s[k] < |d| && d[s[k]] == v
    ensures |s| <= Count(d, v)
    ensures |s| == Count(d, v) <==> forall x :: 0 <= x < |d| && d[x] == v ==> x in s
  {
    DistinctCardinality(s);
    WhereCount(d, v);
    var e, w := (set x | x in s), Where(d, v);
    assert e <= w && w == e + (w - e);
    if |s| == Count(d, v) {
      assert w - e == {};
      forall x | 0 <= x < |d| && d[x] == v ensures x in s { assert x in w && x !in w - e; }
    }
    if forall x :: 0 <= x < |d| && d[x] == v ==> x in s { assert w <= e; }
  }
}
