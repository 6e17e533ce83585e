/** Histograms and prefix sums over a sequence of digits: the arithmetic that every counting
    sort, radix pass and partitioner of the repository rests on. */
module Counting {

  /** Number of occurrences of digit c. */
  function Count(d: seq<int>, c: int): (r: nat)
    ensures r <= |d|
  {
    if d == [] then 0
    else Count(d[..|d|-1], c) + if d[|d|-1] == c then 1 else 0
  }

  /** Number of digits smaller than c. */
  function Below(d: seq<int>, c: int): (r: nat)
    ensures r <= |d|
  {
    if d == [] then 0
    else Below(d[..|d|-1], c) + if d[|d|-1] < c then 1 else 0
  }

  lemma CountSnoc(d: seq<int>, x: int, c: int)
    ensures Count(d + [x], c) == Count(d, c) + if x == c then 1 else 0
    ensures Below(d + [x], c) == Below(d, c) + if x < c then 1 else 0
  {
    assert (d + [x])[..|d|] == d;
  }

  lemma CountPrefix(d: seq<int>, i: nat, c: int)
    requires i < |d|
    ensures Count(d[..i+1], c) == Count(d[..i], c) + if d[i] == c then 1 else 0
  {
    assert d[..i+1] == d[..i] + [d[i]];
    CountSnoc(d[..i], d[i], c);
  }

  lemma {:induction false} CountAppend(d: seq<int>, e: seq<int>, c: int)
    ensures Count(d + e, c) == Count(d, c) + Count(e, c)
    ensures Below(d + e, c) == Below(d, c) + Below(e, c)
  {
    if e == [] {
      assert d + e == d;
    } else {
      var n := |e| - 1;
      assert d + e == (d + e[..n]) + [e[n]];
      CountSnoc(d + e[..n], e[n], c);
      CountAppend(d, e[..n], c);
    }
  }

  lemma CountMonotone(d: seq<int>, i: nat, j: nat, c: int)
    requires i <= j <= |d|
    ensures Count(d[..i], c) <= Count(d[..j], c)
  {
    assert d[..j] == d[..i] + d[i..j];
    CountAppend(d[..i], d[i..j], c);
  }

  lemma CountWithin(d: seq<int>, i: nat, c: int)
    requires i <= |d|
    ensures Count(d[..i], c) <= Count(d, c)
  {
    assert d[..i] + d[i..] == d;
    CountAppend(d[..i], d[i..], c);
  }

  lemma {:induction false} BelowNext(d: seq<int>, c: int)
    ensures Below(d, c + 1) == Below(d, c) + Count(d, c)
  {
    if d != [] { BelowNext(d[..|d|-1], c); }
  }

  lemma {:induction false} BelowMonotone(d: seq<int>, c: int, c': int)
    requires c <= c'
    ensures Below(d, c) <= Below(d, c')
  {
    if d != [] { BelowMonotone(d[..|d|-1], c, c'); }
  }

  lemma {:induction false} BelowExtremes(d: seq<int>, lo: int, hi: int)
    requires forall i :: 0 <= i < |d| ==> lo <= d[i] < hi
    ensures Below(d, lo) == 0 && Below(d, hi) == |d|
  {
    if d != [] { BelowExtremes(d[..|d|-1], lo, hi); }
  }

  /** The place of position i in the stable counting sort of d: after every smaller digit
      and after the equal digits that come before it. */
  function Slot(d: seq<int>, i: nat): nat
    requires i < |d|
  {
    Below(d, d[i]) + Count(d[..i], d[i])
  }

  lemma SlotInBucket(d: seq<int>, i: nat)
    requires i < |d|
    ensures Below(d, d[i]) <= Slot(d, i) < Below(d, d[i] + 1) <= |d|
  {
    CountPrefix(d, i, d[i]);
    CountWithin(d, i + 1, d[i]);
    BelowNext(d, d[i]);
  }

  /** Two positions never compete for one slot; slots keep the order of equal digits. */
  lemma SlotOrder(d: seq<int>, i: nat, j: nat)
    requires i < |d| && j < |d| && i != j
    ensures Slot(d, i) < Slot(d, j) <==> d[i] < d[j] || (d[i] == d[j] && i < j)
    ensures Slot(d, i) != Slot(d, j)
  {
    SlotInBucket(d, i);
    SlotInBucket(d, j);
    if d[i] < d[j] {
      BelowMonotone(d, d[i] + 1, d[j]);
    } else if d[j] < d[i] {
      BelowMonotone(d, d[j] + 1, d[i]);
    } else if i < j {
      CountPrefix(d, i, d[i]);
      CountMonotone(d, i + 1, j, d[i]);
    } else {
      CountPrefix(d, j, d[i]);
      CountMonotone(d, j + 1, i, d[i]);
    }
  }
}
