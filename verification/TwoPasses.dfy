/** Partitioning by one digit and then by another: most significant first, block by block,
    or least significant first over the whole relation, comes to the partition by both. */
module TwoPasses {
  import opened Counting
  import opened StablePartition

  /** The two digits as one number; lo counts in base k. */
  function Both<T>(hi: T -> int, lo: T -> int, k: int): T -> int {
    x => hi(x) * k + lo(x)
  }

  lemma Scale(x: int, k: int)
    requires x >= 1 && k >= 0
    ensures x * k >= k
  {
  }

  lemma MixedRadix(a: int, b: int, c: int, d: int, k: int)
    requires 0 <= b < k && 0 <= d < k
    ensures a * k + b == c * k + d <==> a == c && b == d
  {
    assert c * k - a * k == (c - a) * k;
    if a < c { Scale(c - a, k); }
    if c < a { Scale(a - c, k); assert (a - c) * k == -((c - a) * k); }
  }

  lemma FilterOne<T>(x: T, f: T -> int, h: int)
    ensures Filter([x], f, h) == if f(x) == h then [x] else []
  {
    assert [x][..0] == [];
  }

  /** Filtering twice, one element at a time. */
  lemma FilterTwiceStep<T>(s: seq<T>, f: T -> int, g: T -> int, a: int, b: int)
    requires s != []
    ensures Filter(Filter(s, f, a), g, b) ==
            Filter(Filter(s[..|s|-1], f, a), g, b) + if f(s[|s|-1]) == a && g(s[|s|-1]) == b then [s[|s|-1]] else []
  {
    var x, p := s[|s|-1], Filter(s[..|s|-1], f, a);
    if f(x) == a {
      FilterAppend(p, [x], g, b);
      FilterOne(x, g, b);
    } else {
      assert p + [] == p;
    }
  }

  lemma {:induction false} FilterBoth<T>(s: seq<T>, hi: T -> int, lo: T -> int, k: nat, h: int, l: nat)
    requires DigitsBelow(s, lo, k) && l < k
    ensures Filter(Filter(s, hi, h), lo, l) == Filter(s, Both(hi, lo, k), h * k + l)
  {
    if s != [] {
      var n := |s| - 1;
      FilterBoth(s[..n], hi, lo, k, h, l);
      MixedRadix(hi(s[n]), lo(s[n]), h, l, k);
      FilterTwiceStep(s, hi, lo, h, l);
    }
  }

  lemma {:induction false} FilterCommutes<T>(s: seq<T>, f: T -> int, g: T -> int, a: int, b: int)
    ensures Filter(Filter(s, f, a), g, b) == Filter(Filter(s, g, b), f, a)
  {
    if s != [] {
      FilterCommutes(s[..|s|-1], f, g, a, b);
      FilterTwiceStep(s, f, g, a, b);
      FilterTwiceStep(s, g, f, b, a);
    }
  }

  /** The stretch of the two-digit partition that belongs to high digit h. */
  lemma {:induction false} Block<T>(s: seq<T>, hi: T -> int, lo: T -> int, k: nat, h: nat, m: nat)
    requires DigitsBelow(s, lo, k) && m <= k
    ensures Partition(s, Both(hi, lo, k), h * k + m) ==
            Partition(s, Both(hi, lo, k), h * k) + Partition(Filter(s, hi, h), lo, m)
    decreases m
  {
    var p := Partition(s, Both(hi, lo, k), h * k);
    if m == 0 {
      assert p + [] == p;
    } else {
      Block(s, hi, lo, k, h, m - 1);
      FilterBoth(s, hi, lo, k, h, m - 1);
      var q := Partition(Filter(s, hi, h), lo, m - 1);
      var last := Filter(Filter(s, hi, h), lo, m - 1);
      assert (p + q) + last == p + (q + last);
    }
  }

  /** Only the digits of the elements at hand matter, not how the digit function is written. */
  lemma {:induction false} FilterSame<T>(s: seq<T>, f: T -> int, g: T -> int, h: int)
    requires forall i :: 0 <= i < |s| ==> f(s[i]) == g(s[i])
    ensures Filter(s, f, h) == Filter(s, g, h)
  {
    if s != [] { FilterSame(s[..|s|-1], f, g, h); }
  }

  lemma {:induction false} PartitionSame<T>(s: seq<T>, f: T -> int, g: T -> int, k: nat)
    requires forall i :: 0 <= i < |s| ==> f(s[i]) == g(s[i])
    ensures Partition(s, f, k) == Partition(s, g, k)
  {
    if k > 0 {
      PartitionSame(s, f, g, k - 1);
      FilterSame(s, f, g, k - 1);
    }
  }

  /** Every high-digit block partitioned on its own by the low digit, end to end. */
  function Blocks<T>(s: seq<T>, hi: T -> int, lo: T -> int, k: nat, n: nat): seq<T> {
    if n == 0 then [] else Blocks(s, hi, lo, k, n - 1) + Partition(Filter(s, hi, n - 1), lo, k)
  }

  /** Most significant digit first. */
  lemma {:induction false} MsdIsPartition<T>(s: seq<T>, hi: T -> int, lo: T -> int, k: nat, n: nat)
    requires DigitsBelow(s, lo, k)
    ensures Blocks(s, hi, lo, k, n) == Partition(s, Both(hi, lo, k), n * k)
  {
    if n > 0 {
      MsdIsPartition(s, hi, lo, k, n - 1);
      Block(s, hi, lo, k, n - 1, k);
      assert (n - 1) * k + k == n * k;
    }
  }

  lemma FilterPartitionStep<T>(s: seq<T>, f: T -> int, k: nat, g: T -> int, h: int)
    ensures Filter(Partition(s, f, k + 1), g, h) == Filter(Partition(s, f, k), g, h) + Filter(Filter(s, f, k), g, h)
  {
    FilterAppend(Partition(s, f, k), Filter(s, f, k), g, h);
  }

  lemma FilterEmpty<T>(f: T -> int, h: int)
    ensures Filter([], f, h) == []
  {
  }

  lemma FilterOfPartitionStep<T>(s: seq<T>, hi: T -> int, lo: T -> int, k: nat, h: int, right: seq<T>)
    requires Filter(Partition(s, lo, k), hi, h) == Partition(right, lo, k)
    requires right == Filter(s, hi, h)
    ensures Filter(Partition(s, lo, k + 1), hi, h) == Partition(right, lo, k + 1)
  {
    FilterPartitionStep(s, lo, k, hi, h);
    FilterCommutes(s, lo, hi, k, h);
  }

  lemma {:induction false} FilterOfPartition<T>(s: seq<T>, hi: T -> int, lo: T -> int, k: nat, h: int)
    ensures Filter(Partition(s, lo, k), hi, h) == Partition(Filter(s, hi, h), lo, k)
  {
    if k == 0 {
      FilterEmpty(hi, h);
    } else {
      FilterOfPartition(s, hi, lo, k - 1, h);
      FilterOfPartitionStep(s, hi, lo, k - 1, h, Filter(s, hi, h));
    }
  }

  lemma LsdStep<T>(s: seq<T>, hi: T -> int, lo: T -> int, k: nat, n: nat, p: seq<T>, both: seq<T>)
    requires DigitsBelow(s, lo, k) && p == Partition(s, lo, k)
    requires both == Partition(s, Both(hi, lo, k), n * k) == Partition(p, hi, n)
    ensures Partition(p, hi, n + 1) == Partition(s, Both(hi, lo, k), (n + 1) * k)
  {
    FilterOfPartition(s, hi, lo, k, n);
    Block(s, hi, lo, k, n, k);
    assert n * k + k == (n + 1) * k;
  }

  /** Least significant digit first: stability makes the second pass keep the first. */
  lemma {:induction false} LsdIsPartition<T>(s: seq<T>, hi: T -> int, lo: T -> int, k: nat, n: nat)
    requires DigitsBelow(s, lo, k)
    ensures Partition(Partition(s, lo, k), hi, n) == Partition(s, Both(hi, lo, k), n * k)
  {
    if n > 0 {
      LsdIsPartition(s, hi, lo, k, n - 1);
      LsdStep(s, hi, lo, k, n - 1, Partition(s, lo, k), Partition(Partition(s, lo, k), hi, n - 1));
    }
  }

  // ----- what the partition is, independently of how it is put together -----

  ghost predicate SortedDigits(d: seq<int>) {
    forall i, j :: 0 <= i < j < |d| ==> d[i] <= d[j]
  }

  lemma {:induction false} BelowAllAtMost(d: seq<int>, c: int)
    requires forall i :: 0 <= i < |d| ==> d[i] < c
    ensures Below(d, c) == |d|
  {
    if d != [] { BelowAllAtMost(d[..|d|-1], c); }
  }

  lemma {:induction false} BelowAllAtLeast(d: seq<int>, c: int)
    requires forall i :: 0 <= i < |d| ==> d[i] >= c
    ensures Below(d, c) == 0
  {
    if d != [] { BelowAllAtLeast(d[..|d|-1], c); }
  }

  lemma SortedSlot(d: seq<int>, i: nat)
    requires SortedDigits(d) && i < |d|
    ensures Slot(d, i) == i
  {
    assert d == d[..i] + d[i..];
    CountAppend(d[..i], d[i..], d[i]);
    BelowAllAtLeast(d[i..], d[i]);
    BelowAllAtMost(d[..i], d[i] + 1);
    BelowNext(d[..i], d[i]);
  }

  lemma {:induction false} PartitionByFilters<T>(s: seq<T>, t: seq<T>, f: T -> int, k: nat)
    requires forall h :: 0 <= h < k ==> Filter(s, f, h) == Filter(t, f, h)
    ensures Partition(s, f, k) == Partition(t, f, k)
  {
    if k > 0 { PartitionByFilters(s, t, f, k - 1); }
  }

  ghost predicate SortedBy<T>(s: seq<T>, f: T -> int) {
    forall i, j :: 0 <= i < j < |s| ==> f(s[i]) <= f(s[j])
  }

  /** Sorted by digit, and every digit's elements in their original order: that is the
      stable partition and nothing else is. */
  lemma OnlyStableSort<T>(s: seq<T>, out: seq<T>, f: T -> int, k: nat)
    requires DigitsBelow(out, f, k) && SortedBy(out, f)
    requires forall h :: 0 <= h < k ==> Filter(out, f, h) == Filter(s, f, h)
    ensures out == Partition(s, f, k)
  {
    PartitionByFilters(out, s, f, k);
    forall i | 0 <= i < |out|
      ensures Places(Digits(out, f), 0, 0)[i] == i
    {
      PlaceIs(Digits(out, f), 0, 0, i);
      SortedSlot(Digits(out, f), i);
    }
    ScatterIsPartition(out, out, f, k);
  }

  lemma {:induction false} FilterDigits<T>(s: seq<T>, f: T -> int, h: int)
    ensures forall i :: 0 <= i < |Filter(s, f, h)| ==> f(Filter(s, f, h)[i]) == h
  {
    if s != [] { FilterDigits(s[..|s|-1], f, h); }
  }

  lemma {:induction false} PartitionIsSorted<T>(s: seq<T>, f: T -> int, k: nat)
    ensures DigitsBelow(Partition(s, f, k), f, k) && SortedBy(Partition(s, f, k), f)
  {
    if k > 0 {
      PartitionIsSorted(s, f, k - 1);
      FilterDigits(s, f, k - 1);
    }
  }

  lemma {:induction false} FilterIdempotent<T>(s: seq<T>, f: T -> int, g: int, h: int)
    ensures Filter(Filter(s, f, g), f, h) == if g == h then Filter(s, f, h) else []
  {
    if s != [] {
      FilterIdempotent(s[..|s|-1], f, g, h);
      FilterTwiceStep(s, f, f, g, h);
    }
  }

  lemma StableStep<T>(s: seq<T>, f: T -> int, k: nat, h: nat, p: seq<T>)
    requires p == Filter(Partition(s, f, k), f, h) == if h < k then Filter(s, f, h) else []
    ensures Filter(Partition(s, f, k + 1), f, h) == if h < k + 1 then Filter(s, f, h) else []
  {
    FilterPartitionStep(s, f, k, f, h);
    FilterIdempotent(s, f, k, h);
  }

  lemma PartitionNone<T>(s: seq<T>, f: T -> int)
    ensures Partition(s, f, 0) == []
  {
  }

  lemma {:induction false} PartitionIsStable<T>(s: seq<T>, f: T -> int, k: nat, h: nat)
    ensures Filter(Partition(s, f, k), f, h) == if h < k then Filter(s, f, h) else []
  {
    hide Filter, Partition;
    if k == 0 {
      PartitionNone(s, f);
      FilterEmpty(f, h);
    } else {
      PartitionIsStable(s, f, k - 1, h);
      StableStep(s, f, k - 1, h, Filter(Partition(s, f, k - 1), f, h));
    }
  }

  lemma {:induction false} FilterNone<T>(s: seq<T>, f: T -> int, h: int)
    ensures Filter(s, f, h) == [] <==> forall i :: 0 <= i < |s| ==> f(s[i]) != h
  {
    if s != [] {
      var n := |s| - 1;
      FilterNone(s[..n], f, h);
      assert forall i :: 0 <= i < n ==> s[..n][i] == s[i];
    }
  }

  /** out has the elements of s sorted by f, and those with equal digits in the order they had
      in s. */
  ghost predicate StableSort<T>(s: seq<T>, out: seq<T>, f: T -> int) {
    SortedBy(out, f) && forall h :: Filter(out, f, h) == Filter(s, f, h)
  }

  lemma SameDigits<T>(s: seq<T>, out: seq<T>, f: T -> int, k: nat)
    requires DigitsBelow(s, f, k) && forall h :: Filter(out, f, h) == Filter(s, f, h)
    ensures DigitsBelow(out, f, k)
  {
    hide Filter;
    forall i | 0 <= i < |out| ensures 0 <= f(out[i]) < k {
      FilterNone(out, f, f(out[i]));
      FilterNone(s, f, f(out[i]));
    }
  }

  lemma FilterKept<T>(s: seq<T>, f: T -> int, k: nat, h: int)
    requires DigitsBelow(s, f, k)
    ensures Filter(Partition(s, f, k), f, h) == Filter(s, f, h)
  {
    hide Filter, Partition;
    if 0 <= h < k {
      PartitionIsStable(s, f, k, h);
    } else {
      PartitionIsSorted(s, f, k);
      FilterNone(s, f, h);
      FilterNone(Partition(s, f, k), f, h);
    }
  }

  /** The partition is the stable sort by digit, and nothing else is. */
  lemma StableSortIsPartition<T>(s: seq<T>, out: seq<T>, f: T -> int, k: nat)
    requires DigitsBelow(s, f, k)
    ensures out == Partition(s, f, k) <==> StableSort(s, out, f)
  {
    hide Filter, Partition;
    if out == Partition(s, f, k) {
      PartitionIsSorted(s, f, k);
      forall h ensures Filter(out, f, h) == Filter(s, f, h) { FilterKept(s, f, k, h); }
    }
    if StableSort(s, out, f) {
      SameDigits(s, out, f, k);
      OnlyStableSort(s, out, f, k);
    }
  }
}
