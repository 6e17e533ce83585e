/** The stable partition of a sequence by a digit function: the reference every partitioner
    of the join engines is proved against. */
module StablePartition {
  import opened Counting
  import opened Rearrangement

  /** The elements of digit h, in their original order. */
  function Filter<T>(s: seq<T>, f: T -> int, h: int): seq<T> {
    if s == [] then []
    else Filter(s[..|s|-1], f, h) + if f(s[|s|-1]) == h then [s[|s|-1]] else []
  }

  /** Digits 0, 1, .., k-1 one after the other, each in its original order. */
  function Partition<T>(s: seq<T>, f: T -> int, k: nat): seq<T> {
    if k == 0 then [] else Partition(s, f, k - 1) + Filter(s, f, k - 1)
  }

  ghost predicate DigitsBelow<T>(s: seq<T>, f: T -> int, k: nat) {
    forall i :: 0 <= i < |s| ==> 0 <= f(s[i]) < k
  }

  function Digits<T>(s: seq<T>, f: T -> int): (d: seq<int>)
    ensures |d| == |s| && forall i :: 0 <= i < |s| ==> d[i] == f(s[i])
  {
    if s == [] then [] else Digits(s[..|s|-1], f) + [f(s[|s|-1])]
  }

  lemma DigitsPrefix<T>(s: seq<T>, f: T -> int, i: nat)
    requires i <= |s|
    ensures Digits(s[..i], f) == Digits(s, f)[..i]
  {
  }

  lemma {:induction false} FilterLength<T>(s: seq<T>, f: T -> int, h: int)
    ensures |Filter(s, f, h)| == Count(Digits(s, f), h)
  {
    if s != [] {
      FilterLength(s[..|s|-1], f, h);
      DigitsPrefix(s, f, |s| - 1);
    }
  }

  lemma {:induction false} FilterAppend<T>(s: seq<T>, t: seq<T>, f: T -> int, h: int)
    ensures Filter(s + t, f, h) == Filter(s, f, h) + Filter(t, f, h)
  {
    if t == [] {
      assert s + t == s;
    } else {
      var n := |t| - 1;
      FilterAppend(s, t[..n], f, h);
      assert (s + t)[..|s + t| - 1] == s + t[..n];
    }
  }

  /** Where position i of s sits among the elements of its digit. */
  lemma FilterAt<T>(s: seq<T>, f: T -> int, i: nat)
    requires i < |s|
    ensures var r := Count(Digits(s, f)[..i], f(s[i]));
            r < |Filter(s, f, f(s[i]))| && Filter(s, f, f(s[i]))[r] == s[i]
  {
    var h := f(s[i]);
    assert s == s[..i] + [s[i]] + s[i+1..];
    FilterAppend(s[..i] + [s[i]], s[i+1..], f, h);
    FilterAppend(s[..i], [s[i]], f, h);
    assert Filter([s[i]], f, h) == [s[i]];
    FilterLength(s[..i], f, h);
    DigitsPrefix(s, f, i);
  }

  ghost predicate Nonnegative(d: seq<int>) {
    forall i :: 0 <= i < |d| ==> 0 <= d[i]
  }

  lemma {:induction false} BelowNone(d: seq<int>)
    requires Nonnegative(d)
    ensures Below(d, 0) == 0
  {
    if d != [] { BelowNone(d[..|d|-1]); }
  }

  /** d counts the elements of every digit of s. */
  ghost predicate CountedBy<T>(s: seq<T>, f: T -> int, d: seq<int>) {
    Nonnegative(d) && forall h :: |Filter(s, f, h)| == Count(d, h)
  }

  lemma DigitsCount<T>(s: seq<T>, f: T -> int)
    requires Nonnegative(Digits(s, f))
    ensures CountedBy(s, f, Digits(s, f))
  {
    forall h ensures |Filter(s, f, h)| == Count(Digits(s, f), h) { FilterLength(s, f, h); }
  }

  lemma {:induction false} PartitionLength<T>(s: seq<T>, f: T -> int, k: nat, d: seq<int>)
    requires CountedBy(s, f, d)
    ensures |Partition(s, f, k)| == Below(d, k)
  {
    if k == 0 {
      BelowNone(d);
    } else {
      PartitionLength(s, f, k - 1, d);
      BelowNext(d, k - 1);
    }
  }

  lemma {:induction false} PartitionPrefix<T>(s: seq<T>, f: T -> int, h: nat, k: nat)
    requires h <= k
    ensures Partition(s, f, h) <= Partition(s, f, k)
    decreases k
  {
    if h < k { PartitionPrefix(s, f, h, k - 1); }
  }

  /** The elements of digit h sit in one piece behind those of the smaller digits. */
  lemma PartitionCluster<T>(s: seq<T>, f: T -> int, k: nat, h: nat, d: seq<int>)
    requires h < k && CountedBy(s, f, d)
    ensures var start := Below(d, h); var end := start + |Filter(s, f, h)|;
            end == Below(d, h + 1) <= |Partition(s, f, k)| && Partition(s, f, k)[start..end] == Filter(s, f, h)
  {
    PartitionLength(s, f, h, d);
    BelowNext(d, h);
    PartitionPrefix(s, f, h + 1, k);
    var p, q := Partition(s, f, h + 1), Partition(s, f, k);
    assert p == Partition(s, f, h) + Filter(s, f, h);
    assert q[..|p|] == p;
  }

  lemma PartitionAt<T>(s: seq<T>, f: T -> int, k: nat, i: nat)
    requires DigitsBelow(s, f, k) && i < |s|
    ensures Slot(Digits(s, f), i) < |Partition(s, f, k)| && Partition(s, f, k)[Slot(Digits(s, f), i)] == s[i]
  {
    var h, start, r := f(s[i]), Below(Digits(s, f), f(s[i])), Count(Digits(s, f)[..i], f(s[i]));
    DigitsCount(s, f);
    PartitionCluster(s, f, k, h, Digits(s, f));
    FilterAt(s, f, i);
    InSlice(Partition(s, f, k), Filter(s, f, h), start, r);
  }

  lemma InSlice<T>(p: seq<T>, q: seq<T>, start: nat, r: nat)
    requires start + |q| <= |p| && p[start..start + |q|] == q && r < |q|
    ensures p[start + r] == q[r]
  {
  }

  /** Every place is some position's slot. */
  lemma SlotHit(d: seq<int>, q: nat) returns (i: nat)
    requires q < |d|
    ensures i < |d| && Slot(d, i) == q
  {
    var slots := seq(|d|, i requires 0 <= i < |d| => Slot(d, i));
    forall j | 0 <= j < |d| ensures 0 <= slots[j] < |d| { SlotInBucket(d, j); }
    forall j, k | 0 <= j < k < |d| ensures slots[j] != slots[k] { SlotOrder(d, j, k); }
    i := PermutationHits(slots, |d|, q);
  }

  /** Slot of position i when the output starts at base and every cluster is followed by a
      gap of pad places. */
  function Place(d: seq<int>, i: nat, base: int, pad: int): int
    requires i < |d|
  {
    base + Slot(d, i) + d[i] * pad
  }

  /** Places are distinct and lie between base and the end of the last gap. */
  lemma PlaceDistinct(d: seq<int>, i: nat, j: nat, base: int, pad: nat)
    requires i < |d| && j < |d| && i != j
    ensures Place(d, i, base, pad) != Place(d, j, base, pad)
  {
    SlotOrder(d, i, j);
    if d[i] < d[j] { assert d[i] * pad <= d[j] * pad; }
    if d[j] < d[i] { assert d[j] * pad <= d[i] * pad; }
  }

  lemma PlaceInside(d: seq<int>, i: nat, base: int, pad: nat, k: nat)
    requires i < |d| && 0 <= d[i] < k
    ensures base <= Place(d, i, base, pad) < base + |d| + k * pad
  {
    SlotInBucket(d, i);
    assert 0 <= d[i] * pad <= k * pad;
  }

  /** The places of the first n positions. */
  ghost function PlacesUpTo(d: seq<int>, base: int, pad: int, n: nat): (pl: seq<int>)
    requires n <= |d|
    ensures |pl| == n
  {
    if n == 0 then [] else PlacesUpTo(d, base, pad, n - 1) + [Place(d, n - 1, base, pad)]
  }

  ghost function Places(d: seq<int>, base: int, pad: int): (pl: seq<int>)
    ensures |pl| == |d|
  {
    PlacesUpTo(d, base, pad, |d|)
  }

  lemma {:induction false} PlaceUpToIs(d: seq<int>, base: int, pad: int, n: nat, i: nat)
    requires i < n <= |d|
    ensures PlacesUpTo(d, base, pad, n)[i] == Place(d, i, base, pad)
  {
    if i < n - 1 { PlaceUpToIs(d, base, pad, n - 1, i); }
  }

  lemma PlaceIs(d: seq<int>, base: int, pad: int, i: nat)
    requires i < |d|
    ensures Places(d, base, pad)[i] == Place(d, i, base, pad)
  {
    PlaceUpToIs(d, base, pad, |d|, i);
  }

  /** Target positions for a scatter: pairwise distinct, all between lo and hi. */
  ghost predicate Targets(pl: seq<int>, lo: int, hi: int) {
    (forall i :: 0 <= i < |pl| ==> lo <= pl[i] < hi) && forall i, j :: 0 <= i < j < |pl| ==> pl[i] != pl[j]
  }

  lemma PlacesAreTargets(d: seq<int>, base: int, pad: nat, k: nat)
    requires forall i :: 0 <= i < |d| ==> 0 <= d[i] < k
    ensures Targets(Places(d, base, pad), base, base + |d| + k * pad)
  {
    var pl := Places(d, base, pad);
    forall i | 0 <= i < |d| ensures base <= pl[i] < base + |d| + k * pad {
      PlaceIs(d, base, pad, i);
      PlaceInside(d, i, base, pad, k);
    }
    forall i, j | 0 <= i < j < |d| ensures pl[i] != pl[j] {
      PlaceIs(d, base, pad, i);
      PlaceIs(d, base, pad, j);
      PlaceDistinct(d, i, j, base, pad);
    }
  }

  /** A scatter of s to the targets pl, begun with contents out0, after its first n writes:
      the written places hold their elements, nothing outside lo..hi has changed. */
  ghost predicate ScatteredUpTo<T>(s: seq<T>, pl: seq<int>, out0: seq<T>, out: seq<T>, lo: int, hi: int, n: nat) {
    && |pl| == |s| && n <= |s| && |out| == |out0| && 0 <= lo <= hi <= |out|
    && (forall i :: 0 <= i < n ==> 0 <= pl[i] < |out| && out[pl[i]] == s[i])
    && (forall q :: 0 <= q < lo || hi <= q < |out| ==> out[q] == out0[q])
  }

  lemma ScatterStep<T>(s: seq<T>, pl: seq<int>, out0: seq<T>, out: seq<T>, lo: int, hi: int, n: nat)
    requires ScatteredUpTo(s, pl, out0, out, lo, hi, n) && Targets(pl, lo, hi) && n < |s|
    ensures ScatteredUpTo(s, pl, out0, out[pl[n] := s[n]], lo, hi, n + 1)
  {
  }

  /** Write cursors before position i: each starts where its cluster starts and has advanced
      past the equal digits seen so far. */
  ghost predicate Cursors(dst: seq<int>, start: seq<int>, d: seq<int>, i: nat) {
    i <= |d| && |dst| == |start| && forall c :: 0 <= c < |dst| ==> dst[c] == start[c] + Count(d[..i], c)
  }

  ghost predicate Starts(start: seq<int>, d: seq<int>, base: int, pad: int) {
    forall c :: 0 <= c < |start| ==> start[c] == base + Below(d, c) + c * pad
  }

  lemma CursorsBegin(start: seq<int>, d: seq<int>)
    ensures Cursors(start, start, d, 0)
  {
    assert d[..0] == [];
  }

  lemma CursorIsPlace(dst: seq<int>, start: seq<int>, d: seq<int>, base: int, pad: int, i: nat)
    requires Cursors(dst, start, d, i) && Starts(start, d, base, pad) && i < |d| && 0 <= d[i] < |dst|
    ensures dst[d[i]] == Places(d, base, pad)[i]
  {
    PlaceIs(d, base, pad, i);
  }

  lemma CursorStep(dst: seq<int>, start: seq<int>, d: seq<int>, i: nat)
    requires Cursors(dst, start, d, i) && i < |d| && 0 <= d[i] < |dst|
    ensures Cursors(dst[d[i] := dst[d[i]] + 1], start, d, i + 1)
  {
    forall c | 0 <= c < |dst| ensures dst[d[i] := dst[d[i]] + 1][c] == start[c] + Count(d[..i+1], c) {
      CountPrefix(d, i, c);
    }
  }

  /** Every element of s stands in out where pl says. */
  ghost predicate StandAt<T>(s: seq<T>, out: seq<T>, pl: seq<int>) {
    |pl| == |s| && forall i :: 0 <= i < |s| ==> 0 <= pl[i] < |out| && out[pl[i]] == s[i]
  }

  /** Every element of s stands at its place in out. */
  ghost predicate Placed<T>(s: seq<T>, out: seq<T>, f: T -> int, base: int, pad: int) {
    StandAt(s, out, Places(Digits(s, f), base, pad))
  }

  lemma ScatterDone<T>(s: seq<T>, f: T -> int, d: seq<int>, out0: seq<T>, out: seq<T>, base: int, pad: int, lo: int,
                       hi: int)
    requires d == Digits(s, f) && ScatteredUpTo(s, Places(d, base, pad), out0, out, lo, hi, |s|)
    ensures Placed(s, out, f, base, pad)
    ensures forall q :: 0 <= q < lo || hi <= q < |out| ==> out[q] == out0[q]
  {
    hide Places, Digits;
  }

  /** Writing every element to its slot produces the partition. */
  lemma ScatterIsPartition<T>(s: seq<T>, out: seq<T>, f: T -> int, k: nat)
    requires DigitsBelow(s, f, k) && |out| == |s|
    requires Placed(s, out, f, 0, 0)
    ensures out == Partition(s, f, k)
  {
    var d := Digits(s, f);
    DigitsCount(s, f);
    PartitionLength(s, f, k, d);
    BelowExtremes(d, 0, k);
    forall q | 0 <= q < |s| ensures out[q] == Partition(s, f, k)[q] {
      var i := SlotHit(d, q);
      PlaceIs(d, 0, 0, i);
      PartitionAt(s, f, k, i);
    }
  }

  /** The position of the r-th element of digit h. */
  lemma NthOfDigit<T>(s: seq<T>, f: T -> int, h: nat, r: nat) returns (i: nat)
    requires Nonnegative(Digits(s, f)) && r < |Filter(s, f, h)|
    ensures i < |s| && f(s[i]) == h && Slot(Digits(s, f), i) == Below(Digits(s, f), h) + r && s[i] == Filter(s, f, h)[r]
  {
    var d := Digits(s, f);
    DigitsCount(s, f);
    PartitionCluster(s, f, h + 1, h, d);
    BelowMax(d, h + 1);
    i := SlotHit(d, Below(d, h) + r);
    DigitAtSlot(d, i, h);
    FilterAt(s, f, i);
  }

  lemma PlacedAt<T>(s: seq<T>, out: seq<T>, f: T -> int, base: int, pad: int, h: nat, r: nat)
    requires Nonnegative(Digits(s, f)) && Placed(s, out, f, base, pad) && r < |Filter(s, f, h)|
    ensures var q := base + Below(Digits(s, f), h) + h * pad + r;
            0 <= q < |out| && out[q] == Filter(s, f, h)[r]
  {
    hide Places, Digits, Below, Filter;
    var i := NthOfDigit(s, f, h, r);
    PlaceOf(Digits(s, f), base, pad, i, h, r);
  }

  lemma PlaceOf(d: seq<int>, base: int, pad: int, i: nat, h: int, r: int)
    requires i < |d| && d[i] == h && Slot(d, i) == Below(d, h) + r
    ensures Places(d, base, pad)[i] == base + Below(d, h) + h * pad + r
  {
    PlaceIs(d, base, pad, i);
  }

  lemma BelowMax(d: seq<int>, h: int)
    ensures Below(d, h) <= |d|
  {
  }

  /** Cluster h lies in one piece. */
  lemma PlacedCluster<T>(s: seq<T>, out: seq<T>, f: T -> int, base: int, pad: int, h: nat)
    requires Nonnegative(Digits(s, f)) && Placed(s, out, f, base, pad)
    requires 0 <= base + Below(Digits(s, f), h) + h * pad <= |out|
    ensures var start := base + Below(Digits(s, f), h) + h * pad;
            start + |Filter(s, f, h)| <= |out| && out[start..start + |Filter(s, f, h)|] == Filter(s, f, h)
  {
    var start := base + Below(Digits(s, f), h) + h * pad;
    var n := |Filter(s, f, h)|;
    if n > 0 { PlacedAt(s, out, f, base, pad, h, n - 1); }
    forall r | 0 <= r < n ensures out[start + r] == Filter(s, f, h)[r] {
      PlacedAt(s, out, f, base, pad, h, r);
    }
  }

  lemma DigitAtSlot(d: seq<int>, i: nat, h: int)
    requires i < |d| && Below(d, h) <= Slot(d, i) < Below(d, h + 1)
    ensures d[i] == h
  {
    SlotInBucket(d, i);
    if d[i] < h { BelowMonotone(d, d[i] + 1, h); }
    if d[i] > h { BelowMonotone(d, h + 1, d[i]); }
  }
}
