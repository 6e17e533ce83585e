/** histogram_join of parallel_radix_join.c: reorders R by a histogram whose entries are kept
    two places further up, so that after the reordering hist[h] and hist[h+1] delimit the
    tuples of hash h. */
module HistogramJoin {
  import opened BucketChaining
  import opened Counting
  import opened JoinSpec
  import opened KeyBits
  import opened StablePartition

  /** get_hist_size: a quarter of the next power of two, but at least four buckets; the
      unsigned wrap-around makes the next power of two of zero come out as zero. */
  function HistLog(n: nat): (m: nat)
    ensures m >= 2
  {
    if n == 0 || Log2Ceil(n) <= 4 then 2 else Log2Ceil(n) - 2
  }

  /** The bits of the key that are left of the mask (Nhist-1) << bits in a 32-bit word. */
  function HistBits(n: nat, bits: nat): (D: nat)
    requires bits <= 32
    ensures Pow2(D) <= Pow2(HistLog(n))
  {
    if HistLog(n) <= 32 - bits then HistLog(n) else (Pow2Grows(32 - bits, HistLog(n)); 32 - bits)
  }

  /** Count hash c at entry c + 2. */
  method ShiftedCounts(R: Relation, bits: nat, D: nat, N: nat) returns (hist: array<int>)
    requires Pow2(D) <= N
    ensures fresh(hist) && hist.Length == N + 2 && hist[0] == hist[1] == 0
    ensures forall j :: 2 <= j < N + 2 ==> hist[j] == Count(Digits(R, ByKey(Bits(bits, D))), j - 2)
  {
    hide Digits;
    ghost var d := Digits(R, ByKey(Bits(bits, D)));
    hist := new int[N + 2](i => 0);
    var i := 0;
    while i < |R|
      invariant 0 <= i <= |R| && hist[0] == hist[1] == 0
      invariant forall j :: 2 <= j < N + 2 ==> hist[j] == Count(d[..i], j - 2)
    {
      var idx := Bits(bits, D)(R[i].key);
      assert idx == d[i];
      forall c ensures Count(d[..i+1], c) == Count(d[..i], c) + if d[i] == c then 1 else 0 { CountPrefix(d, i, c); }
      hist[idx + 2] := hist[idx + 2] + 1;
      i := i + 1;
    }
    assert d[..i] == d;
  }

  /** Running sums from entry 2 on: entry c + 1 becomes the start of hash c. */
  method ShiftedSums(hist: array<int>, N: nat, ghost d: seq<int>)
    requires hist.Length == N + 2 && hist[0] == hist[1] == 0 && Nonnegative(d)
    requires forall j :: 2 <= j < N + 2 ==> hist[j] == Count(d, j - 2)
    modifies hist
    ensures hist[0] == 0 && forall j :: 1 <= j < N + 2 ==> hist[j] == Below(d, j - 1)
  {
    BelowNone(d);
    var i, sum := 2, 0;
    while i <= N + 1
      invariant 2 <= i <= N + 2 && sum == Below(d, i - 2) && hist[0] == 0
      invariant forall j :: 1 <= j < i ==> hist[j] == Below(d, j - 1)
      invariant forall j :: i <= j < N + 2 ==> hist[j] == Count(d, j - 2)
    {
      BelowNext(d, i - 2);
      sum := sum + hist[i];
      hist[i] := sum;
      i := i + 1;
    }
  }

  /** The write cursors inside the histogram, as positions of tmp: the cursor of hash c is entry
      c + 1. */
  ghost function Shifted(hist: seq<int>, N: nat, base: int): (r: seq<int>)
    requires |hist| == N + 2
    ensures |r| == N && forall c :: 0 <= c < N ==> r[c] == base + hist[c + 1]
  {
    seq(N, c requires 0 <= c < N => base + hist[c + 1])
  }

  ghost predicate CursorsAt(hist: seq<int>, N: nat, base: int, start: seq<int>, d: seq<int>, i: nat) {
    |hist| == N + 2 && Cursors(Shifted(hist, N, base), start, d, i)
  }

  function HistSize(n: nat): nat {
    Pow2(HistLog(n))
  }

  function Hash(n: nat, bits: nat): Tuple -> int
    requires bits <= 32
  {
    ByKey(Bits(bits, HistBits(n, bits)))
  }

  ghost function HashDigits(R: Relation, bits: nat): (d: seq<int>)
    requires bits <= 32
    ensures |d| == |R|
  {
    Digits(R, Hash(|R|, bits))
  }

  ghost function HashPlaces(R: Relation, bits: nat, base: int): (pl: seq<int>)
    requires bits <= 32
    ensures |pl| == |R|
  {
    Places(HashDigits(R, bits), base, 0)
  }

  ghost function HashStarts(R: Relation, bits: nat, base: int): (start: seq<int>)
    requires bits <= 32
    ensures |start| == HistSize(|R|) &&
            forall c :: 0 <= c < |start| ==> start[c] == base + Below(HashDigits(R, bits), c)
  {
    seq(HistSize(|R|), c requires 0 <= c < HistSize(|R|) => base + Below(HashDigits(R, bits), c))
  }

  /** The histogram after the running sums: hash c starts at entry c + 1. */
  ghost predicate Summed(hist: seq<int>, R: Relation, bits: nat)
    requires bits <= 32
  {
    && |hist| == HistSize(|R|) + 2 && hist[0] == 0
    && forall j :: 1 <= j < |hist| ==> hist[j] == Below(HashDigits(R, bits), j - 1)
  }

  /** The reordering of R into tmp from base on, after its first i tuples. */
  ghost predicate Reordered(R: Relation, bits: nat, base: int, tmp: Relation, hist: seq<int>, i: nat)
    requires bits <= 32
  {
    && ScatteredUpTo(R, HashPlaces(R, bits, base), tmp, tmp, base, base + |R|, i)
    && CursorsAt(hist, HistSize(|R|), base, HashStarts(R, bits, base), HashDigits(R, bits), i) && hist[0] == 0
  }

  /** R has been reordered, and entries h and h + 1 delimit hash h. */
  ghost predicate Delimited(R: Relation, bits: nat, base: int, tmp: Relation, hist: seq<int>)
    requires bits <= 32
  {
    && 0 <= base && base + |R| <= |tmp| && |hist| == HistSize(|R|) + 2
    && StandAt(R, tmp, HashPlaces(R, bits, base))
    && forall h :: 0 <= h <= HistSize(|R|) ==> hist[h] == Below(HashDigits(R, bits), h)
  }

  lemma HashInRange(R: Relation, bits: nat, base: int)
    requires bits <= 32
    ensures Targets(HashPlaces(R, bits, base), base, base + |R|) && Nonnegative(HashDigits(R, bits))
    ensures forall i :: 0 <= i < |R| ==> 0 <= HashDigits(R, bits)[i] < HistSize(|R|)
  {
    hide Places, Below;
    forall i | 0 <= i < |R|
      ensures 0 <= HashDigits(R, bits)[i] < HistSize(|R|)
    {
      BitsRange(bits, HistBits(|R|, bits), R[i].key);
    }
    PlacesAreTargets(HashDigits(R, bits), base, 0, HistSize(|R|));
  }

  lemma ReorderBegin(R: Relation, bits: nat, base: int, tmp: Relation, hist: seq<int>)
    requires bits <= 32 && 0 <= base && base + |R| <= |tmp| && Summed(hist, R, bits)
    ensures Reordered(R, bits, base, tmp, hist, 0)
  {
    hide Below, HashPlaces, HashDigits;
    var start := HashStarts(R, bits, base);
    assert Shifted(hist, HistSize(|R|), base) == start;
    CursorsBegin(start, HashDigits(R, bits));
  }

  lemma ShiftedStep(hist: seq<int>, N: nat, base: int, idx: int)
    requires |hist| == N + 2 && 1 <= idx <= N
    ensures Shifted(hist[idx := hist[idx] + 1], N, base) ==
            Shifted(hist, N, base)[idx - 1 := Shifted(hist, N, base)[idx - 1] + 1]
  {
  }

  /** One tuple goes to where the cursor of its hash stands. */
  lemma ReorderStep(R: Relation, bits: nat, base: int, tmp: Relation, hist: seq<int>, i: nat, idx: int)
    requires bits <= 32 && Reordered(R, bits, base, tmp, hist, i) && i < |R| && idx == Hash(|R|, bits)(R[i]) + 1
    ensures 0 <= idx < |hist| && base <= base + hist[idx] < base + |R|
    ensures Reordered(R, bits, base, tmp[base + hist[idx] := R[i]], hist[idx := hist[idx] + 1], i + 1)
  {
    hide Places, Below, Count, HistSize, Cursors, Starts, Targets;
    HashInRange(R, bits, base);
    var N, d, pl, start := HistSize(|R|), HashDigits(R, bits), HashPlaces(R, bits, base), HashStarts(R, bits, base);
    var dst := Shifted(hist, N, base);
    CursorHere(R, bits, base, dst, i);
    CursorStep(dst, start, d, i);
    ScatterStep(R, pl, tmp, tmp, base, base + |R|, i);
    ShiftedStep(hist, N, base, idx);
  }

  lemma CursorHere(R: Relation, bits: nat, base: int, dst: seq<int>, i: nat)
    requires bits <= 32 && i < |R| && Cursors(dst, HashStarts(R, bits, base), HashDigits(R, bits), i)
    ensures |dst| == HistSize(|R|) && 0 <= HashDigits(R, bits)[i] < |dst|
    ensures dst[HashDigits(R, bits)[i]] == HashPlaces(R, bits, base)[i] &&
            base <= HashPlaces(R, bits, base)[i] < base + |R|
  {
    hide Places, Below, Count, HistSize;
    HashInRange(R, bits, base);
    CursorIsPlace(dst, HashStarts(R, bits, base), HashDigits(R, bits), base, 0, i);
  }

  lemma ReorderDone(R: Relation, bits: nat, base: int, tmp: Relation, hist: seq<int>)
    requires bits <= 32 && Reordered(R, bits, base, tmp, hist, |R|)
    ensures Delimited(R, bits, base, tmp, hist)
  {
    hide Places, Below, Digits, HistSize;
    HashInRange(R, bits, base);
    DelimitersReady(hist, HistSize(|R|), base, HashStarts(R, bits, base), HashDigits(R, bits));
  }

  /** Writes outside the stretch of tmp do no harm. */
  lemma ReorderStays(R: Relation, bits: nat, base: int, tmp: Relation, tmp': Relation, hist: seq<int>, i: nat)
    requires bits <= 32 && |tmp'| == |tmp| && forall q :: base <= q < base + |R| && 0 <= q < |tmp| ==> tmp'[q] == tmp[q]
    ensures Reordered(R, bits, base, tmp, hist, i) ==> Reordered(R, bits, base, tmp', hist, i)
    ensures Delimited(R, bits, base, tmp, hist) ==> Delimited(R, bits, base, tmp', hist)
  {
    hide HashPlaces, HashDigits, HistSize, CursorsAt;
    HashInRange(R, bits, base);
  }

  /** The histogram, and the running sums over it. */
  method CountAndSum(R: Relation, bits: nat) returns (hist: array<int>)
    requires bits <= 32
    ensures fresh(hist) && Summed(hist[..], R, bits)
  {
    hide Below, Digits, Count;
    var N, D := HistSize(|R|), HistBits(|R|, bits);
    HashInRange(R, bits, 0);
    hist := ShiftedCounts(R, bits, D, N);
    ShiftedSums(hist, N, HashDigits(R, bits));
  }

  /** Reorder R into tmp; afterwards entries h and h + 1 delimit hash h. */
  method Reorder(R: Relation, bits: nat, tmp: array<Tuple>, base: nat, hist: array<int>)
    requires bits <= 32 && base + |R| <= tmp.Length && Summed(hist[..], R, bits)
    modifies tmp, hist
    ensures Delimited(R, bits, base, tmp[..], hist[..])
    ensures forall q :: 0 <= q < base || base + |R| <= q < tmp.Length ==> tmp[q] == old(tmp[q])
  {
    hide Reordered, Summed, Delimited, HistBits;
    ReorderBegin(R, bits, base, tmp[..], hist[..]);
    var i := 0;
    while i < |R|
      invariant 0 <= i <= |R| && Reordered(R, bits, base, tmp[..], hist[..], i)
      invariant forall q :: 0 <= q < base || base + |R| <= q < tmp.Length ==> tmp[q] == old(tmp[q])
    {
      var idx := Hash(|R|, bits)(R[i]) + 1;
      ReorderStep(R, bits, base, tmp[..], hist[..], i, idx);
      tmp[base + hist[idx]] := R[i];
      hist[idx] := hist[idx] + 1;
      i := i + 1;
    }
    ReorderDone(R, bits, base, tmp[..], hist[..]);
  }

  lemma DelimitersReady(hist: seq<int>, N: nat, base: int, start: seq<int>, d: seq<int>)
    requires CursorsAt(hist, N, base, start, d, |d|) && hist[0] == 0 && Nonnegative(d)
    requires forall c :: 0 <= c < N ==> start[c] == base + Below(d, c)
    ensures forall h :: 0 <= h <= N ==> hist[h] == Below(d, h)
  {
    hide Below, Count;
    assert d[..|d|] == d;
    BelowNone(d);
    forall h | 0 <= h <= N ensures hist[h] == Below(d, h) {
      if h > 0 { DelimiterReady(hist, N, base, start, d, h - 1); }
    }
  }

  lemma DelimiterReady(hist: seq<int>, N: nat, base: int, start: seq<int>, d: seq<int>, c: nat)
    requires CursorsAt(hist, N, base, start, d, |d|) && d[..|d|] == d && c < N && start[c] == base + Below(d, c)
    ensures hist[c + 1] == Below(d, c + 1)
  {
    hide Below, Count;
    BelowNext(d, c);
    assert Shifted(hist, N, base)[c] == base + hist[c + 1];
  }

  /** Count the tuples with the key in one cluster. */
  method ScanCluster(tmp: array<Tuple>, lo: nat, hi: nat, key: int) returns (match_: nat)
    requires lo <= hi <= tmp.Length
    ensures match_ == KeyCount(tmp[lo..hi], key)
  {
    var j := lo;
    match_ := 0;
    assert tmp[lo..lo] == [];
    while j < hi
      invariant lo <= j <= hi && match_ == KeyCount(tmp[lo..j], key)
    {
      KeyCountSnoc(tmp[lo..j], tmp[j], key);
      assert tmp[lo..j+1] == tmp[lo..j] + [tmp[j]];
      if key == tmp[j].key { match_ := match_ + 1; }
      j := j + 1;
    }
  }

  /** Where the tuples with the hash of a key stand. */
  lemma StretchOf(R: Relation, bits: nat, base: int, tmp: Relation, hist: seq<int>, key: int, idx: int)
    requires bits <= 32 && Delimited(R, bits, base, tmp, hist) && idx == Bits(bits, HistBits(|R|, bits))(key)
    ensures 0 <= idx < idx + 1 < |hist| && 0 <= base + hist[idx] <= base + hist[idx + 1] <= |tmp|
    ensures KeyCount(tmp[base + hist[idx]..base + hist[idx + 1]], key) == KeyCount(R, key)
  {
    hide Places, Below, Digits, KeyCount, Filter;
    HashInRange(R, bits, base);
    BitsRange(bits, HistBits(|R|, bits), key);
    ClusterAt(R, tmp, Hash(|R|, bits), HashDigits(R, bits), base, hist, HistSize(|R|), idx);
    KeyCountFilter(R, Bits(bits, HistBits(|R|, bits)), key);
  }

  /** Counts every pair of tuples with equal keys. */
  method Join(R: Relation, S: Relation, tmp: array<Tuple>, base: nat, bits: nat) returns (match_: nat)
    requires base + |R| <= tmp.Length && bits <= 32
    modifies tmp
    ensures match_ == Matches(R, S)
    ensures forall q :: 0 <= q < base || base + |R| <= q < tmp.Length ==> tmp[q] == old(tmp[q])
  {
    hide Delimited, Summed, Matches, HistBits;
    var hist := CountAndSum(R, bits);
    Reorder(R, bits, tmp, base, hist);
    ghost var done, delim := tmp[..], hist[..];
    match_ := 0;
    var i := 0;
    MatchesNone(R, S);
    while i < |S|
      invariant 0 <= i <= |S| && match_ == Matches(R, S[..i])
      invariant tmp[..] == done && hist[..] == delim
    {
      var idx := Bits(bits, HistBits(|R|, bits))(S[i].key);
      StretchOf(R, bits, base, tmp[..], hist[..], S[i].key, idx);
      var found := ScanCluster(tmp, base + hist[idx], base + hist[idx + 1], S[i].key);
      assert tmp[base + hist[idx]..base + hist[idx + 1]] == tmp[..][base + hist[..][idx]..base + hist[..][idx + 1]];
      MatchesSnoc(R, S[..i], S[i]);
      assert S[..i+1] == S[..i] + [S[i]];
      match_ := match_ + found;
      i := i + 1;
    }
    assert S[..i] == S;
  }

  lemma MatchesNone(R: Relation, S: Relation)
    ensures Matches(R, S[..0]) == 0
  {
  }

  /** The delimited stretch of the reordered relation is the cluster. */
  lemma ClusterAt(R: Relation, out: Relation, f: Tuple -> int, d: seq<int>, base: nat, hist: seq<int>, N: nat, h: nat)
    requires d == Digits(R, f) && Nonnegative(d) && Placed(R, out, f, base, 0) && base + |R| <= |out|
    requires |hist| == N + 2 && h < N && forall c :: 0 <= c <= N ==> hist[c] == Below(d, c)
    ensures 0 <= hist[h] <= hist[h + 1] <= |R|
    ensures out[base + hist[h]..base + hist[h + 1]] == Filter(R, f, h)
  {
    hide Placed, Digits;
    BelowMax(d, h);
    BelowMax(d, h + 1);
    PlacedCluster(R, out, f, base, 0, h);
    FilterLength(R, f, h);
    BelowNext(d, h);
  }
}
