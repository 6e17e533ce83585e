/** mainSimpleSort of blocksort.c: a shell sort of pointers by the rotations they name. It
    gives up when the work budget runs out. */
module MainSimpleSort {
  import opened MainCompare
  import opened Rearrangement
  import opened Rotations
  import opened SortingByParts
  import opened ThreeWayPartition

  const INCS := [1, 4, 13, 40, 121, 364, 1093, 3280, 9841, 29524, 88573, 265720, 797161, 2391484]

  // ----- the rank of a rotation: a key that orders pointers as their rotations -----

  ghost function RankUpTo(b: seq<int>, x: nat, m: nat): (r: nat)
    requires x < |b| && m <= |b|
  {
    if m == 0 then 0 else RankUpTo(b, x, m - 1) + if Cmp(b, m - 1, x, |b|) < 0 then 1 else 0
  }

  ghost function Ranks(b: seq<int>): (r: seq<int>)
    ensures |r| == |b| && forall x :: 0 <= x < |b| ==> r[x] == RankUpTo(b, x, |b|)
  {
    seq(|b|, x requires 0 <= x < |b| => RankUpTo(b, x, |b|))
  }

  lemma {:induction false} RankMonotone(b: seq<int>, x: nat, y: nat, m: nat)
    requires x < |b| && y < |b| && m <= |b| && Cmp(b, x, y, |b|) <= 0
    ensures RankUpTo(b, x, m) <= RankUpTo(b, y, m)
    ensures Cmp(b, x, y, |b|) < 0 && x < m ==> RankUpTo(b, x, m) < RankUpTo(b, y, m)
  {
    if m > 0 {
      RankMonotone(b, x, y, m - 1);
      if Cmp(b, m - 1, x, |b|) <= 0 { CmpTransitive(b, m - 1, x, y, |b|); }
      CmpAntisymmetric(b, x, x, |b|);
    }
  }

  lemma RankOrder(b: seq<int>, x: nat, y: nat)
    requires x < |b| && y < |b|
    ensures Cmp(b, x, y, |b|) <= 0 <==> Ranks(b)[x] <= Ranks(b)[y]
    ensures Cmp(b, x, y, |b|) >= 0 <==> Ranks(b)[x] >= Ranks(b)[y]
  {
    CmpAntisymmetric(b, x, y, |b|);
    if Cmp(b, x, y, |b|) <= 0 { RankMonotone(b, x, y, |b|); }
    if Cmp(b, y, x, |b|) <= 0 { RankMonotone(b, y, x, |b|); }
  }

  ghost predicate Ties(b: seq<int>, s: seq<int>, p: int, q: int, d: nat) {
    0 <= p < |s| && 0 <= q < |s| && 0 <= s[p] < |b| && 0 <= s[q] < |b| && Cmp(b, s[p], s[q], d) == 0
  }

  /** The rotations named in the stretch agree on their first d bytes. */
  ghost predicate SharesPrefix(b: seq<int>, s: seq<int>, lo: int, hi: int, d: nat) {
    Pointers(s, |b|, lo, hi) && forall p {:trigger Ties(b, s, lo, p, d)} :: lo <= p <= hi ==> Ties(b, s, lo, p, d)
  }

  lemma PrefixShared(b: seq<int>, s: seq<int>, lo: int, hi: int, d: nat, p: int, q: int)
    requires SharesPrefix(b, s, lo, hi, d) && lo <= p <= hi && lo <= q <= hi
    ensures Cmp(b, s[p], s[q], d) == 0
  {
    assert Ties(b, s, lo, p, d) && Ties(b, s, lo, q, d);
    CmpAntisymmetric(b, s[lo], s[p], d);
    CmpTransitive(b, s[p], s[lo], s[q], d);
  }

  /** Comparing d bytes further on decides the order of rotations that share d bytes. */
  lemma ComparedAtDepth(b: seq<int>, x: nat, y: nat, d: nat, gt: bool)
    requires x < |b| && y < |b| && d < |b| && Cmp(b, x, y, d) == 0
    requires Consistent(b, Wrap(|b|, x + d), Wrap(|b|, y + d), gt)
    ensures Consistent(b, x, y, gt)
  {
    CmpSplit(b, x, y, d, |b| - d);
    CmpSplit(b, Advance(|b|, x, d), Advance(|b|, y, d), |b| - d, d);
  }

  ghost predicate Sortable(ptr: seq<int>, b: seq<int>, block: seq<int>, quadrant: seq<int>, lo: int, hi: int, d: nat) {
    Tables(b, block, quadrant) && d <= MAX_DEPTH && SharesPrefix(b, ptr, lo, hi, d)
  }

  lemma SortableRange(ptr: seq<int>, b: seq<int>, block: seq<int>, quadrant: seq<int>, lo: int, hi: int, d: nat)
    requires Sortable(ptr, b, block, quadrant, lo, hi, d)
    ensures 0 <= lo && hi < |ptr| && forall k :: lo <= k <= hi ==> 0 <= ptr[k] < |b|
  {
  }

  // ----- what sorting costs -----

  /** Different pointers, and rotations that are told apart at a cost of at most m. */
  ghost predicate Cheap(b: seq<int>, s: seq<int>, m: nat) {
    CostsAtMost(b, m) && Distinct(s)
  }

  /** The budget has paid for no more than n comparisons that cost at most m each. */
  ghost predicate Charged(budget0: int, budget: int, m: nat, n: int) {
    budget0 - m * n <= budget <= budget0
  }

  lemma ChargedBoth(budget0: int, budget1: int, budget2: int, m: nat, n1: int, n2: int)
    requires Charged(budget0, budget1, m, n1) && Charged(budget1, budget2, m, n2)
    ensures Charged(budget0, budget2, m, n1 + n2)
  {
  }

  lemma ChargedLess(budget0: int, budget: int, m: nat, n: int, n': int)
    requires Charged(budget0, budget, m, n) && n <= n'
    ensures Charged(budget0, budget, m, n')
  {
    AtLeastProduct(m, n, n');
  }

  lemma AtLeastProduct(m: nat, n: int, n': int)
    requires n <= n'
    ensures m * n <= m * n'
  {
  }

  lemma NotCharged(budget: int, m: nat, n: nat)
    ensures Charged(budget, budget, m, n)
  {
    AtLeastProduct(m, 0, n);
  }

  /** The comparisons with which a shell sort of n pointers makes do. */
  function MostCompares(n: int): (r: int)
    ensures r >= 0
  {
    13 * Square(n)
  }

  function Square(n: int): (r: int)
    ensures r >= 0
  {
    n * n
  }

  /** Sorting two stretches by themselves takes no more than sorting them together. */
  lemma ApartIsCheaper(x: nat, y: nat)
    ensures MostCompares(x) + MostCompares(y) <= MostCompares(x + y)
  {
    assert Square(x + y) == Square(x) + Square(y) + 2 * (x * y);
    AtLeastProduct(x, 0, y);
  }

  lemma CheapKept(b: seq<int>, s: seq<int>, t: seq<int>, lo: int, hi: int, m: nat)
    requires Cheap(b, s, m) && Rearranged(s, t, lo, hi)
    ensures Cheap(b, t, m)
  {
    hide CostsAtMost;
    forall j, k | 0 <= j < k < |t| ensures t[j] != t[k] {
      DistinctCount(s, t[j]);
      if t[j] == t[k] { TwiceCounts(t, j, k); }
    }
  }

  /** One comparison of two pointers of the stretch. */
  method After(x: int, y: int, block: seq<int>, quadrant: seq<int>, nblock: nat, d: nat, budget0: int,
               ghost b: seq<int>, ghost m: nat)
    returns (gt: bool, budget: int)
    requires nblock == |b| && Tables(b, block, quadrant) && d <= MAX_DEPTH
    requires 0 <= x < nblock && 0 <= y < nblock && Cmp(b, x, y, d) == 0
    ensures gt ==> Ranks(b)[x] >= Ranks(b)[y]
    ensures !gt ==> Ranks(b)[x] <= Ranks(b)[y]
    ensures budget <= budget0 && (CostsAtMost(b, m) && x != y ==> Charged(budget0, budget, m, 1))
  {
    hide Ranks, CostsAtMost, Tables;
    TablesHave(b, block, quadrant);
    gt, budget := GtU(x + d, y + d, block, quadrant, nblock, budget0, b);
    CostBound(b, Wrap(nblock, x + d), Wrap(nblock, y + d), budget0 - budget, m);
    ComparedAtDepth(b, x, y, d, gt);
    RankOrder(b, x, y);
  }

  /** s with its element at i reinserted in front of position j. */
  ghost function ReinsertedDown(s: seq<int>, j: int, i: int): (t: seq<int>)
    requires 0 <= j <= i < |s|
    ensures |t| == |s|
  {
    s[..j] + [s[i]] + s[j..i] + s[i+1..]
  }

  lemma ReinsertedDownSorted(s: seq<int>, key: seq<int>, lo: int, j: int, i: int)
    requires 0 <= lo <= j <= i < |s| && SortedByKey(s, key, lo, i - 1)
    requires forall k :: j <= k < i ==> Key(key, s[k]) >= Key(key, s[i])
    requires j > lo ==> Key(key, s[j-1]) <= Key(key, s[i])
    ensures SortedByKey(ReinsertedDown(s, j, i), key, lo, i)
  {
    var t := ReinsertedDown(s, j, i);
    forall p | lo <= p < i ensures Key(key, t[p]) <= Key(key, t[p+1]) {}
    AdjacentSorted(t, key, lo, i);
  }

  /** The gap-1 insertion under way: elements j..i-1, none of them before v = s[i], have
      moved up by one. */
  ghost predicate Slid(s: seq<int>, t: seq<int>, key: seq<int>, j: int, i: int) {
    && 0 <= j <= i < |s| == |t|
    && t[j+1..] == s[j..i] + s[i+1..]
    && forall k :: j <= k < i ==> Key(key, s[k]) >= Key(key, s[i])
  }

  lemma SlidStep(s: seq<int>, t: seq<int>, key: seq<int>, j: int, i: int)
    requires Slid(s, t, key, j, i) && 0 < j && t[j-1] == s[j-1]
    requires Key(key, s[j-1]) >= Key(key, s[i])
    ensures Slid(s, t[j := t[j-1]], key, j - 1, i)
  {
    assert t[j := t[j-1]][j..] == [s[j-1]] + t[j+1..];
    assert s[j-1..i] == [s[j-1]] + s[j..i];
  }

  lemma SlidDone(s: seq<int>, t: seq<int>, key: seq<int>, lo: int, j: int, i: int)
    requires Slid(s, t, key, j, i) && t[..j] == s[..j] && 0 <= lo <= j
    requires SortedByKey(s, key, lo, i - 1)
    requires lo < j ==> Key(key, s[j-1]) <= Key(key, s[i])
    ensures SortedByKey(t[j := s[i]], key, lo, i)
  {
    assert t[j := s[i]] == t[..j] + [s[i]] + t[j+1..];
    assert t[j := s[i]] == ReinsertedDown(s, j, i);
    ReinsertedDownSorted(s, key, lo, j, i);
  }

  /** Element v = s[i] lifted out, everything from j on up to i moved in steps of h. */
  ghost predicate Lifted(s: seq<int>, t: seq<int>, key: seq<int>, lo: int, j: int, i: int, hi: int, h: int) {
    && 0 <= lo <= j <= i <= hi < |s| == |t| && 1 <= h
    && HasHole(s, t, j, s[i], lo, hi) && t[..j] == s[..j]
    && (h == 1 ==> Slid(s, t, key, j, i))
  }

  lemma LiftedInit(s: seq<int>, key: seq<int>, lo: int, i: int, hi: int, h: int)
    requires 0 <= lo <= i <= hi < |s| && 1 <= h
    ensures Lifted(s, s, key, lo, i, i, hi, h)
  {
    assert s[i := s[i]] == s;
  }

  method SlideOnce(ptr: array<int>, ghost s: seq<int>, ghost key: seq<int>, ghost lo: int, j: int, ghost i: int,
                   ghost hi: int, h: int)
    requires Lifted(s, ptr[..], key, lo, j, i, hi, h) && lo + h <= j
    requires Key(key, s[j - h]) >= Key(key, s[i])
    modifies ptr
    ensures Lifted(s, ptr[..], key, lo, j - h, i, hi, h)
  {
    ghost var t := ptr[..];
    MoveIntoHole(ptr, j, j - h, s[i], s, lo, hi);
    LiftedMoves(s, t, ptr[..], key, lo, j, i, hi, h);
  }

  lemma LiftedMoves(s: seq<int>, t: seq<int>, t': seq<int>, key: seq<int>, lo: int, j: int, i: int, hi: int, h: int)
    requires Lifted(s, t, key, lo, j, i, hi, h) && lo + h <= j
    requires Key(key, s[j-h]) >= Key(key, s[i])
    requires t' == t[j := t[j-h]] && HasHole(s, t', j - h, s[i], lo, hi)
    ensures Lifted(s, t', key, lo, j - h, i, hi, h)
  {
    assert t[j-h] == t[..j][j-h] == s[..j][j-h];
    assert t'[..j-h] == t[..j][..j-h] == s[..j][..j-h];
    if h == 1 { SlidStep(s, t, key, j, i); }
  }

  method PutDown(ptr: array<int>, ghost s: seq<int>, ghost key: seq<int>, ghost lo: int, j: int, ghost i: int,
                 ghost hi: int, ghost h: int, v: int)
    requires Lifted(s, ptr[..], key, lo, j, i, hi, h) && v == s[i]
    requires h == 1 ==> SortedByKey(s, key, lo, i - 1)
    requires lo + h <= j ==> Key(key, s[j - h]) <= Key(key, s[i])
    modifies ptr
    ensures Rearranged(s, ptr[..], lo, hi + 1)
    ensures h == 1 ==> SortedByKey(ptr[..], key, lo, i)
  {
    if h == 1 { SlidDone(s, ptr[..], key, lo, j, i); }
    FillHole(ptr, j, v, s, lo, hi);
  }

  /** The test at the bottom of the inner loop: stop at the low end, else compare. */
  method Compare(ptr: array<int>, ghost s: seq<int>, lo: int, j: int, ghost i: int, ghost hi: int, h: int, v: int,
                 block: seq<int>, quadrant: seq<int>, nblock: nat, d: nat, budget0: int, ghost b: seq<int>,
                 ghost m: nat)
    returns (gt: bool, budget: int)
    requires nblock == |b| && Sortable(s, b, block, quadrant, lo, hi, d)
    requires Lifted(s, ptr[..], Ranks(b), lo, j, i, hi, h) && v == s[i]
    ensures budget <= budget0 && (Cheap(b, s, m) ==> Charged(budget0, budget, m, 1))
    ensures gt ==> lo + h <= j && Key(Ranks(b), s[j - h]) >= Key(Ranks(b), v)
    ensures !gt && lo + h <= j ==> Key(Ranks(b), s[j - h]) <= Key(Ranks(b), v)
  {
    if j <= lo + h - 1 {
      NotCharged(budget0, m, 1);
      return false, budget0;
    }
    assert ptr[j - h] == ptr[..][..j][j - h] == s[..j][j - h];
    PrefixShared(b, s, lo, hi, d, j - h, i);
    gt, budget := After(ptr[j - h], v, block, quadrant, nblock, d, budget0, b, m);
  }

  /** Slide ptr[i] down in steps of h; with h = 1 this inserts it into a sorted stretch. */
  method Insert(ptr: array<int>, block: seq<int>, quadrant: seq<int>, nblock: nat, lo: int, i: int, hi: int, h: int,
                d: nat, budget0: int, ghost b: seq<int>, ghost m: nat)
    returns (budget: int)
    requires nblock == |b| && Sortable(ptr[..], b, block, quadrant, lo, hi, d)
    requires 1 <= h && 0 <= lo && lo + h <= i <= hi
    requires h == 1 ==> SortedByKey(ptr[..], Ranks(b), lo, i - 1)
    modifies ptr
    ensures Rearranged(old(ptr[..]), ptr[..], lo, hi + 1) && budget <= budget0
    ensures Cheap(b, old(ptr[..]), m) ==> Charged(budget0, budget, m, hi - lo + 1)
    ensures h == 1 ==> SortedByKey(ptr[..], Ranks(b), lo, i)
  {
    hide Lifted, Sortable, SortedByKey, Rearranged, Ranks, Cheap, Charged;
    SortableRange(ptr[..], b, block, quadrant, lo, hi, d);
    ghost var s, key := ptr[..], Ranks(b);
    LiftedInit(s, key, lo, i, hi, h);
    var v, j, gt := ptr[i], i, true;
    gt, budget := Compare(ptr, s, lo, j, i, hi, h, v, block, quadrant, nblock, d, budget0, b, m);
    ghost var compared := 1;
    while gt
      invariant Lifted(s, ptr[..], key, lo, j, i, hi, h) && budget <= budget0
      invariant lo <= j && compared <= i - j + 1 && (Cheap(b, s, m) ==> Charged(budget0, budget, m, compared))
      invariant gt ==> lo + h <= j && Key(key, s[j - h]) >= Key(key, v)
      invariant !gt && lo + h <= j ==> Key(key, s[j - h]) <= Key(key, v)
      decreases j, gt
    {
      SlideOnce(ptr, s, key, lo, j, i, hi, h);
      j := j - h;
      ghost var before := budget;
      gt, budget := Compare(ptr, s, lo, j, i, hi, h, v, block, quadrant, nblock, d, budget, b, m);
      if Cheap(b, s, m) { ChargedBoth(budget0, before, budget, m, compared, 1); }
      compared := compared + 1;
    }
    if Cheap(b, s, m) { ChargedLess(budget0, budget, m, compared, hi - lo + 1); }
    PutDown(ptr, s, key, lo, j, i, hi, h, v);
  }

  /** Rearranging a stretch does not change which prefix its rotations share. */
  lemma PrefixKept(b: seq<int>, s: seq<int>, t: seq<int>, lo: int, hi: int, d: nat)
    requires SharesPrefix(b, s, lo, hi, d) && Rearranged(s, t, lo, hi + 1)
    ensures SharesPrefix(b, t, lo, hi, d)
  {
    RearrangedKeeps(s, t, lo, hi + 1, x => 0 <= x < |b|);
    forall p {:trigger Ties(b, t, lo, p, d)} | lo <= p <= hi ensures Ties(b, t, lo, p, d) {
      var i := RearrangedFrom(s, t, lo, hi + 1, lo);
      var j := RearrangedFrom(s, t, lo, hi + 1, p);
      PrefixShared(b, s, lo, hi, d, i, j);
    }
  }

  /** One pass with gap h; the budget is looked at after every third insertion. */
  method Pass(ptr: array<int>, block: seq<int>, quadrant: seq<int>, nblock: nat, lo: int, hi: int, h: int, d: nat,
              budget0: int, ghost b: seq<int>, ghost m: nat)
    returns (budget: int, gaveUp: bool)
    requires nblock == |b| && Sortable(ptr[..], b, block, quadrant, lo, hi, d)
    requires 1 <= h && 0 <= lo && lo + h <= hi
    modifies ptr
    ensures Rearranged(old(ptr[..]), ptr[..], lo, hi + 1) && SharesPrefix(b, ptr[..], lo, hi, d)
    ensures budget <= budget0 && (gaveUp ==> budget < 0)
    ensures h == 1 && !gaveUp ==> SortedByKey(ptr[..], Ranks(b), lo, hi)
    ensures Cheap(b, old(ptr[..]), m) ==> Charged(budget0, budget, m, Square(hi - lo + 1))
  {
    hide Ranks, Cheap, Charged, Square, Tables, SharesPrefix, PassPaid, SortedByKey;
    ghost var s0, size := ptr[..], hi - lo + 1;
    NothingPaid(b, s0, budget0, m, size);
    SortableRange(s0, b, block, quadrant, lo, hi, d);
    FirstSorted(s0, Ranks(b), lo);
    budget, gaveUp := budget0, false;
    var i, copy := lo + h, 0;
    while i <= hi
      invariant lo + h <= i <= hi + 1 && budget <= budget0
      invariant Rearranged(s0, ptr[..], lo, hi + 1) && SharesPrefix(b, ptr[..], lo, hi, d)
      invariant h == 1 ==> SortedByKey(ptr[..], Ranks(b), lo, i - 1)
      invariant PassPaid(b, s0, budget0, budget, m, size, i - lo - h)
    {
      ghost var s, before := ptr[..], budget;
      budget := Insert(ptr, block, quadrant, nblock, lo, i, hi, h, d, budget, b, m);
      PrefixKept(b, s, ptr[..], lo, hi, d);
      InsertPaid(b, s0, s, lo, hi, budget0, before, budget, m, i - lo - h);
      i, copy := i + 1, copy + 1;
      if copy == 3 {
        copy := 0;
        if budget < 0 {
          PassCharged(b, s0, budget0, budget, m, size, i - lo - h);
          return budget, true;
        }
      }
    }
    PassCharged(b, s0, budget0, budget, m, size, i - lo - h);
  }

  /** The budget has paid for n insertions of size comparisons. */
  ghost predicate PassPaid(b: seq<int>, s0: seq<int>, budget0: int, budget: int, m: nat, size: nat, n: int) {
    Cheap(b, s0, m) ==> Charged(budget0, budget, m, size * n)
  }

  lemma NothingPaid(b: seq<int>, s0: seq<int>, budget: int, m: nat, size: nat)
    ensures PassPaid(b, s0, budget, budget, m, size, 0)
  {
    NotCharged(budget, m, 0);
  }

  lemma FirstSorted(s: seq<int>, key: seq<int>, lo: int)
    requires lo < |s|
    ensures SortedByKey(s, key, lo, lo)
  {
  }

  lemma InsertPaid(b: seq<int>, s0: seq<int>, s: seq<int>, lo: int, hi: int, budget0: int, before: int, budget: int,
                   m: nat, n: int)
    requires Rearranged(s0, s, lo, hi + 1) && PassPaid(b, s0, budget0, before, m, hi + 1 - lo, n)
    requires Cheap(b, s, m) ==> Charged(before, budget, m, hi - lo + 1)
    ensures PassPaid(b, s0, budget0, budget, m, hi + 1 - lo, n + 1)
  {
    hide Cheap, Charged, Rearranged;
    var size := hi + 1 - lo;
    if Cheap(b, s0, m) {
      CheapKept(b, s0, s, lo, hi + 1, m);
      ChargedBoth(budget0, before, budget, m, size * n, size);
      assert size * n + size == size * (n + 1);
    }
  }

  lemma PassCharged(b: seq<int>, s0: seq<int>, budget0: int, budget: int, m: nat, size: nat, n: int)
    requires PassPaid(b, s0, budget0, budget, m, size, n) && n <= size
    ensures Cheap(b, s0, m) ==> Charged(budget0, budget, m, Square(size))
  {
    hide Cheap, Charged;
    AtLeastProduct(size, n, size);
    if Cheap(b, s0, m) { ChargedLess(budget0, budget, m, size * n, Square(size)); }
  }

  lemma OneMorePass(budget0: int, before: int, budget: int, m: nat, passes: nat, size: int)
    requires Charged(budget0, before, m, passes * Square(size)) && Charged(before, budget, m, Square(size))
    requires passes < 13
    ensures Charged(budget0, budget, m, (passes + 1) * Square(size))
    ensures Charged(budget0, budget, m, MostCompares(size))
  {
    hide Square;
    var q := Square(size);
    ChargedBoth(budget0, before, budget, m, passes * q, q);
    assert passes * q + q == (passes + 1) * q;
    AtLeastProduct(q, passes + 1, 13);
    ChargedLess(budget0, budget, m, (passes + 1) * q, 13 * q);
  }

  /** Sorts ptr[lo..hi] by rotation unless the budget ran out; rearranges it in any case. */
  method SimpleSort(ptr: array<int>, block: seq<int>, quadrant: seq<int>, nblock: nat, lo: int, hi: int, d: nat,
                    budget0: int, ghost b: seq<int>, ghost m: nat)
    returns (budget: int)
    requires nblock == |b| && Sortable(ptr[..], b, block, quadrant, lo, hi, d)
    requires 0 <= lo <= hi + 1 && hi - lo + 1 <= INCS[13]
    modifies ptr
    ensures Rearranged(old(ptr[..]), ptr[..], lo, hi + 1) && SharesPrefix(b, ptr[..], lo, hi, d)
    ensures budget <= budget0
    ensures budget >= 0 ==> SortedByKey(ptr[..], Ranks(b), lo, hi)
    ensures Cheap(b, old(ptr[..]), m) ==> Charged(budget0, budget, m, MostCompares(hi - lo + 1))
  {
    hide Cheap, Charged, Square, MostCompares, Ranks, Tables, SharesPrefix;
    ghost var s0, passes := ptr[..], 0;
    SortableRange(s0, b, block, quadrant, lo, hi, d);
    budget := budget0;
    var bigN := hi - lo + 1;
    NotCharged(budget0, m, 0);
    NotCharged(budget0, m, MostCompares(bigN));
    if bigN < 2 { return; }
    var hp := 0;
    while INCS[hp] < bigN
      invariant 0 <= hp <= 13 && (hp > 0 ==> INCS[hp - 1] < bigN)
    {
      hp := hp + 1;
    }
    hp := hp - 1;
    while hp >= 0
      invariant -1 <= hp < 13 && (hp >= 0 ==> 1 <= INCS[hp] < bigN) && budget <= budget0
      invariant Rearranged(s0, ptr[..], lo, hi + 1) && SharesPrefix(b, ptr[..], lo, hi, d)
      invariant hp == -1 ==> SortedByKey(ptr[..], Ranks(b), lo, hi)
      invariant 0 <= passes <= 12 - hp && (Cheap(b, s0, m) ==> Charged(budget0, budget, m, passes * Square(bigN)))
      invariant Cheap(b, s0, m) ==> Charged(budget0, budget, m, MostCompares(bigN))
    {
      var gaveUp;
      ghost var before := budget;
      if Cheap(b, s0, m) { CheapKept(b, s0, ptr[..], lo, hi + 1, m); }
      budget, gaveUp := Pass(ptr, block, quadrant, nblock, lo, hi, INCS[hp], d, budget, b, m);
      if Cheap(b, s0, m) { OneMorePass(budget0, before, budget, m, passes, bigN); }
      passes := passes + 1;
      if gaveUp { return; }
      hp := hp - 1;
    }
  }
}
