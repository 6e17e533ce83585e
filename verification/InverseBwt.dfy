/** The inverse of the rotation sort, as decompress.c sets it up and bzlib.c walks it: a stable
    counting sort of the last column links every position to the one of the next rotation, and
    following the links from the original rotation gives the block back. */
module InverseBwt {
  import opened Counting
  import Decompressor
  import opened FallbackSort
  import opened MainSimpleSort
  import opened MoveToFront
  import opened Rearrangement
  import opened Rotations
  import StablePartition

  ghost predicate Ascending(s: seq<int>) {
    forall p, q :: 0 <= p < q < |s| ==> s[p] <= s[q]
  }

  lemma LastIsLargest(s: seq<int>, t: seq<int>)
    requires Ascending(s) && Ascending(t) && multiset(s) == multiset(t) && |s| == |t| > 0
    ensures s[|s|-1] <= t[|t|-1]
  {
    assert s[|s|-1] in multiset(t);
    var i :| 0 <= i < |t| && t[i] == s[|s|-1];
    assert t[i] <= t[|t|-1];
  }

  lemma WithoutLast(s: seq<int>)
    requires s != []
    ensures multiset(s[..|s|-1]) == multiset(s) - multiset{s[|s|-1]}
  {
    assert s == s[..|s|-1] + [s[|s|-1]];
  }

  /** A multiset of numbers can be listed in ascending order in one way only. */
  lemma {:induction false} AscendingUnique(s: seq<int>, t: seq<int>)
    requires Ascending(s) && Ascending(t) && multiset(s) == multiset(t)
    ensures s == t
    decreases |s|
  {
    assert |s| == |multiset(s)| == |multiset(t)| == |t|;
    if s != [] {
      LastIsLargest(s, t);
      LastIsLargest(t, s);
      WithoutLast(s);
      WithoutLast(t);
      SameRest(multiset(s), multiset(t), s[|s|-1], t[|t|-1], multiset(s[..|s|-1]), multiset(t[..|t|-1]));
      AscendingUnique(s[..|s|-1], t[..|t|-1]);
      SameByParts(s, t);
    }
  }

  lemma SameRest(a: multiset<int>, b: multiset<int>, x: int, y: int, a': multiset<int>, b': multiset<int>)
    requires a == b && x == y && a' == a - multiset{x} && b' == b - multiset{y}
    ensures a' == b'
  {
  }

  lemma SameByParts(s: seq<int>, t: seq<int>)
    requires |s| == |t| > 0 && s[..|s|-1] == t[..|t|-1] && s[|s|-1] == t[|t|-1]
    ensures s == t
  {
    assert s == s[..|s|-1] + [s[|s|-1]] && t == t[..|t|-1] + [t[|t|-1]];
  }

  /** ptr lists the rotations of b in order. */
  ghost predicate Sorted(b: seq<int>, ptr: seq<int>) {
    |b| >= 1 && IsPermutation(ptr, |b|) && OrderedBy(b, ptr, |b|)
  }

  /** The links: T leads from the place of a byte in the sorted column to its place in the
      last column. */
  ghost predicate Links(L: seq<int>, T: seq<int>) {
    |T| == |L| && forall i :: 0 <= i < |L| ==> 0 <= Slot(L, i) < |L| && T[Slot(L, i)] == i
  }

  lemma LinkFrom(L: seq<int>, T: seq<int>, p: nat)
    requires Links(L, T) && p < |L|
    ensures 0 <= T[p] < |L| && Slot(L, T[p]) == p
  {
    var i := StablePartition.SlotHit(L, p);
  }

  lemma LinksDistinct(L: seq<int>, T: seq<int>)
    requires Links(L, T)
    ensures IsPermutation(T, |L|)
  {
    forall p | 0 <= p < |L| ensures 0 <= T[p] < |L| && Slot(L, T[p]) == p { LinkFrom(L, T, p); }
  }

  // ----- every link goes to the next rotation -----

  /** The byte before a rotation begins the rotation that starts one place earlier. */
  lemma Earlier(b: seq<int>, ptr: seq<int>, i: nat)
    requires Sorted(b, ptr) && i < |b|
    ensures LastColumn(ptr, b)[i] == b[Back(|b|, ptr[i], 1)]
  {
  }

  /** Leaving out the last byte keeps the order. */
  lemma PrefixOrder(b: seq<int>, x: nat, y: nat)
    requires x < |b| && y < |b| && Cmp(b, x, y, |b|) <= 0
    ensures Cmp(b, x, y, |b| - 1) <= 0
  {
    hide Cmp;
    CmpSplit(b, x, y, |b| - 1, 1);
  }

  /** Taking in the byte in front decides by that byte first. */
  lemma ByteInFront(b: seq<int>, x: nat, y: nat)
    requires x < |b| && y < |b|
    ensures b[x] < b[y] ==> Cmp(b, x, y, |b|) <= 0
    ensures b[x] == b[y] ==> Cmp(b, x, y, |b|) == Cmp(b, Advance(|b|, x, 1), Advance(|b|, y, 1), |b| - 1)
  {
  }

  /** Rotations with equal bytes in front stay in order when the byte is taken in. */
  lemma EarlierOrder(b: seq<int>, ptr: seq<int>, i: nat, j: nat)
    requires Sorted(b, ptr) && i < |b| && j < |b|
    requires var L := LastColumn(ptr, b); L[i] < L[j] || (L[i] == L[j] && i < j)
    ensures Cmp(b, Back(|b|, ptr[i], 1), Back(|b|, ptr[j], 1), |b|) <= 0
  {
    hide LastColumn, Cmp, Advance, Back;
    var x, y := Back(|b|, ptr[i], 1), Back(|b|, ptr[j], 1);
    Earlier(b, ptr, i);
    Earlier(b, ptr, j);
    ByteInFront(b, x, y);
    if b[x] == b[y] {
      OrderedPairs(b, ptr, |b|, i, j);
      PrefixOrder(b, ptr[i], ptr[j]);
    }
  }

  /** The rotations one place before those that T leads to. */
  ghost function Turned(b: seq<int>, ptr: seq<int>, T: seq<int>): (r: seq<int>)
    requires Sorted(b, ptr) && IsPermutation(T, |b|)
    ensures |r| == |b| && forall p :: 0 <= p < |b| ==> r[p] == Back(|b|, ptr[T[p]], 1)
  {
    seq(|b|, p requires 0 <= p < |b| => Back(|b|, ptr[T[p]], 1))
  }

  lemma TurnedPermutation(b: seq<int>, ptr: seq<int>, T: seq<int>)
    requires Sorted(b, ptr) && IsPermutation(T, |b|)
    ensures IsPermutation(Turned(b, ptr, T), |b|)
  {
    var r := Turned(b, ptr, T);
    forall p, q | 0 <= p < q < |b| ensures r[p] != r[q] {
      assert T[p] != T[q];
      assert Advance(|b|, r[p], 1) == ptr[T[p]] && Advance(|b|, r[q], 1) == ptr[T[q]];
    }
  }

  lemma SortedAscends(b: seq<int>, ptr: seq<int>)
    requires Sorted(b, ptr)
    ensures Ascending(Column(Ranks(b), ptr))
  {
    forall p, q | 0 <= p < q < |b| ensures Column(Ranks(b), ptr)[p] <= Column(Ranks(b), ptr)[q] {
      OrderedPairs(b, ptr, |b|, p, q);
      RankOrder(b, ptr[p], ptr[q]);
    }
  }

  lemma TurnedAscends(b: seq<int>, ptr: seq<int>, T: seq<int>)
    requires Sorted(b, ptr) && Links(LastColumn(ptr, b), T) && IsPermutation(T, |b|)
    ensures IsPermutation(Turned(b, ptr, T), |b|) && Ascending(Column(Ranks(b), Turned(b, ptr, T)))
  {
    TurnedPermutation(b, ptr, T);
    var L, r := LastColumn(ptr, b), Turned(b, ptr, T);
    forall p, q | 0 <= p < q < |b| ensures Column(Ranks(b), r)[p] <= Column(Ranks(b), r)[q] {
      LinkFrom(L, T, p);
      LinkFrom(L, T, q);
      SlotOrder(L, T[p], T[q]);
      EarlierOrder(b, ptr, T[p], T[q]);
      RankOrder(b, r[p], r[q]);
    }
  }

  /** Following a link is going to the next rotation, or to one that is equal to it. */
  lemma LinkIsNext(b: seq<int>, ptr: seq<int>, T: seq<int>, p: nat)
    requires Sorted(b, ptr) && Links(LastColumn(ptr, b), T) && p < |b|
    ensures 0 <= T[p] < |b| && Cmp(b, Back(|b|, ptr[T[p]], 1), ptr[p], |b|) == 0
  {
    LinksDistinct(LastColumn(ptr, b), T);
    TurnedAscends(b, ptr, T);
    SortedAscends(b, ptr);
    var r := Turned(b, ptr, T);
    ColumnMultiset(Ranks(b), ptr);
    ColumnMultiset(Ranks(b), r);
    AscendingUnique(Column(Ranks(b), ptr), Column(Ranks(b), r));
    assert Column(Ranks(b), ptr)[p] == Column(Ranks(b), r)[p];
    RankOrder(b, r[p], ptr[p]);
  }

  // ----- the walk -----

  /** Equal rotations have equal successors and equal bytes in front. */
  lemma EqualGoOn(b: seq<int>, x: nat, y: nat)
    requires x < |b| && y < |b| && Cmp(b, x, y, |b|) == 0
    ensures b[x] == b[y] && Cmp(b, Advance(|b|, x, 1), Advance(|b|, y, 1), |b|) == 0
  {
    hide Cmp;
    var n := |b|;
    CmpTieByte(b, x, y, n, 0);
    CmpSplit(b, x, y, 1, n - 1);
    var x', y' := Advance(n, x, 1), Advance(n, y, 1);
    CmpSplit(b, x', y', n - 1, 1);
    assert Advance(n, x', n - 1) == x && Advance(n, y', n - 1) == y;
    CmpOneByte(b, x, y);
  }

  /** Position p names a rotation equal to the one that starts at k. */
  ghost predicate At(b: seq<int>, ptr: seq<int>, p: int, k: nat) {
    |b| >= 1 && k <= |b| && |ptr| == |b| && 0 <= p < |b| && 0 <= ptr[p] < |b| &&
      Cmp(b, ptr[p], if k == |b| then 0 else k, |b|) == 0
  }

  /** One step of the walk: it gives the byte at k and goes on to k + 1. */
  lemma WalkStep(b: seq<int>, ptr: seq<int>, T: seq<int>, p: int, k: nat)
    requires Sorted(b, ptr) && Links(LastColumn(ptr, b), T) && At(b, ptr, p, k) && k < |b|
    ensures 0 <= T[p] < |b| && LastColumn(ptr, b)[T[p]] == b[k] && At(b, ptr, T[p], k + 1)
  {
    var n, q := |b|, T[p];
    LinkIsNext(b, ptr, T, p);
    Earlier(b, ptr, q);
    var x := Back(n, ptr[q], 1);
    CmpTransitive(b, x, ptr[p], k, n);
    EqualGoOn(b, x, k);
    assert Advance(n, x, 1) == ptr[q] && Advance(n, k, 1) == if k + 1 == n then 0 else k + 1;
  }

  // ----- the table tt: a byte and a link in one word -----

  /** The low eight bits of every word are the last column; the links of the first i bytes have
      been put above them, and no others. */
  ghost predicate Linked(tt: seq<int>, L: seq<int>, i: nat) {
    && |tt| == |L| && i <= |L| && (forall k :: 0 <= k < |L| ==> 0 <= L[k] < 256)
    && (forall k {:trigger Slot(L, k)} ::
           0 <= k < i ==> 0 <= Slot(L, k) < |tt| && tt[Slot(L, k)] == L[Slot(L, k)] + 256 * k)
    && (forall q :: 0 <= q < |tt| && Unlinked(L, q, i) ==> tt[q] == L[q])
    && (forall q :: 0 <= q < |tt| ==> tt[q] % 256 == L[q])
  }

  ghost predicate Unlinked(L: seq<int>, q: int, i: nat)
    requires i <= |L|
  {
    forall k :: 0 <= k < i ==> Slot(L, k) != q
  }

  lemma LinkStep(tt: seq<int>, L: seq<int>, i: nat)
    requires Linked(tt, L, i) && i < |L|
    ensures 0 <= Slot(L, i) < |tt| && tt[Slot(L, i)] == L[Slot(L, i)]
    ensures Linked(tt[Slot(L, i) := tt[Slot(L, i)] + 256 * i], L, i + 1)
  {
    hide Slot;
    SlotInside(L, i);
    var q, tt' := Slot(L, i), tt[Slot(L, i) := tt[Slot(L, i)] + 256 * i];
    forall k | 0 <= k < i ensures Slot(L, k) != q { SlotOrder(L, k, i); }
    assert Unlinked(L, q, i);
    forall r | 0 <= r < |tt'| && Unlinked(L, r, i + 1) ensures tt'[r] == L[r] { assert Slot(L, i) != r; }
    assert (L[q] + 256 * i) % 256 == L[q];
  }

  lemma SlotInside(L: seq<int>, i: nat)
    requires i < |L|
    ensures 0 <= Slot(L, i) < |L|
  {
    SlotInBucket(L, i);
  }

  /** Add up the byte counts: where each byte begins in the sorted column. */
  method MakeCftab(unzftab: array<int>, ghost L: seq<int>) returns (cftab: array<int>)
    requires unzftab.Length == 256 && (forall k :: 0 <= k < |L| ==> 0 <= L[k] < 256) &&
             forall c :: 0 <= c < 256 ==> unzftab[c] == Count(L, c)
    ensures fresh(cftab) && cftab.Length == 257 && forall c :: 0 <= c <= 256 ==> cftab[c] == Below(L, c)
  {
    cftab := new int[257];
    cftab[0] := 0;
    var i := 1;
    while i <= 256
      invariant 1 <= i <= 257 && cftab[0] == 0 && forall k :: 1 <= k < i ==> cftab[k] == unzftab[k - 1]
    {
      cftab[i] := unzftab[i - 1];
      i := i + 1;
    }
    BelowExtremes(L, 0, 256);
    i := 1;
    while i <= 256
      invariant 1 <= i <= 257 && (forall k :: 0 <= k < i ==> cftab[k] == Below(L, k)) &&
                forall k :: i <= k <= 256 ==> cftab[k] == Count(L, k - 1)
    {
      BelowNext(L, i - 1);
      cftab[i] := cftab[i] + cftab[i - 1];
      i := i + 1;
    }
  }

  /** Link every byte of the last column to its place in the sorted column. */
  method BuildLinks(tt: array<int>, nblock: nat, cftab: array<int>, ghost L: seq<int>)
    requires nblock <= tt.Length && tt != cftab && Linked(tt[..nblock], L, 0) && cftab.Length == 257 &&
             forall c :: 0 <= c <= 256 ==> cftab[c] == Below(L, c)
    modifies tt, cftab
    ensures Linked(tt[..nblock], L, |L|)
  {
    hide Linked, Slot, Below, Count;
    LinkedHas(tt[..nblock], L, 0);
    var i := 0;
    assert L[..0] == [];
    NothingBefore();
    while i < nblock
      invariant 0 <= i <= nblock && Linked(tt[..nblock], L, i) &&
                forall c :: 0 <= c < 256 ==> cftab[c] == Below(L, c) + Count(L[..i], c)
    {
      LinkedHas(tt[..nblock], L, i);
      var uc := tt[i] % 256;
      LinkStep(tt[..nblock], L, i);
      SlotIs(L, i);
      forall c ensures Count(L[..i+1], c) == Count(L[..i], c) + if L[i] == c then 1 else 0 { CountPrefix(L, i, c); }
      ghost var was := tt[..nblock];
      tt[cftab[uc]] := tt[cftab[uc]] + 256 * i;
      assert tt[..nblock] == was[cftab[uc] := was[cftab[uc]] + 256 * i];
      cftab[uc] := cftab[uc] + 1;
      i := i + 1;
    }
  }

  lemma NothingBefore()
    ensures forall c :: Count([], c) == 0
  {
  }

  lemma SlotIs(L: seq<int>, i: nat)
    requires i < |L|
    ensures Slot(L, i) == Below(L, L[i]) + Count(L[..i], L[i])
  {
  }

  lemma LinkedHas(tt: seq<int>, L: seq<int>, i: nat)
    requires Linked(tt, L, i)
    ensures |tt| == |L| && i <= |L| && forall q :: 0 <= q < |tt| ==> tt[q] % 256 == L[q] && 0 <= L[q] < 256
  {
  }

  /** The links of the finished table. */
  ghost function LinkSeq(tt: seq<int>): (T: seq<int>)
    ensures |T| == |tt| && forall q :: 0 <= q < |tt| ==> T[q] == tt[q] / 256
  {
    seq(|tt|, q requires 0 <= q < |tt| => tt[q] / 256)
  }

  lemma FinishedLinks(tt: seq<int>, L: seq<int>)
    requires Linked(tt, L, |L|)
    ensures Links(L, LinkSeq(tt))
  {
    hide Slot;
    forall i | 0 <= i < |L| ensures 0 <= Slot(L, i) < |L| && LinkSeq(tt)[Slot(L, i)] == i {
      assert tt[Slot(L, i)] == L[Slot(L, i)] + 256 * i;
    }
  }

  /** The walk of BZ_GET_FAST: n bytes from the original rotation on are the block. */
  method Walk(tt: array<int>, nblock: nat, origPtr: nat, ghost b: seq<int>, ghost ptr: seq<int>) returns (out: seq<int>)
    requires nblock <= tt.Length && Sorted(b, ptr) && Linked(tt[..nblock], LastColumn(ptr, b), |b|) &&
             origPtr < |b| && ptr[origPtr] == 0
    ensures out == b
  {
    hide Linked, LastColumn, Cmp, OrderedBy;
    ghost var L, T := LastColumn(ptr, b), LinkSeq(tt[..nblock]);
    LinkedHas(tt[..nblock], L, |b|);
    FinishedLinks(tt[..nblock], L);
    StartsAt(b, ptr, origPtr);
    out := [];
    var tPos := tt[origPtr] / 256;
    ghost var p: int := origPtr;
    while |out| < nblock
      invariant |out| <= nblock && out == b[..|out|] && At(b, ptr, p, |out|) && tPos == T[p]
    {
      WalkStep(b, ptr, T, p, |out|);
      p := tPos;
      var word := tt[tPos];
      out := out + [word % 256];
      tPos := word / 256;
    }
    assert b[..|b|] == b;
  }

  lemma StartsAt(b: seq<int>, ptr: seq<int>, origPtr: nat)
    requires Sorted(b, ptr) && origPtr < |b| && ptr[origPtr] == 0
    ensures At(b, ptr, origPtr, 0)
  {
    CmpAntisymmetric(b, 0, 0, |b|);
  }

  // ----- the small decoder: links made by turning the pointers round -----

  /** The places the bytes go to. */
  ghost function Slots(L: seq<int>): (P: seq<int>)
    ensures |P| == |L| && forall i :: 0 <= i < |L| ==> P[i] == Slot(L, i)
  {
    seq(|L|, i requires 0 <= i < |L| => Slot(L, i))
  }

  lemma SlotsPermutation(L: seq<int>)
    ensures IsPermutation(Slots(L), |L|)
  {
    hide Slot;
    forall i | 0 <= i < |L| ensures 0 <= Slots(L)[i] < |L| { SlotInside(L, i); }
    forall i, j | 0 <= i < j < |L| ensures Slots(L)[i] != Slots(L)[j] { SlotOrder(L, i, j); }
  }

  /** path runs along P from its first position, never twice through one; behind it the
      pointers have been turned round, elsewhere they are still those of P. */
  ghost predicate Turning(ll: seq<int>, P: seq<int>, path: seq<int>) {
    && |ll| == |P| && |path| >= 1
    && (forall k :: 0 <= k < |path| ==> 0 <= path[k] < |P|)
    && (forall k :: 0 < k < |path| ==> path[k] == P[path[k - 1]])
    && (forall j, k :: 0 <= j < k < |path| ==> path[j] != path[k])
    && (forall k :: 0 < k < |path| ==> ll[path[k]] == path[k - 1])
    && (forall q :: 0 <= q < |P| && q !in path[1..] ==> ll[q] == P[q])
  }

  /** The next position has not been passed, unless it is the first. */
  lemma NotPassed(ll: seq<int>, P: seq<int>, path: seq<int>)
    requires Turning(ll, P, path) && IsPermutation(P, |P|)
    ensures 0 <= P[path[|path| - 1]] < |P| && P[path[|path| - 1]] !in path[1..]
  {
    var i := path[|path| - 1];
    forall k | 0 < k < |path| ensures path[k] != P[i] { assert path[k] == P[path[k - 1]] && path[k - 1] != i; }
  }

  lemma PathGrows(ll: seq<int>, P: seq<int>, path: seq<int>, j: int)
    requires Turning(ll, P, path) && 0 <= j < |P| && j == P[path[|path| - 1]] && j !in path
    ensures Turning(ll[j := path[|path| - 1]], P, path + [j])
  {
    var i := path[|path| - 1];
    var path', ll' := path + [j], ll[j := i];
    assert path'[1..] == path[1..] + [j];
    forall q | 0 <= q < |P| && q !in path'[1..] ensures ll'[q] == P[q] { assert q != j && q !in path[1..]; }
    forall k | 0 < k < |path'| ensures path'[k] == P[path'[k - 1]] && ll'[path'[k]] == path'[k - 1] {}
  }

  /** One turn on. */
  lemma TurnStep(ll: seq<int>, P: seq<int>, path: seq<int>)
    requires Turning(ll, P, path) && IsPermutation(P, |P|)
    ensures var i := path[|path| - 1]; var j := P[i];
            0 <= j < |P| && ll[j] == P[j] && (j != path[0] ==> Turning(ll[j := i], P, path + [j]))
  {
    var j := P[path[|path| - 1]];
    NotPassed(ll, P, path);
    if j != path[0] {
      assert path == [path[0]] + path[1..];
      PathGrows(ll, P, path, j);
    }
  }

  /** The pointers of a whole cycle, turned round. */
  ghost predicate CycleTurned(ll: seq<int>, P: seq<int>, cycle: seq<int>) {
    && |ll| == |P| && |cycle| >= 1
    && (forall k ::
           0 <= k < |cycle| ==> 0 <= cycle[k] < |P| && P[cycle[k]] == cycle[if k + 1 < |cycle| then k + 1 else 0])
    && (forall k :: 0 <= k < |cycle| ==> ll[cycle[k]] == cycle[if k > 0 then k - 1 else |cycle| - 1])
  }

  lemma {:induction false} PathLength(P: seq<int>, path: seq<int>)
    requires (forall k :: 0 <= k < |path| ==> 0 <= path[k] < |P|) &&
             forall j, k :: 0 <= j < k < |path| ==> path[j] != path[k]
    ensures |path| <= |P|
  {
    DistinctCardinality(path);
    var elems := set x | x in path;
    assert elems <= UpTo(|P|);
    SubsetSize(elems, UpTo(|P|));
  }

  lemma SubsetSize(a: set<int>, b: set<int>)
    requires a <= b
    ensures |a| <= |b|
  {
    assert b == a + (b - a);
  }

  /** The loop of decompress.c that turns the cycle of the original rotation round. */
  method TurnRound(ll: array<int>, origPtr: nat, ghost P: seq<int>) returns (ghost cycle: seq<int>)
    requires ll[..] == P && IsPermutation(P, |P|) && origPtr < |P|
    modifies ll
    ensures CycleTurned(ll[..], P, cycle) && cycle[0] == origPtr
  {
    hide Turning, IsPermutation;
    PermutationInside(P);
    var i := origPtr;
    var j := ll[i];
    ghost var path: seq<int> := [origPtr];
    Begins(ll[..], P, origPtr);
    while true
      invariant Turning(ll[..], P, path) && |path| >= 1 && path[0] == origPtr && i == path[|path| - 1] &&
                0 <= i < |P| && j == P[i] && 0 <= j < |P|
      invariant |path| <= |P|
      decreases |P| - |path|
    {
      TurnStep(ll[..], P, path);
      var tmp := ll[j];
      ghost var was := ll[..];
      ll[j] := i;
      if j == origPtr {
        Closed(was, ll[..], P, path);
        cycle := path;
      } else {
        path := path + [j];
        TurningShape(ll[..], P, path);
        PathLength(P, path);
      }
      i := j;
      j := tmp;
      if i == origPtr { break; }
    }
  }

  lemma PermutationInside(P: seq<int>)
    requires IsPermutation(P, |P|)
    ensures forall k :: 0 <= k < |P| ==> 0 <= P[k] < |P|
  {
  }

  lemma TurningShape(ll: seq<int>, P: seq<int>, path: seq<int>)
    requires Turning(ll, P, path)
    ensures (forall k :: 0 <= k < |path| ==> 0 <= path[k] < |P|) &&
            forall j, k :: 0 <= j < k < |path| ==> path[j] != path[k]
  {
  }

  lemma Begins(ll: seq<int>, P: seq<int>, origPtr: nat)
    requires ll == P && origPtr < |P|
    ensures Turning(ll, P, [origPtr])
  {
  }

  lemma Closed(was: seq<int>, ll: seq<int>, P: seq<int>, path: seq<int>)
    requires Turning(was, P, path) && P[path[|path| - 1]] == path[0] && ll == was[path[0] := path[|path| - 1]]
    ensures CycleTurned(ll, P, path)
  {
    forall k | 0 <= k < |path| ensures P[path[k]] == path[if k + 1 < |path| then k + 1 else 0] {
      if k + 1 < |path| { assert path[k + 1] == P[path[k + 1 - 1]]; }
    }
  }

  /** The first pass of the small decoder: where every byte goes. */
  method BuildSlots(L: seq<int>, cftab: array<int>) returns (ll: array<int>)
    requires cftab.Length == 257 && (forall k :: 0 <= k < |L| ==> 0 <= L[k] < 256) &&
             forall c :: 0 <= c <= 256 ==> cftab[c] == Below(L, c)
    ensures fresh(ll) && ll[..] == Slots(L)
  {
    hide Slot, Below, Count;
    var cftabCopy := new int[257](i requires 0 <= i < 257 reads cftab => cftab[i]);
    ll := new int[|L|];
    var i := 0;
    assert L[..0] == [];
    NothingBefore();
    while i < |L|
      invariant 0 <= i <= |L| && (forall c :: 0 <= c < 256 ==> cftabCopy[c] == Below(L, c) + Count(L[..i], c)) &&
                forall k :: 0 <= k < i ==> ll[k] == Slot(L, k)
    {
      SlotIs(L, i);
      forall c ensures Count(L[..i+1], c) == Count(L[..i], c) + if L[i] == c then 1 else 0 { CountPrefix(L, i, c); }
      ll[i] := cftabCopy[L[i]];
      cftabCopy[L[i]] := cftabCopy[L[i]] + 1;
      i := i + 1;
    }
  }

  /** On the cycle that has been turned round, ll holds the links. */
  lemma CycleLinks(L: seq<int>, T: seq<int>, ll: seq<int>, cycle: seq<int>, k: nat)
    requires Links(L, T) && CycleTurned(ll, Slots(L), cycle) && k < |cycle|
    ensures ll[cycle[k]] == T[cycle[k]] == cycle[if k > 0 then k - 1 else |cycle| - 1]
  {
    hide Slot;
    var i := cycle[if k > 0 then k - 1 else |cycle| - 1];
    assert Slots(L)[i] == cycle[k] == Slot(L, i);
  }

  /** The byte at a place of the sorted column, found by bisection of the cumulative table. */
  lemma SortedByte(L: seq<int>, T: seq<int>, p: nat, c: nat)
    requires Links(L, T) && p < |L| && Below(L, c) <= p < Below(L, c + 1)
    ensures 0 <= T[p] < |L| && L[T[p]] == c
  {
    hide Slot;
    LinkFrom(L, T, p);
    SlotInBucket(L, T[p]);
    if L[T[p]] < c { BelowMonotone(L, L[T[p]] + 1, c); }
    if c < L[T[p]] { BelowMonotone(L, c + 1, L[T[p]]); }
  }

  /** The walk of BZ_GET_SMALL. */
  method WalkSmall(ll: array<int>, cftab: array<int>, origPtr: nat, ghost b: seq<int>, ghost ptr: seq<int>,
                   ghost T: seq<int>, ghost cycle: seq<int>)
    returns (out: seq<int>)
    requires Sorted(b, ptr) && origPtr < |b| && ptr[origPtr] == 0 && Links(LastColumn(ptr, b), T)
    requires (forall k :: 0 <= k < |b| ==> 0 <= b[k] < 256) && cftab.Length == 257 &&
             forall c :: 0 <= c <= 256 ==> cftab[c] == Below(LastColumn(ptr, b), c)
    requires CycleTurned(ll[..], Slots(LastColumn(ptr, b)), cycle) && cycle[0] == origPtr
    ensures out == b
  {
    hide LastColumn, Cmp, OrderedBy, Links, Slots, Below, CycleTurned;
    ghost var L := LastColumn(ptr, b);
    StartsAt(b, ptr, origPtr);
    TurnedShape(ll[..], Slots(L), cycle);
    out := [];
    var tPos := origPtr;
    ghost var k := 0;
    while |out| < ll.Length
      invariant |out| <= |b| && out == b[..|out|] && At(b, ptr, tPos, |out|) && 0 <= k < |cycle| && tPos == cycle[k]
    {
      WalkStep(b, ptr, T, tPos, |out|);
      BelowAll(b, ptr);
      var c := Decompressor.IndexIntoF(tPos, cftab[..]);
      SortedByte(L, T, tPos, c);
      CycleLinks(L, T, ll[..], cycle, k);
      out := out + [c];
      tPos := ll[tPos];
      k := if k > 0 then k - 1 else |cycle| - 1;
    }
    assert b[..|b|] == b;
  }

  lemma TurnedShape(ll: seq<int>, P: seq<int>, cycle: seq<int>)
    requires CycleTurned(ll, P, cycle)
    ensures |ll| == |P| && |cycle| >= 1 && forall k :: 0 <= k < |cycle| ==> 0 <= cycle[k] < |P|
  {
  }

  lemma BelowAll(b: seq<int>, ptr: seq<int>)
    requires Sorted(b, ptr) && forall k :: 0 <= k < |b| ==> 0 <= b[k] < 256
    ensures Below(LastColumn(ptr, b), 0) == 0 && Below(LastColumn(ptr, b), 256) == |b|
  {
    BelowExtremes(LastColumn(ptr, b), 0, 256);
  }

  /** Both set-ups and both walks give the block back. tt holds the last column and unzftab
      its byte counts. */
  method Invert(tt: array<int>, nblock: nat, unzftab: array<int>, origPtr: nat, small: bool, ghost b: seq<int>,
                ghost ptr: seq<int>)
    returns (out: seq<int>)
    requires nblock <= tt.Length && Sorted(b, ptr) && origPtr < |b| && ptr[origPtr] == 0 &&
             tt[..nblock] == LastColumn(ptr, b) && forall k :: 0 <= k < |b| ==> 0 <= b[k] < 256
    requires unzftab.Length == 256 && forall c :: 0 <= c < 256 ==> unzftab[c] == Count(tt[..nblock], c)
    modifies tt
    ensures out == b
  {
    hide Linked, Slots, CycleTurned, Links, OrderedBy, Below;
    var L := tt[..nblock];
    NothingLinked(L);
    var cftab := MakeCftab(unzftab, L);
    if small {
      ghost var T := SomeLinks(L);
      SlotsPermutation(L);
      var ll := BuildSlots(L, cftab);
      ghost var cycle := TurnRound(ll, origPtr, Slots(L));
      out := WalkSmall(ll, cftab, origPtr, b, ptr, T, cycle);
    } else {
      BuildLinks(tt, nblock, cftab, L);
      out := Walk(tt, nblock, origPtr, b, ptr);
    }
  }

  lemma NothingLinked(L: seq<int>)
    requires forall k :: 0 <= k < |L| ==> 0 <= L[k] < 256
    ensures Linked(L, L, 0)
  {
  }

  lemma SomeLinks(L: seq<int>) returns (T: seq<int>)
    ensures Links(L, T)
  {
    hide Slot;
    T := [];
    while |T| < |L|
      invariant |T| <= |L| && forall p :: 0 <= p < |T| ==> 0 <= T[p] < |L| && Slot(L, T[p]) == p
    {
      var i := StablePartition.SlotHit(L, |T|);
      T := T + [i];
    }
    forall i | 0 <= i < |L| ensures 0 <= Slot(L, i) < |L| && T[Slot(L, i)] == i {
      SlotInside(L, i);
      if T[Slot(L, i)] != i { SlotOrder(L, T[Slot(L, i)], i); }
    }
  }
}
