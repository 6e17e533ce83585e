/** Cyclic rotations of a block and their lexicographic order: the specification both of
    bzip2's block sorters are proved against. */
module Rotations {

  predicate IsBytes(b: seq<int>) {
    forall i :: 0 <= i < |b| ==> 0 <= b[i] < 256
  }

  /** Position d bytes further round the block, for at most one full turn. */
  function Advance(n: nat, i: nat, d: nat): (r: nat)
    requires i < n && d <= n
    ensures r < n
  {
    if i + d >= n then i + d - n else i + d
  }

  /** Sign of the comparison of the first d bytes of the rotations starting at i and j. */
  function Cmp(b: seq<int>, i: nat, j: nat, d: nat): int
    requires i < |b| && j < |b|
    decreases d
  {
    if d == 0 then 0
    else if b[i] < b[j] then -1
    else if b[i] > b[j] then 1
    else Cmp(b, Advance(|b|, i, 1), Advance(|b|, j, 1), d - 1)
  }

  lemma {:induction false} CmpAntisymmetric(b: seq<int>, i: nat, j: nat, d: nat)
    requires i < |b| && j < |b|
    ensures Cmp(b, i, j, d) == -Cmp(b, j, i, d)
    decreases d
  {
    if d > 0 {
      CmpAntisymmetric(b, Advance(|b|, i, 1), Advance(|b|, j, 1), d - 1);
    }
  }

  lemma {:induction false} CmpTransitive(b: seq<int>, i: nat, j: nat, k: nat, d: nat)
    requires i < |b| && j < |b| && k < |b|
    requires Cmp(b, i, j, d) <= 0 && Cmp(b, j, k, d) <= 0
    ensures Cmp(b, i, k, d) <= 0
    ensures Cmp(b, i, k, d) == 0 <==> Cmp(b, i, j, d) == 0 && Cmp(b, j, k, d) == 0
    decreases d
  {
    if d > 0 && b[i] == b[j] == b[k] {
      CmpTransitive(b, Advance(|b|, i, 1), Advance(|b|, j, 1), Advance(|b|, k, 1), d - 1);
    }
  }

  /** Comparing d + e bytes is comparing d bytes and, on a tie, the e bytes after them. */
  lemma {:induction false} CmpSplit(b: seq<int>, i: nat, j: nat, d: nat, e: nat)
    requires i < |b| && j < |b| && d <= |b|
    ensures Cmp(b, i, j, d + e) ==
            if Cmp(b, i, j, d) != 0 then Cmp(b, i, j, d)
            else Cmp(b, Advance(|b|, i, d), Advance(|b|, j, d), e)
    decreases d
  {
    if d > 0 {
      CmpSplit(b, Advance(|b|, i, 1), Advance(|b|, j, 1), d - 1, e);
    }
  }

  /** Two rotations that agree on the first d bytes agree on each of them. */
  lemma {:induction false} CmpTieByte(b: seq<int>, i: nat, j: nat, d: nat, m: nat)
    requires i < |b| && j < |b| && m < d <= |b|
    requires Cmp(b, i, j, d) == 0
    ensures b[Advance(|b|, i, m)] == b[Advance(|b|, j, m)]
    decreases d
  {
    if m > 0 {
      CmpTieByte(b, Advance(|b|, i, 1), Advance(|b|, j, 1), d - 1, m - 1);
    }
  }

  // ----- the order of whole rotations, as strings -----

  function Rotation(b: seq<int>, i: nat): (r: seq<int>)
    requires i < |b|
    ensures |r| == |b|
  {
    b[i..] + b[..i]
  }

  /** Plain lexicographic order on strings of equal length. */
  ghost predicate LexLeq(s: seq<int>, t: seq<int>)
    requires |s| == |t|
  {
    s == t || exists m :: 0 <= m < |s| && s[..m] == t[..m] && s[m] < t[m]
  }

  /** The rotations named at positions lo..hi of s are in lexicographic order. */
  ghost predicate SortedRotations(b: seq<int>, s: seq<int>, lo: int, hi: int) {
    && 0 <= lo && hi < |s| && (forall p :: lo <= p <= hi ==> 0 <= s[p] < |b|)
    && forall p, q :: lo <= p < q <= hi ==> LexLeq(Rotation(b, s[p]), Rotation(b, s[q]))
  }

  lemma RotationAt(b: seq<int>, i: nat, m: nat)
    requires i < |b| && m < |b|
    ensures Rotation(b, i)[m] == b[Advance(|b|, i, m)]
  {
  }

  lemma {:induction false} FirstDifference(b: seq<int>, i: nat, j: nat, d: nat) returns (m: nat)
    requires i < |b| && j < |b| && d <= |b|
    requires Cmp(b, i, j, d) < 0
    ensures m < d && Cmp(b, i, j, m) == 0
    ensures b[Advance(|b|, i, m)] < b[Advance(|b|, j, m)]
    decreases d
  {
    if b[i] < b[j] {
      m := 0;
    } else {
      m := FirstDifference(b, Advance(|b|, i, 1), Advance(|b|, j, 1), d - 1);
      m := m + 1;
    }
  }

  lemma TieIsEqualPrefix(b: seq<int>, i: nat, j: nat, d: nat)
    requires i < |b| && j < |b| && d <= |b|
    requires Cmp(b, i, j, d) == 0
    ensures Rotation(b, i)[..d] == Rotation(b, j)[..d]
  {
    forall m | 0 <= m < d
      ensures Rotation(b, i)[m] == Rotation(b, j)[m]
    {
      CmpTieByte(b, i, j, d, m);
      RotationAt(b, i, m);
      RotationAt(b, j, m);
    }
  }

  /** The bytewise comparison is the lexicographic order of the rotated strings. */
  lemma CmpIsLexicographic(b: seq<int>, i: nat, j: nat)
    requires i < |b| && j < |b|
    ensures Cmp(b, i, j, |b|) <= 0 <==> LexLeq(Rotation(b, i), Rotation(b, j))
  {
    var s, t, n := Rotation(b, i), Rotation(b, j), |b|;
    if Cmp(b, i, j, n) == 0 {
      TieIsEqualPrefix(b, i, j, n);
      assert s[..n] == s && t[..n] == t;
    } else if Cmp(b, i, j, n) < 0 {
      var m := FirstDifference(b, i, j, n);
      TieIsEqualPrefix(b, i, j, m);
      RotationAt(b, i, m);
      RotationAt(b, j, m);
    } else {
      CmpAntisymmetric(b, i, j, n);
      var m := FirstDifference(b, j, i, n);
      TieIsEqualPrefix(b, j, i, m);
      RotationAt(b, i, m);
      RotationAt(b, j, m);
      forall k | 0 <= k < n
        ensures s[..k] == t[..k] ==> s[k] >= t[k]
      {
        if m < k {
          assert s[..k][m] == s[m] && t[..k][m] == t[m];
        } else if k < m {
          assert s[..m][k] == t[..m][k];
        }
      }
    }
  }

  /** fmap lists every rotation once, in non-decreasing order of their first d bytes. */
  ghost predicate OrderedBy(b: seq<int>, fmap: seq<int>, d: nat)
  {
    && (forall p :: 0 <= p < |fmap| ==> 0 <= fmap[p] < |b|)
    && (forall p :: 0 < p < |fmap| ==> Cmp(b, fmap[p-1], fmap[p], d) <= 0)
  }

  lemma {:induction false} OrderedPairs(b: seq<int>, fmap: seq<int>, d: nat, p: nat, q: nat)
    requires OrderedBy(b, fmap, d) && p <= q < |fmap|
    ensures Cmp(b, fmap[p], fmap[q], d) <= 0
    decreases q
  {
    CmpAntisymmetric(b, fmap[p], fmap[p], d);
    if p < q {
      OrderedPairs(b, fmap, d, p, q - 1);
      CmpTransitive(b, fmap[p], fmap[q-1], fmap[q], d);
    }
  }
}
