/** The order in which mainSort of blocksort.c takes the big buckets: by size, smallest first,
    found by a shell sort of the 256 byte values. */
module RunningOrder {
  import opened Rearrangement
  import opened SortingByParts

  /** The size of a big bucket, before any small bucket has been marked. */
  function BigFreq(ftab: seq<int>, c: int): int
    requires |ftab| == 65537 && 0 <= c < 256
  {
    ftab[256 * (c + 1)] - ftab[256 * c]
  }

  ghost predicate Bytes(s: seq<int>) {
    |s| == 256 && forall k :: 0 <= k < 256 ==> 0 <= s[k] < 256
  }

  /** The first m entries are in order of size. */
  ghost predicate BySize(ftab: seq<int>, s: seq<int>, m: int) {
    |ftab| == 65537 && Bytes(s) && m <= 256 &&
      forall j, k :: 0 <= j < k < m ==> BigFreq(ftab, s[j]) <= BigFreq(ftab, s[k])
  }

  /** Entry k has moved up from k - 1, since it is larger than vv. */
  ghost predicate UpOne(ftab: seq<int>, was: seq<int>, s: seq<int>, k: int, vv: int) {
    |ftab| == 65537 && Bytes(was) && |s| == 256 && 0 < k < 256 && 0 <= vv < 256 && s[k] == was[k - 1] &&
      BigFreq(ftab, was[k - 1]) > BigFreq(ftab, vv)
  }

  /** Entry vv has been lifted out of position i, and the larger ones from j on have moved up. */
  ghost predicate Moved(ftab: seq<int>, was: seq<int>, s: seq<int>, i: int, j: int, vv: int) {
    && |ftab| == 65537 && Bytes(was) && |s| == 256 && 0 <= j <= i < 256 && 0 <= vv < 256
    && (forall k :: 0 <= k < j ==> s[k] == was[k]) && (forall k :: i < k < 256 ==> s[k] == was[k])
    && (forall k {:trigger UpOne(ftab, was, s, k, vv)} :: j < k <= i ==> UpOne(ftab, was, s, k, vv))
  }

  lemma MovedStep(ftab: seq<int>, was: seq<int>, s: seq<int>, i: int, j: int, vv: int)
    requires Moved(ftab, was, s, i, j, vv) && j > 0 && 0 <= s[j - 1] < 256 &&
             BigFreq(ftab, s[j - 1]) > BigFreq(ftab, vv)
    ensures Moved(ftab, was, s[j := s[j - 1]], i, j - 1, vv)
  {
    var s' := s[j := s[j - 1]];
    forall k {:trigger UpOne(ftab, was, s', k, vv)} | j - 1 < k <= i ensures UpOne(ftab, was, s', k, vv) {
      if k > j { assert UpOne(ftab, was, s, k, vv); }
    }
  }

  lemma Placed(ftab: seq<int>, was: seq<int>, s: seq<int>, i: int, j: int, vv: int)
    requires Moved(ftab, was, s, i, j, vv) && BySize(ftab, was, i) &&
             (j > 0 ==> BigFreq(ftab, s[j - 1]) <= BigFreq(ftab, vv))
    ensures BySize(ftab, s[j := vv], i + 1)
  {
    var t := s[j := vv];
    forall k | 0 <= k <= i ensures t[k] == if k < j then was[k] else if k == j then vv else was[k - 1] {
      if k > j { assert UpOne(ftab, was, s, k, vv); }
    }
    forall k | 0 <= k < 256 ensures 0 <= t[k] < 256 {
      if k < j || k > i {
        assert t[k] == s[k] == was[k]; } else if k > j { assert UpOne(ftab, was, s, k, vv) && t[k] == was[k - 1];
      }
    }
    forall p, q | 0 <= p < q < i + 1 ensures BigFreq(ftab, t[p]) <= BigFreq(ftab, t[q]) {
      var p', q' := if p < j then p else p - 1, if q < j then q else q - 1;
      if p == j {
        assert UpOne(ftab, was, s, q, vv) && t[q] == was[q - 1];
      } else if q == j {
        assert s[j - 1] == was[j - 1] && t[p] == was[p];
        assert p == j - 1 || BigFreq(ftab, was[p]) <= BigFreq(ftab, was[j - 1]);
      } else {
        assert t[p] == was[p'] && t[q] == was[q'] && p' < q' < i;
      }
    }
  }

  lemma StillBytes(s0: seq<int>, s: seq<int>)
    requires Bytes(s0) && Rearranged(s0, s, 0, 256)
    ensures Bytes(s)
  {
    forall k | 0 <= k < 256 ensures 0 <= s[k] < 256 {
      var j := RearrangedFrom(s0, s, 0, 256, k);
    }
  }

  lemma HoleBytes(s0: seq<int>, s: seq<int>, hole: int, tmp: int)
    requires Bytes(s0) && HasHole(s0, s, hole, tmp, 0, 255)
    ensures |s| == 256 && 0 <= tmp < 256 && forall k :: 0 <= k < 256 && k != hole ==> 0 <= s[k] < 256
  {
    StillBytes(s0, s[hole := tmp]);
    assert s[hole := tmp][hole] == tmp;
    forall k | 0 <= k < 256 && k != hole ensures 0 <= s[k] < 256 { assert s[hole := tmp][k] == s[k]; }
  }

  /** Insert entry i among those h apart from it. */
  method Insert(runningOrder: array<int>, ftab: array<int>, h: int, i: int)
    requires runningOrder != ftab && ftab.Length == 65537 && Bytes(runningOrder[..]) && 1 <= h <= i < 256
    modifies runningOrder
    ensures Bytes(runningOrder[..]) && Rearranged(old(runningOrder[..]), runningOrder[..], 0, 256)
    ensures h == 1 && BySize(ftab[..], old(runningOrder[..]), i) ==> BySize(ftab[..], runningOrder[..], i + 1)
  {
    hide Rearranged, HasHole, Moved;
    ghost var was := runningOrder[..];
    var vv := runningOrder[i];
    var j := i;
    Lifted(was, i, vv);
    while BigFreq(ftab[..], runningOrder[j - h]) > BigFreq(ftab[..], vv)
      invariant h <= j <= i && HasHole(was, runningOrder[..], j, vv, 0, 255) && 0 <= runningOrder[j - h] < 256
      invariant h == 1 ==> Moved(ftab[..], was, runningOrder[..], i, j, vv)
      decreases j
    {
      ghost var s := runningOrder[..];
      if h == 1 { MovedStep(ftab[..], was, s, i, j, vv); }
      MoveIntoHole(runningOrder, j, j - h, vv, was, 0, 255);
      j := j - h;
      HoleBytes(was, runningOrder[..], j, vv);
      if j <= h - 1 { break; }
    }
    if h == 1 && BySize(ftab[..], was, i) { Placed(ftab[..], was, runningOrder[..], i, j, vv); }
    FillHole(runningOrder, j, vv, was, 0, 255);
    StillBytes(was, runningOrder[..]);
  }

  lemma Lifted(was: seq<int>, i: int, vv: int)
    requires Bytes(was) && 0 <= i < 256 && vv == was[i]
    ensures HasHole(was, was, i, vv, 0, 255) &&
            forall ftab: seq<int> :: |ftab| == 65537 ==> Moved(ftab, was, was, i, i, vv)
  {
    assert was[i := vv] == was;
  }

  /** One pass of the shell sort. */
  method Pass(runningOrder: array<int>, ftab: array<int>, h: int)
    requires runningOrder != ftab && ftab.Length == 65537 && IsPermutation(runningOrder[..], 256) && 1 <= h <= 256
    modifies runningOrder
    ensures IsPermutation(runningOrder[..], 256) && (h == 1 ==> BySize(ftab[..], runningOrder[..], 256))
  {
    var i := h;
    while i <= 255
      invariant h <= i <= 256 && IsPermutation(runningOrder[..], 256) &&
                (h == 1 ==> BySize(ftab[..], runningOrder[..], i))
    {
      ghost var was := runningOrder[..];
      Insert(runningOrder, ftab, h, i);
      RearrangedPermutation(was, runningOrder[..], 256);
      i := i + 1;
    }
  }

  /** Every byte value comes once, and smaller big buckets come before larger ones. */
  method SmallestFirst(ftab: array<int>) returns (runningOrder: array<int>)
    requires ftab.Length == 65537
    ensures fresh(runningOrder) && IsPermutation(runningOrder[..], 256) && BySize(ftab[..], runningOrder[..], 256)
  {
    runningOrder := new int[256](i => i);
    var h := 1;
    h := 3 * h + 1;
    while h <= 256
      invariant h in {4, 13, 40, 121, 364}
      decreases 400 - h
    {
      h := 3 * h + 1;
    }
    while true
      invariant h in {364, 121, 40, 13, 4} && IsPermutation(runningOrder[..], 256)
      decreases h
    {
      h := h / 3;
      Pass(runningOrder, ftab, h);
      if h == 1 { break; }
    }
  }
}
