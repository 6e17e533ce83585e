/** The loops of step 2 of mainSort. */
module BucketScan {
  import opened BucketSynthesis
  import opened BytePairs
  import opened MainSimpleSort
  import opened PredecessorScan
  import opened Rotations
  import opened SmallBuckets
  import opened SmallSorting

  /** Where the small buckets [j, ss] begin and end. */
  method CopyBounds(ftab: array<int>, ss: nat, ghost b: seq<int>, ghost done: seq<bool>, ghost big: seq<bool>)
    returns (copyStart: array<int>, copyEnd: array<int>)
    requires Marks(b, ftab[..], done) && ss < 256 && |big| == 256
    ensures fresh(copyStart) && fresh(copyEnd) && copyStart != copyEnd
    ensures CursorsUp(b, big, ss, copyStart[..], []) && CursorsDown(b, big, ss, copyEnd[..], [])
  {
    hide Start, Marks;
    MarksSize(b, ftab[..], done);
    copyStart, copyEnd := new int[256], new int[256];
    var j := 0;
    while j <= 255
      invariant 0 <= j <= 256
      invariant forall c ::
                  0 <= c < j ==>
                    copyStart[c] == Start(b, 256 * c + ss) && copyEnd[c] == Start(b, 256 * c + ss + 1) - 1
    {
      MarkAt(b, ftab[..], done, 256 * j + ss);
      MarkAt(b, ftab[..], done, 256 * j + ss + 1);
      copyStart[j] := Clear(ftab[256 * j + ss]);
      copyEnd[j] := Clear(ftab[256 * j + ss + 1]) - 1;
      j := j + 1;
    }
    forall c ensures Preds(b, [], c) == [] { PredsNone(b, c); }
  }

  /** What both loops work on. */
  ghost predicate Fixed(b: seq<int>, block: seq<int>, ptr0: seq<int>, ss: int) {
    |b| <= |block| && block[..|b|] == b && IsBytes(b) && |ptr0| == |b| && 0 <= ss < 256
  }

  lemma BlockByte(b: seq<int>, block: seq<int>, k: int)
    requires |b| <= |block| && block[..|b|] == b && 0 <= k < |b|
    ensures block[k] == b[k]
  {
    assert block[k] == block[..|b|][k];
  }

  lemma UpwardShape(b: seq<int>, rank: seq<int>, ptr: seq<int>, ptr0: seq<int>, big: seq<bool>, ss: int, W: seq<int>,
                    i: nat, copyStart: seq<int>)
    requires Upward(b, rank, ptr, ptr0, big, ss, W, i, copyStart)
    ensures |ptr| == |b| && |big| == |copyStart| == 256 && i <= |W| && Within(W, |b|)
  {
  }

  lemma UpwardRead(b: seq<int>, rank: seq<int>, ptr: seq<int>, ptr0: seq<int>, big: seq<bool>, ss: int, W: seq<int>,
                   i: nat, copyStart: seq<int>)
    requires Upward(b, rank, ptr, ptr0, big, ss, W, i, copyStart) && |W| == i
    ensures Scan(b, rank, ss, true, FrontOf(b, ptr0, ss), W, |W|) && AllSide(b, W, ss, true) &&
            Placing(b, ptr, ptr0, big, ss, W, [])
  {
    assert W[..i] == W;
  }

  lemma UpwardEntry(b: seq<int>, rank: seq<int>, ptr: seq<int>, ptr0: seq<int>, big: seq<bool>, ss: int, W: seq<int>,
                    i: nat, copyStart: seq<int>)
    requires Upward(b, rank, ptr, ptr0, big, ss, W, i, copyStart) && i < |W|
    ensures 0 <= Start(b, 256 * ss) + i < |ptr| && ptr[Start(b, 256 * ss) + i] == W[i]
  {
    hide Start, Upward;
    UpwardList(b, rank, ptr, ptr0, big, ss, W, i, copyStart);
    var w := W[i];
  }

  /** One turn of the forward loop. */
  method ReadUp(ptr: array<int>, block: seq<int>, bigDone: array<bool>, copyStart: array<int>, nblock: nat, j: int,
                ghost b: seq<int>, ghost rank: seq<int>, ghost ptr0: seq<int>, ghost ss: int, ghost W0: seq<int>,
                ghost i: nat)
    returns (ghost W: seq<int>)
    requires nblock == |b| && Fixed(b, block, ptr0, ss) && Orders(b, rank) &&
             FrontOk(b, rank, ss, true, FrontOf(b, ptr0, ss)) && ptr != copyStart
    requires bigDone.Length == 256 && copyStart.Length == 256 &&
             Upward(b, rank, ptr[..], ptr0, bigDone[..], ss, W0, i, copyStart[..])
    requires j == Start(b, 256 * ss) + i < copyStart[ss]
    modifies ptr, copyStart
    ensures Upward(b, rank, ptr[..], ptr0, bigDone[..], ss, W, i + 1, copyStart[..])
  {
    hide Start, Upward, FrontOk, Orders, Grown;
    UpwardList(b, rank, ptr[..], ptr0, bigDone[..], ss, W0, i, copyStart[..]);
    UpwardShape(b, rank, ptr[..], ptr0, bigDone[..], ss, W0, i, copyStart[..]);
    assert copyStart[..][ss] == copyStart[ss] && i < |W0|;
    UpwardEntry(b, rank, ptr[..], ptr0, bigDone[..], ss, W0, i, copyStart[..]);
    assert ptr[..][j] == W0[i];
    var k := ptr[j] - 1;
    if k < 0 { k := k + nblock; }
    assert k == Prev(nblock, W0[i]);
    BlockByte(b, block, k);
    var c1 := block[k];
    W := Grown(b, W0, i, ss);
    UpwardStep(b, rank, ptr[..], ptr0, bigDone[..], ss, W0, i, copyStart[..], c1);
    if !bigDone[c1] {
      ghost var p, c := ptr[..], copyStart[..];
      ptr[copyStart[c1]] := k;
      copyStart[c1] := copyStart[c1] + 1;
      assert ptr[..] == p[c[c1] := k] && copyStart[..] == c[c1 := c[c1] + 1];
    }
  }

  /** The forward loop. */
  method ScanUp(ptr: array<int>, block: seq<int>, bigDone: array<bool>, copyStart: array<int>, nblock: nat,
                first: int, ss: nat, ghost b: seq<int>, ghost rank: seq<int>, ghost ptr0: seq<int>)
    returns (ghost W: seq<int>)
    requires nblock == |b| && Fixed(b, block, ptr0, ss) && Orders(b, rank) &&
             FrontOk(b, rank, ss, true, FrontOf(b, ptr0, ss)) && ptr != copyStart
    requires bigDone.Length == 256 && copyStart.Length == 256 && !bigDone[ss] && ptr[..] == ptr0
    requires CursorsUp(b, bigDone[..], ss, copyStart[..], []) && first == Start(b, 256 * ss)
    modifies ptr, copyStart
    ensures Upward(b, rank, ptr[..], ptr0, bigDone[..], ss, W, |W|, copyStart[..])
  {
    hide Start, Upward, FrontOk, Orders, CursorsUp, Placing, Scan;
    W := FrontOf(b, ptr0, ss);
    UpwardBegins(b, rank, ptr0, bigDone[..], ss, copyStart[..]);
    UpwardList(b, rank, ptr[..], ptr0, bigDone[..], ss, W, 0, copyStart[..]);
    ghost var i := 0;
    var j := first;
    while j < copyStart[ss]
      invariant i <= |W| && j == first + i && Upward(b, rank, ptr[..], ptr0, bigDone[..], ss, W, i, copyStart[..])
      invariant copyStart[ss] == first + |W| <= Start(b, 256 * ss + ss + 1)
      decreases Start(b, 256 * ss + ss + 1) - j
    {
      W := ReadUp(ptr, block, bigDone, copyStart, nblock, j, b, rank, ptr0, ss, W, i);
      i := i + 1;
      UpwardList(b, rank, ptr[..], ptr0, bigDone[..], ss, W, i, copyStart[..]);
      UpwardShape(b, rank, ptr[..], ptr0, bigDone[..], ss, W, i, copyStart[..]);
      j := j + 1;
    }
  }

  lemma UpwardBegins(b: seq<int>, rank: seq<int>, ptr0: seq<int>, big: seq<bool>, ss: int, copyStart: seq<int>)
    requires |ptr0| == |b| && |big| == 256 && 0 <= ss < 256 && !big[ss] &&
             FrontOk(b, rank, ss, true, FrontOf(b, ptr0, ss)) && CursorsUp(b, big, ss, copyStart, [])
    ensures Upward(b, rank, ptr0, ptr0, big, ss, FrontOf(b, ptr0, ss), 0, copyStart)
  {
    hide Start, Scan, FrontOk, Placing, CursorsUp;
    var front := FrontOf(b, ptr0, ss);
    ScanBegin(b, rank, ss, true, front);
    PlacingBegins(b, ptr0, big, ss);
    assert front[..0] == [];
  }

  lemma DownwardShape(b: seq<int>, rank: seq<int>, ptr: seq<int>, ptr0: seq<int>, big: seq<bool>, ss: int,
                      W: seq<int>, V: seq<int>, i: nat, copyEnd: seq<int>)
    requires Downward(b, rank, ptr, ptr0, big, ss, W, V, i, copyEnd)
    ensures |ptr| == |b| && |big| == |copyEnd| == 256 && i <= |V| && Within(V, |b|)
  {
  }

  /** One turn of the backward loop. */
  method ReadDown(ptr: array<int>, block: seq<int>, bigDone: array<bool>, copyEnd: array<int>, nblock: nat, j: int,
                  ghost b: seq<int>, ghost rank: seq<int>, ghost ptr0: seq<int>, ghost ss: int, ghost W: seq<int>,
                  ghost V0: seq<int>, ghost i: nat)
    returns (ghost V: seq<int>)
    requires nblock == |b| && Fixed(b, block, ptr0, ss) && Orders(b, rank) &&
             FrontOk(b, Negated(rank), ss, false, BackOf(b, ptr0, ss)) && ptr != copyEnd
    requires bigDone.Length == 256 && copyEnd.Length == 256 &&
             Downward(b, rank, ptr[..], ptr0, bigDone[..], ss, W, V0, i, copyEnd[..])
    requires j == Start(b, 256 * ss + 256) - 1 - i > copyEnd[ss]
    modifies ptr, copyEnd
    ensures Downward(b, rank, ptr[..], ptr0, bigDone[..], ss, W, V, i + 1, copyEnd[..])
  {
    hide Start, Downward, FrontOk, Orders, Grown;
    DownwardList(b, rank, ptr[..], ptr0, bigDone[..], ss, W, V0, i, copyEnd[..]);
    DownwardShape(b, rank, ptr[..], ptr0, bigDone[..], ss, W, V0, i, copyEnd[..]);
    ghost var y := V0[i];
    assert j == Start(b, 256 * ss + 256) - 1 - i && 0 <= j < |ptr[..]| && ptr[..][j] == y;
    var k := ptr[j] - 1;
    if k < 0 { k := k + nblock; }
    assert k == Prev(nblock, V0[i]);
    BlockByte(b, block, k);
    var c1 := block[k];
    V := Grown(b, V0, i, ss);
    DownwardStep(b, rank, ptr[..], ptr0, bigDone[..], ss, W, V0, i, copyEnd[..], c1);
    if !bigDone[c1] {
      ghost var p, c := ptr[..], copyEnd[..];
      ptr[copyEnd[c1]] := k;
      copyEnd[c1] := copyEnd[c1] - 1;
      assert ptr[..] == p[c[c1] := k] && copyEnd[..] == c[c1 := c[c1] - 1];
    }
  }

  /** The backward loop. */
  method ScanDown(ptr: array<int>, block: seq<int>, bigDone: array<bool>, copyEnd: array<int>, nblock: nat, last: int,
                  ss: nat, ghost b: seq<int>, ghost rank: seq<int>, ghost ptr0: seq<int>, ghost W: seq<int>)
    returns (ghost V: seq<int>)
    requires nblock == |b| && Fixed(b, block, ptr0, ss) && Orders(b, rank) &&
             FrontOk(b, Negated(rank), ss, false, BackOf(b, ptr0, ss)) && ptr != copyEnd
    requires bigDone.Length == 256 && copyEnd.Length == 256 && !bigDone[ss] && AllSide(b, W, ss, true) &&
             Placing(b, ptr[..], ptr0, bigDone[..], ss, W, [])
    requires CursorsDown(b, bigDone[..], ss, copyEnd[..], []) && last == Start(b, 256 * ss + 256) - 1
    modifies ptr, copyEnd
    ensures Downward(b, rank, ptr[..], ptr0, bigDone[..], ss, W, V, |V|, copyEnd[..])
  {
    hide Start, Downward, FrontOk, Orders, CursorsDown, Placing, Scan, AllSide;
    V := BackOf(b, ptr0, ss);
    DownwardBegins(b, rank, ptr[..], ptr0, bigDone[..], ss, W, copyEnd[..]);
    DownwardList(b, rank, ptr[..], ptr0, bigDone[..], ss, W, V, 0, copyEnd[..]);
    ghost var i := 0;
    var j := last;
    while j > copyEnd[ss]
      invariant i <= |V| && j == last - i && Downward(b, rank, ptr[..], ptr0, bigDone[..], ss, W, V, i, copyEnd[..])
      invariant copyEnd[ss] == last - |V| >= Start(b, 256 * ss + ss) - 1
      decreases j - Start(b, 256 * ss + ss) + 1
    {
      V := ReadDown(ptr, block, bigDone, copyEnd, nblock, j, b, rank, ptr0, ss, W, V, i);
      i := i + 1;
      DownwardList(b, rank, ptr[..], ptr0, bigDone[..], ss, W, V, i, copyEnd[..]);
      DownwardShape(b, rank, ptr[..], ptr0, bigDone[..], ss, W, V, i, copyEnd[..]);
      j := j - 1;
    }
  }

  lemma DownwardBegins(b: seq<int>, rank: seq<int>, ptr: seq<int>, ptr0: seq<int>, big: seq<bool>, ss: int,
                       W: seq<int>, copyEnd: seq<int>)
    requires |ptr0| == |b| && |big| == 256 && 0 <= ss < 256 && !big[ss] &&
             FrontOk(b, Negated(rank), ss, false, BackOf(b, ptr0, ss)) && CursorsDown(b, big, ss, copyEnd, [])
    requires AllSide(b, W, ss, true) && Placing(b, ptr, ptr0, big, ss, W, [])
    ensures Downward(b, rank, ptr, ptr0, big, ss, W, BackOf(b, ptr0, ss), 0, copyEnd)
  {
    hide Start, Scan, FrontOk, Placing, CursorsDown;
    var back := BackOf(b, ptr0, ss);
    ScanBegin(b, Negated(rank), ss, false, back);
    assert back[..0] == [];
  }

  lemma DownwardRead(b: seq<int>, rank: seq<int>, ptr: seq<int>, ptr0: seq<int>, big: seq<bool>, ss: int, W: seq<int>,
                     V: seq<int>, copyEnd: seq<int>)
    requires Downward(b, rank, ptr, ptr0, big, ss, W, V, |V|, copyEnd) &&
             Scan(b, rank, ss, true, FrontOf(b, ptr0, ss), W, |W|)
    ensures Synthesised(b, rank, ptr, ptr0, big, ss, W, V) && CursorsDown(b, big, ss, copyEnd, V)
  {
    assert V[..|V|] == V;
  }

  /** Mark the small buckets [j, ss]. */
  method MarkColumn(ftab: array<int>, ss: nat, ghost b: seq<int>, ghost done0: seq<bool>)
    requires Marks(b, ftab[..], done0) && ss < 256
    modifies ftab
    ensures |done0| == 65537 && Marks(b, ftab[..], Added(done0, ss))
  {
    hide Marks, Start;
    MarksSize(b, ftab[..], done0);
    ghost var done := done0;
    var j := 0;
    while j <= 255
      invariant 0 <= j <= 256 && |done| == 65537 && Marks(b, ftab[..], done)
      invariant forall v :: 0 <= v < 65537 ==> done[v] == (done0[v] || (v < 256 * j && v % 256 == ss))
    {
      MarkAt(b, ftab[..], done, 256 * j + ss);
      ftab[256 * j + ss] := Set(ftab[256 * j + ss]);
      ghost var was := done;
      done := done[256 * j + ss := true];
      ColumnStep(was, done, done0, ss, j);
      j := j + 1;
    }
    assert done == Added(done0, ss);
  }

  lemma ColumnStep(was: seq<bool>, now: seq<bool>, done0: seq<bool>, ss: nat, j: nat)
    requires |was| == |done0| == 65537 && ss < 256 && j < 256 && now == was[256 * j + ss := true]
    requires forall v :: 0 <= v < 65537 ==> was[v] == (done0[v] || (v < 256 * j && v % 256 == ss))
    ensures forall v :: 0 <= v < 65537 ==> now[v] == (done0[v] || (v < 256 * (j + 1) && v % 256 == ss))
  {
    assert (256 * j + ss) % 256 == ss;
    forall v | 256 * j <= v < 256 * (j + 1) ensures v % 256 == v - 256 * j {}
  }

  /** Step 2 as a whole. Assertion 1007 holds. */
  method SynthesiseBuckets(ptr: array<int>, block: seq<int>, nblock: nat, ftab: array<int>, bigDone: array<bool>,
                           ss: nat, ghost b: seq<int>, ghost done: seq<bool>)
    requires nblock == |b| <= |block| && block[..|b|] == b && Sorting(b, ptr[..], done) && Marks(b, ftab[..], done) &&
             ss < 256 && ptr != ftab
    requires bigDone.Length == 256 && !bigDone[ss] && BigDone(bigDone[..], done) && SmallDone(done, ss)
    modifies ptr, ftab
    ensures |done| == 65537 && Sorting(b, ptr[..], Added(done, ss)) && Marks(b, ftab[..], Added(done, ss))
  {
    hide Start, Grouped, DoneOrdered, FrontOk, Orders, CursorsUp, CursorsDown, Placing, Scan, AllSide, Upward,
         Downward, Marks, SmallDone, BigDone, Added, Synthesised, Ranks;
    ghost var rank, ptr0, big := Ranks(b), ptr[..], bigDone[..];
    RanksOrder(b);
    MarksSize(b, ftab[..], done);
    GroupedLength(b, ptr0);
    FrontIsOk(b, rank, ptr0, done, ss);
    BackIsOk(b, rank, ptr0, done, ss);
    var copyStart, copyEnd := CopyBounds(ftab, ss, b, done, big);
    CursorsSize(b, big, ss, copyStart[..], copyEnd[..]);
    MarkAt(b, ftab[..], done, 256 * ss);
    MarkAt(b, ftab[..], done, 256 * (ss + 1));
    ghost var W := ScanUp(ptr, block, bigDone, copyStart, nblock, Clear(ftab[256 * ss]), ss, b, rank, ptr0);
    UpwardRead(b, rank, ptr[..], ptr0, big, ss, W, |W|, copyStart[..]);
    UpwardEnd(b, rank, ptr[..], ptr0, big, ss, W, copyStart[..]);
    ghost var V := ScanDown(ptr, block, bigDone, copyEnd, nblock, Clear(ftab[256 * (ss + 1)]) -
        1, ss, b, rank, ptr0, W);
    DownwardRead(b, rank, ptr[..], ptr0, big, ss, W, V, copyEnd[..]);
    CursorDownAt(b, big, ss, copyEnd[..], V, ss);
    CursorsMeet(b, rank, ptr[..], ptr0, big, ss, W, V, copyStart[ss], copyEnd[ss]);
    assert copyStart[ss] - 1 == copyEnd[ss] || (copyStart[ss] == 0 && copyEnd[ss] == nblock - 1);
    SynthesisKeeps(b, rank, ptr[..], ptr0, big, ss, W, V, done);
    MarkColumn(ftab, ss, b, done);
  }

  lemma CursorsSize(b: seq<int>, big: seq<bool>, ss: int, copyStart: seq<int>, copyEnd: seq<int>)
    requires CursorsUp(b, big, ss, copyStart, []) && CursorsDown(b, big, ss, copyEnd, [])
    ensures |copyStart| == |copyEnd| == 256
  {
  }

  lemma UpwardEnd(b: seq<int>, rank: seq<int>, ptr: seq<int>, ptr0: seq<int>, big: seq<bool>, ss: int, W: seq<int>,
                  copyStart: seq<int>)
    requires Upward(b, rank, ptr, ptr0, big, ss, W, |W|, copyStart)
    ensures |copyStart| == 256 && 0 <= ss < 256 && Within(W, |b|) &&
            copyStart[ss] == Start(b, 256 * ss + ss) + |Preds(b, W, ss)|
  {
    assert W[..|W|] == W;
  }
}
