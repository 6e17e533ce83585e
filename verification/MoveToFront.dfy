/** makeMaps_e and generateMTFValues of compress.c: the last column of the sorted rotations as
    move-to-front positions, with runs of zeros written as numbers in bijective base two. The
    codes are written over the array the sorted order is read from. */
module MoveToFront {
  import opened Counting
  import opened Rearrangement

  const RUNA := 0
  const RUNB := 1

  /** The list with its j-th entry moved to the front. */
  function MoveFront(yy: seq<int>, j: nat): (r: seq<int>)
    requires j < |yy|
    ensures |r| == |yy|
  {
    [yy[j]] + yy[..j] + yy[j+1..]
  }

  function Copies(x: int, n: nat): (r: seq<int>)
    ensures |r| == n && forall i :: 0 <= i < n ==> r[i] == x
  {
    seq(n, _ => x)
  }

  // ----- the reference decoder -----

  /** What has been decoded, the list, and the number being read: its value so far and the
      weight of its next digit. */
  datatype Reader = Reader(out: seq<int>, yy: seq<int>, run: nat, weight: nat)

  function Flushed(d: Reader): Reader {
    if |d.yy| == 0 then d.(run := 0, weight := 1) else Reader(d.out + Copies(d.yy[0], d.run), d.yy, 0, 1)
  }

  /** One code: a digit of a run length, or a position in the list after the run. */
  function Read(d: Reader, code: int): Reader {
    if code == RUNA then d.(run := d.run + d.weight, weight := 2 * d.weight)
    else if code == RUNB then d.(run := d.run + 2 * d.weight, weight := 2 * d.weight)
    else if 1 <= code - 1 < |d.yy| then
      var f := Flushed(d);
      Reader(f.out + [f.yy[code - 1]], MoveFront(f.yy, code - 1), 0, 1)
    else Flushed(d)
  }

  /** The list before the first code. */
  function Identity(n: nat): (r: seq<int>)
    ensures |r| == n && forall i :: 0 <= i < n ==> r[i] == i
  {
    seq(n, i => i)
  }

  function ReadAll(codes: seq<int>, nInUse: nat): Reader {
    if codes == [] then Reader([], Identity(nInUse), 0, 1)
    else Read(ReadAll(codes[..|codes|-1], nInUse), codes[|codes|-1])
  }

  lemma ReadSnoc(codes: seq<int>, c: int, nInUse: nat)
    ensures ReadAll(codes + [c], nInUse) == Read(ReadAll(codes, nInUse), c)
  {
    assert (codes + [c])[..|codes|] == codes;
  }

  // ----- the list -----

  /** The list is a rearrangement of 0 .. n - 1. */
  ghost predicate ListOk(yy: seq<int>, n: nat) {
    |yy| == n && Distinct(yy) && (forall i :: 0 <= i < n ==> 0 <= yy[i] < n) && forall x :: 0 <= x < n ==> x in yy
  }

  lemma MoveFrontOk(yy: seq<int>, n: nat, j: nat)
    requires ListOk(yy, n) && j < n
    ensures ListOk(MoveFront(yy, j), n)
  {
    var r := MoveFront(yy, j);
    forall x | 0 <= x < n ensures x in r {
      assert x in yy;
      var i :| 0 <= i < n && yy[i] == x;
      assert r[if i < j then i + 1 else if i == j then 0 else i] == x;
    }
    forall a, b | 0 <= a < b < n ensures r[a] != r[b] {
      assert r[a] == yy[From(a, j)] && r[b] == yy[From(b, j)];
    }
  }

  function From(a: nat, j: nat): nat {
    if a == 0 then j else if a <= j then a - 1 else a
  }

  /** Make room at the front by moving entries back one by one until the wanted one is met. */
  method BringToFront(yy: array<int>, n: nat, ll: int) returns (j: nat)
    requires 2 <= n <= yy.Length && ll in yy[..n] && yy[0] != ll
    modifies yy
    ensures 1 <= j < n && old(yy[j]) == ll && yy[..n] == MoveFront(old(yy[..n]), j)
  {
    ghost var was := yy[..n];
    ghost var at :| 0 <= at < n && was[at] == ll;
    var rtmp := yy[1];
    yy[1] := yy[0];
    j := 1;
    while ll != rtmp
      invariant 1 <= j < n && rtmp == was[j] && yy[0] == was[0]
      invariant at >= j && forall k :: 1 <= k <= j ==> yy[k] == was[k - 1]
      invariant forall k :: j < k < n ==> yy[k] == was[k]
      decreases n - j
    {
      j := j + 1;
      var rtmp2 := rtmp;
      rtmp := yy[j];
      yy[j] := rtmp2;
    }
    yy[0] := rtmp;
    Shifted(was, yy[..n], j);
  }

  lemma Shifted(was: seq<int>, now: seq<int>, j: nat)
    requires j < |was| == |now| && now[0] == was[j] && (forall k :: 1 <= k <= j ==> now[k] == was[k - 1]) &&
             forall k :: j < k < |was| ==> now[k] == was[k]
    ensures now == MoveFront(was, j)
  {
  }

  // ----- writing codes -----

  /** What has been written reads back as everything seen so far except a pending run of the
      byte at the front; the frequencies are those of the codes. */
  ghost predicate Written(codes: seq<int>, yy: seq<int>, freq: seq<int>, seen: seq<int>, zPend: nat) {
    && |yy| >= 1 && ListOk(yy, |yy|) && Tallied(codes, freq, |yy|)
    && ReadAll(codes, |yy|).run == 0 && ReadAll(codes, |yy|).weight == 1 && ReadAll(codes, |yy|).yy == yy
    && ReadAll(codes, |yy|).out + Copies(yy[0], zPend) == seen
  }

  ghost predicate Tallied(codes: seq<int>, freq: seq<int>, nInUse: nat) {
    && |freq| == 258 && nInUse <= 256 && (forall i :: 0 <= i < |codes| ==> 0 <= codes[i] <= nInUse)
    && forall c :: 0 <= c < nInUse + 2 ==> freq[c] == Count(codes, c)
  }

  lemma TallyOne(codes: seq<int>, freq: seq<int>, nInUse: nat, c: nat)
    requires Tallied(codes, freq, nInUse) && c <= nInUse
    ensures Tallied(codes + [c], freq[c := freq[c] + 1], nInUse)
  {
    forall k ensures Count(codes + [c], k) == Count(codes, k) + if c == k then 1 else 0 { CountSnoc(codes, c, k); }
  }

  /** Write one code and count it. */
  method Put(mtfv: array<int>, wr: nat, freq: array<int>, c: nat, ghost nInUse: nat)
    requires wr < mtfv.Length && freq.Length == 258 && mtfv != freq && Tallied(mtfv[..wr], freq[..], nInUse) &&
             c <= nInUse
    modifies mtfv, freq
    ensures mtfv[..wr + 1] == old(mtfv[..wr]) + [c] && Tallied(mtfv[..wr + 1], freq[..], nInUse)
    ensures forall k :: wr < k < mtfv.Length ==> mtfv[k] == old(mtfv[k])
  {
    TallyOne(mtfv[..wr], freq[..], nInUse, c);
    mtfv[wr] := c;
    freq[c] := freq[c] + 1;
  }

  /** The value still to be written, z + 1, times the weight of the next digit, completes the
      number. */
  ghost predicate Digits(codes: seq<int>, nInUse: nat, base: Reader, z: int, total: nat) {
    var d := ReadAll(codes, nInUse);
    d.out == base.out && d.yy == base.yy && d.run + d.weight * (z + 1) == total
  }

  lemma DigitStep(codes: seq<int>, nInUse: nat, base: Reader, z: nat, total: nat)
    requires Digits(codes, nInUse, base, z, total)
    ensures var c := if z % 2 == 1 then RUNB else RUNA;
            if z < 2 then Digits(codes + [c], nInUse, base, -1, total)
              else Digits(codes + [c], nInUse, base, (z - 2) / 2, total)
  {
    hide ReadAll;
    var d := ReadAll(codes, nInUse);
    ReadSnoc(codes, if z % 2 == 1 then RUNB else RUNA, nInUse);
    HalfStep(d.weight, z);
  }

  lemma HalfStep(w: nat, z: nat)
    ensures z < 2 ==> w * (z + 1) == (if z % 2 == 1 then 2 * w else w)
    ensures z >= 2 ==> w * (z + 1) == (if z % 2 == 1 then 2 * w else w) + 2 * w * ((z - 2) / 2 + 1)
  {
    var m := (z - 2) / 2;
    if z >= 2 {
      assert z == 2 * m + 2 || z == 2 * m + 3;
      assert w * (2 * m + 2) == 2 * w * (m + 1);
      if z == 2 * m + 3 {
        assert w * (z + 1) == w * (2 * m + 2) + 2 * w;
      } else {
        assert w * (z + 1) == w * (2 * m + 2) + w;
      }
    }
  }

  /** Write the length of the pending run; it takes at most as many digits as the run is long. */
  method FlushRun(mtfv: array<int>, wr0: nat, freq: array<int>, zPend0: nat, ghost yy: seq<int>, ghost seen: seq<int>)
    returns (wr: nat)
    requires wr0 + zPend0 <= mtfv.Length && freq.Length == 258 && mtfv != freq &&
             Written(mtfv[..wr0], yy, freq[..], seen, zPend0)
    modifies mtfv, freq
    ensures wr0 <= wr <= wr0 + zPend0 && Tallied(mtfv[..wr], freq[..], |yy|)
    ensures Digits(mtfv[..wr], |yy|, ReadAll(old(mtfv[..wr0]), |yy|), -1, zPend0)
    ensures forall k :: wr <= k < mtfv.Length ==> mtfv[k] == old(mtfv[k])
  {
    hide ReadAll;
    wr := wr0;
    ghost var base := ReadAll(mtfv[..wr0], |yy|);
    if zPend0 > 0 {
      var zPend := zPend0 - 1;
      while true
        invariant zPend >= 0 && wr0 <= wr && wr + zPend + 1 <= wr0 + zPend0 && Tallied(mtfv[..wr], freq[..], |yy|)
        invariant Digits(mtfv[..wr], |yy|, base, zPend, zPend0)
        invariant forall k :: wr <= k < mtfv.Length ==> mtfv[k] == old(mtfv[k])
        decreases zPend
      {
        DigitStep(mtfv[..wr], |yy|, base, zPend, zPend0);
        Put(mtfv, wr, freq, if zPend % 2 == 1 then RUNB else RUNA, |yy|);
        wr := wr + 1;
        if zPend < 2 { break; }
        zPend := (zPend - 2) / 2;
      }
    }
  }

  /** The pending run and then a position other than the front. */
  lemma PositionRead(codes: seq<int>, base: Reader, yy: seq<int>, zPend: nat, j: nat, seen: seq<int>)
    requires |yy| >= 1 && 1 <= j < |yy| && Digits(codes, |yy|, base, -1, zPend) && base.yy == yy &&
             base.out + Copies(yy[0], zPend) == seen
    ensures ReadAll(codes + [j + 1], |yy|) == Reader(seen + [yy[j]], MoveFront(yy, j), 0, 1)
  {
    hide ReadAll;
    ReadSnoc(codes, j + 1, |yy|);
  }

  lemma EndRead(codes: seq<int>, base: Reader, yy: seq<int>, zPend: nat, seen: seq<int>)
    requires |yy| >= 1 && Digits(codes, |yy|, base, -1, zPend) && base.yy == yy &&
             base.out + Copies(yy[0], zPend) == seen
    ensures ReadAll(codes + [|yy| + 1], |yy|).out == seen
  {
    hide ReadAll;
    ReadSnoc(codes, |yy| + 1, |yy|);
  }

  lemma OneMoreFront(codes: seq<int>, yy: seq<int>, freq: seq<int>, seen: seq<int>, zPend: nat)
    requires Written(codes, yy, freq, seen, zPend)
    ensures Written(codes, yy, freq, seen + [yy[0]], zPend + 1)
  {
    hide ReadAll;
    assert Copies(yy[0], zPend + 1) == Copies(yy[0], zPend) + [yy[0]];
  }

  /** One byte of the last column. Nothing is written at or behind position i + 1. */
  method EncodeOne(mtfv: array<int>, i: nat, wr0: nat, zPend0: nat, freq: array<int>, yy: array<int>, n: nat, ll: int,
                   ghost seen: seq<int>)
    returns (wr: nat, zPend: nat)
    requires 1 <= n <= yy.Length && mtfv != freq && mtfv != yy && freq != yy && freq.Length == 258 && i < mtfv.Length
    requires wr0 + zPend0 <= i && 0 <= ll < n && Written(mtfv[..wr0], yy[..n], freq[..], seen, zPend0)
    modifies mtfv, freq, yy
    ensures wr + zPend <= i + 1 && Written(mtfv[..wr], yy[..n], freq[..], seen + [ll], zPend)
    ensures forall k :: i < k < mtfv.Length ==> mtfv[k] == old(mtfv[k])
  {
    hide ReadAll, Written;
    ListHas(mtfv[..wr0], yy[..n], freq[..], seen, zPend0, ll);
    if yy[0] == ll {
      OneMoreFront(mtfv[..wr0], yy[..n], freq[..], seen, zPend0);
      return wr0, zPend0 + 1;
    }
    ghost var was, base := yy[..n], ReadAll(mtfv[..wr0], n);
    WrittenHas(mtfv[..wr0], yy[..n], freq[..], seen, zPend0);
    wr := FlushRun(mtfv, wr0, freq, zPend0, yy[..n], seen);
    assert yy[..n] == was;
    var j := BringToFront(yy, n, ll);
    PositionRead(mtfv[..wr], base, was, zPend0, j, seen);
    MoveFrontOk(was, n, j);
    ghost var codes := mtfv[..wr];
    Put(mtfv, wr, freq, j + 1, n);
    wr, zPend := wr + 1, 0;
    WrittenNow(mtfv[..wr], yy[..n], freq[..], seen + [ll]);
  }

  lemma ListHas(codes: seq<int>, yy: seq<int>, freq: seq<int>, seen: seq<int>, zPend: nat, ll: int)
    requires Written(codes, yy, freq, seen, zPend) && 0 <= ll < |yy|
    ensures ll in yy && (yy[0] != ll ==> |yy| >= 2)
  {
  }

  lemma WrittenHas(codes: seq<int>, yy: seq<int>, freq: seq<int>, seen: seq<int>, zPend: nat)
    requires Written(codes, yy, freq, seen, zPend)
    ensures |yy| >= 1 && ListOk(yy, |yy|) && ReadAll(codes, |yy|).yy == yy &&
            ReadAll(codes, |yy|).out + Copies(yy[0], zPend) == seen
  {
  }

  lemma WrittenNow(codes: seq<int>, yy: seq<int>, freq: seq<int>, seen: seq<int>)
    requires |yy| >= 1 && ListOk(yy, |yy|) && Tallied(codes, freq, |yy|) &&
             ReadAll(codes, |yy|) == Reader(seen, yy, 0, 1)
    ensures Written(codes, yy, freq, seen, 0)
  {
    assert seen + Copies(yy[0], 0) == seen;
  }

  // ----- the whole block -----

  /** The i-th 32-bit word of an array of 16-bit halves. */
  function Word(halves: seq<int>, i: nat): int
    requires 2 * i + 1 < |halves|
  {
    halves[2 * i] + 65536 * halves[2 * i + 1]
  }

  /** Bytes in use get consecutive numbers in ascending order. */
  ghost predicate Numbered(inUse: seq<bool>, map_: seq<int>, n: nat) {
    && |inUse| == |map_| == 256
    && (forall b :: 0 <= b < 256 && inUse[b] ==> 0 <= map_[b] < n)
    && (forall a, b :: 0 <= a < b < 256 && inUse[a] && inUse[b] ==> map_[a] < map_[b])
  }

  /** How many of the bytes below b are in use. */
  function UsedBelow(inUse: seq<bool>, b: nat): (r: nat)
    requires b <= |inUse|
    ensures r <= b
  {
    if b == 0 then 0 else UsedBelow(inUse, b - 1) + if inUse[b - 1] then 1 else 0
  }

  method MakeMaps(inUse: seq<bool>) returns (unseqToSeq: array<int>, nInUse: nat)
    requires |inUse| == 256
    ensures fresh(unseqToSeq) && unseqToSeq.Length == 256 && nInUse <= 256 && Numbered(inUse, unseqToSeq[..], nInUse)
    ensures nInUse == UsedBelow(inUse, 256) &&
            forall b :: 0 <= b < 256 && inUse[b] ==> unseqToSeq[b] == UsedBelow(inUse, b)
  {
    unseqToSeq := new int[256](_ => 0);
    nInUse := 0;
    var i := 0;
    while i < 256
      invariant 0 <= nInUse <= i <= 256
      invariant nInUse == UsedBelow(inUse, i) &&
                forall b :: 0 <= b < i && inUse[b] ==> unseqToSeq[b] == UsedBelow(inUse, b)
      invariant forall b :: 0 <= b < i && inUse[b] ==> 0 <= unseqToSeq[b] < nInUse
      invariant forall a, b :: 0 <= a < b < i && inUse[a] && inUse[b] ==> unseqToSeq[a] < unseqToSeq[b]
    {
      if inUse[i] {
        unseqToSeq[i] := nInUse;
        nInUse := nInUse + 1;
      }
      i := i + 1;
    }
  }

  /** The byte in front of the rotation that comes i-th in the sorted order. */
  function LastColumn(ptr: seq<int>, block: seq<int>): (col: seq<int>)
    requires |ptr| == |block| && forall i :: 0 <= i < |ptr| ==> 0 <= ptr[i] < |block|
    ensures |col| == |block|
    ensures forall i :: 0 <= i < |col| ==> col[i] == block[if ptr[i] == 0 then |block| - 1 else ptr[i] - 1]
  {
    seq(|block|, i requires 0 <= i < |block| => block[if ptr[i] == 0 then |block| - 1 else ptr[i] - 1])
  }

  function Numbers(col: seq<int>, map_: seq<int>): (r: seq<int>)
    requires forall i :: 0 <= i < |col| ==> 0 <= col[i] < |map_|
    ensures |r| == |col| && forall i :: 0 <= i < |col| ==> r[i] == map_[col[i]]
  {
    seq(|col|, i requires 0 <= i < |col| => map_[col[i]])
  }

  /** Different last columns have different numbers: the bytes can be told from them. */
  lemma NumbersTell(col: seq<int>, other: seq<int>, inUse: seq<bool>, map_: seq<int>, n: nat)
    requires Numbered(inUse, map_, n) && |col| == |other|
    requires forall i :: 0 <= i < |col| ==> 0 <= col[i] < 256 && 0 <= other[i] < 256 && inUse[col[i]] && inUse[other[i]]
    ensures Numbers(col, map_) == Numbers(other, map_) <==> col == other
  {
    if Numbers(col, map_) == Numbers(other, map_) {
      forall i | 0 <= i < |col| ensures col[i] == other[i] {
        assert Numbers(col, map_)[i] == Numbers(other, map_)[i];
        DifferentNumbers(inUse, map_, n, col[i], other[i]);
      }
    }
  }

  lemma DifferentNumbers(inUse: seq<bool>, map_: seq<int>, n: nat, a: int, b: int)
    requires Numbered(inUse, map_, n) && 0 <= a < 256 && 0 <= b < 256 && inUse[a] && inUse[b]
    ensures map_[a] == map_[b] <==> a == b
  {
  }

  lemma NothingWritten(yy: seq<int>, freq: seq<int>, n: nat)
    requires 1 <= n <= 256 && yy == Identity(n) && |freq| == 258 && forall c :: 0 <= c < n + 2 ==> freq[c] == 0
    ensures Written([], yy, freq, [], 0)
  {
    forall x | 0 <= x < n ensures x in yy { assert yy[x] == x; }
    assert [] + Copies(yy[0], 0) == [];
  }

  method Start(n: nat) returns (yy: array<int>, freq: array<int>)
    requires 1 <= n <= 256
    ensures fresh(yy) && fresh(freq) && yy.Length == 256 && freq.Length == 258 && yy != freq &&
            Written([], yy[..n], freq[..], [], 0)
  {
    freq := new int[258];
    var i := 0;
    while i <= n + 1
      invariant 0 <= i <= n + 2 && forall c :: 0 <= c < i ==> freq[c] == 0
    {
      freq[i] := 0;
      i := i + 1;
    }
    yy := new int[256];
    i := 0;
    while i < n
      invariant 0 <= i <= n && (forall k :: 0 <= k < i ==> yy[k] == k) && forall c :: 0 <= c < n + 2 ==> freq[c] == 0
    {
      yy[i] := i;
      i := i + 1;
    }
    NothingWritten(yy[..n], freq[..], n);
  }

  /** The sorted order, read as words from the array the codes are written into. */
  ghost predicate Holds(halves: seq<int>, ptr: seq<int>, from: nat) {
    2 * |ptr| <= |halves| && forall k :: from <= k < |ptr| ==> Word(halves, k) == ptr[k]
  }

  lemma StillHolds(was: seq<int>, now: seq<int>, ptr: seq<int>, i: nat)
    requires Holds(was, ptr, i) && |now| == |was| && forall k :: i < k < |was| ==> now[k] == was[k]
    ensures Holds(now, ptr, i + 1)
  {
  }

  /** The number of the byte before the rotation at place i. */
  method NextNumber(arr1: array<int>, i: nat, block: seq<int>, inUse: seq<bool>, unseqToSeq: array<int>, n: nat,
                    ghost ptr: seq<int>)
    returns (ll: int)
    requires i < |block| == |ptr| && Holds(arr1[..], ptr, i) && Numbered(inUse, unseqToSeq[..], n)
    requires (forall k :: 0 <= k < |ptr| ==> 0 <= ptr[k] < |block|) &&
             forall k :: 0 <= k < |block| ==> 0 <= block[k] < 256 && inUse[block[k]]
    ensures 0 <= ll < n && ll == Numbers(LastColumn(ptr, block), unseqToSeq[..])[i]
  {
    assert Word(arr1[..], i) == ptr[i];
    var j := arr1[2 * i] + 65536 * arr1[2 * i + 1] - 1;
    if j < 0 { j := j + |block|; }
    ll := unseqToSeq[block[j]];
    assert block[j] == LastColumn(ptr, block)[i] && ll == unseqToSeq[..][block[j]];
  }

  /** generateMTFValues. Every word of the sorted order is still intact when it is read,
      although the codes are written over the same array; there is at most one code more than
      there are bytes; and the codes read back as the last column, ended by one code that
      nothing else uses. */
  method GenerateMTFValues(arr1: array<int>, block: seq<int>, inUse: seq<bool>, ghost ptr: seq<int>)
    returns (nMTF: nat, nInUse: nat, mtfFreq: array<int>, unseqToSeq: array<int>)
    requires |block| >= 1 && |ptr| == |block| && Holds(arr1[..], ptr, 0) && |inUse| == 256
    requires (forall k :: 0 <= k < |ptr| ==> 0 <= ptr[k] < |block|) &&
             forall k :: 0 <= k < |block| ==> 0 <= block[k] < 256 && inUse[block[k]]
    modifies arr1
    ensures fresh(mtfFreq) && mtfFreq.Length == 258 && fresh(unseqToSeq) && unseqToSeq.Length == 256 &&
            1 <= nInUse <= 256
    ensures 1 <= nMTF <= |block| + 1 && nMTF <= arr1.Length && Numbered(inUse, unseqToSeq[..], nInUse)
    ensures nInUse == UsedBelow(inUse, 256) &&
            forall b :: 0 <= b < 256 && inUse[b] ==> unseqToSeq[b] == UsedBelow(inUse, b)
    ensures arr1[nMTF - 1] == nInUse + 1 && forall k :: 0 <= k < nMTF - 1 ==> 0 <= arr1[k] <= nInUse
    ensures ReadAll(arr1[..nMTF], nInUse).out == Numbers(LastColumn(ptr, block), unseqToSeq[..])
    ensures forall c :: 0 <= c < nInUse + 2 ==> mtfFreq[c] == Count(arr1[..nMTF], c)
  {
    hide ReadAll, Written, Digits, Numbered;
    unseqToSeq, nInUse := MakeMaps(inUse);
    ghost var map_ := unseqToSeq[..];
    ghost var col := Numbers(LastColumn(ptr, block), map_);
    InUseSomething(inUse, map_, nInUse, block[0]);
    var yy;
    yy, mtfFreq := Start(nInUse);
    var wr: nat, zPend: nat, i: nat := 0, 0, 0;
    assert arr1[..0] == [] && col[..0] == [];
    while i < |block|
      invariant 0 <= i <= |block| && wr + zPend <= i && fresh(yy) && fresh(mtfFreq) && fresh(unseqToSeq) &&
                unseqToSeq[..] == map_
      invariant yy != mtfFreq && yy.Length == 256 && mtfFreq.Length == 258 && unseqToSeq != yy && unseqToSeq != mtfFreq
      invariant Holds(arr1[..], ptr, i) && Written(arr1[..wr], yy[..nInUse], mtfFreq[..], col[..i], zPend)
    {
      ghost var was := arr1[..];
      var ll := NextNumber(arr1, i, block, inUse, unseqToSeq, nInUse, ptr);
      assert ll == col[i];
      wr, zPend := EncodeOne(arr1, i, wr, zPend, mtfFreq, yy, nInUse, ll, col[..i]);
      StillHolds(was, arr1[..], ptr, i);
      assert col[..i + 1] == col[..i] + [ll];
      i := i + 1;
    }
    assert col[..i] == col;
    nMTF := Finish(arr1, wr, zPend, mtfFreq, yy[..nInUse], col);
  }

  lemma InUseSomething(inUse: seq<bool>, map_: seq<int>, n: nat, b: int)
    requires Numbered(inUse, map_, n) && 0 <= b < 256 && inUse[b]
    ensures n >= 1
  {
  }

  /** The last run and the end code. */
  method Finish(mtfv: array<int>, wr0: nat, zPend: nat, freq: array<int>, yy: seq<int>, ghost seen: seq<int>)
    returns (nMTF: nat)
    requires wr0 + zPend < mtfv.Length && mtfv != freq && freq.Length == 258 &&
             Written(mtfv[..wr0], yy, freq[..], seen, zPend)
    modifies mtfv, freq
    ensures 1 <= nMTF <= wr0 + zPend + 1 && mtfv[nMTF - 1] == |yy| + 1 &&
            forall k :: 0 <= k < nMTF - 1 ==> 0 <= mtfv[k] <= |yy|
    ensures ReadAll(mtfv[..nMTF], |yy|).out == seen &&
            forall c :: 0 <= c < |yy| + 2 ==> freq[c] == Count(mtfv[..nMTF], c)
  {
    hide ReadAll, Digits;
    ghost var base := ReadAll(mtfv[..wr0], |yy|);
    WrittenHas(mtfv[..wr0], yy, freq[..], seen, zPend);
    var wr := FlushRun(mtfv, wr0, freq, zPend, yy, seen);
    EndRead(mtfv[..wr], base, yy, zPend, seen);
    ghost var codes := mtfv[..wr];
    TalliedHas(codes, freq[..], |yy|);
    mtfv[wr] := |yy| + 1;
    freq[|yy| + 1] := freq[|yy| + 1] + 1;
    nMTF := wr + 1;
    assert mtfv[..nMTF] == codes + [|yy| + 1];
    forall k
      ensures Count(codes + [|yy| + 1], k) == Count(codes, k) + if |yy| + 1 == k then 1 else 0
    {
      CountSnoc(codes, |yy| + 1, k);
    }
  }

  lemma TalliedHas(codes: seq<int>, freq: seq<int>, nInUse: nat)
    requires Tallied(codes, freq, nInUse)
    ensures nInUse <= 256 && (forall i :: 0 <= i < |codes| ==> 0 <= codes[i] <= nInUse) &&
            forall c :: 0 <= c < nInUse + 2 ==> freq[c] == Count(codes, c)
  {
  }
}
