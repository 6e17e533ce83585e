/** The symbol loop of BZ2_decompress: runs of zeros are read as numbers in bijective base two,
    positions are looked up in the decoder's two-level list, and the bytes are counted as they
    are put into the block. Its reference is the plain decoder of the move-to-front module. */
module BlockDecoder {
  import opened Counting
  import opened DecoderLists
  import opened MoveToFront
  import opened Rotations

  /** The symbols of a block: every one belongs to the alphabet, and the last one ends it. */
  ghost predicate Symbols(codes: seq<int>, nInUse: nat) {
    && 1 <= nInUse <= 256 && |codes| >= 1 && codes[|codes| - 1] == nInUse + 1
    && forall i :: 0 <= i < |codes| - 1 ==> 0 <= codes[i] <= nInUse
  }

  ghost predicate IsDigit(code: int) {
    code == RUNA || code == RUNB
  }

  // ----- how much the reference decoder has put out -----

  /** Bytes put out, and those of the run being read. */
  function Owed(d: Reader): nat {
    |d.out| + d.run
  }

  lemma ReadGrows(d: Reader, code: int)
    requires |d.yy| >= 1
    ensures |Read(d, code).yy| == |d.yy| && Owed(d) <= Owed(Read(d, code))
  {
  }

  lemma {:induction false} ListLength(codes: seq<int>, n: nat)
    requires n >= 1
    ensures |ReadAll(codes, n).yy| == n
    decreases |codes|
  {
    if codes != [] {
      ListLength(codes[..|codes| - 1], n);
      ReadGrows(ReadAll(codes[..|codes| - 1], n), codes[|codes| - 1]);
    }
  }

  /** What has been put out on the way is put out in the end. */
  lemma {:induction false} OwedGrows(codes: seq<int>, n: nat, p: nat)
    requires n >= 1 && p <= |codes|
    ensures Owed(ReadAll(codes[..p], n)) <= Owed(ReadAll(codes, n))
    decreases |codes|
  {
    if p == |codes| {
      assert codes[..p] == codes;
    } else {
      var front := codes[..|codes| - 1];
      OwedGrows(front, n, p);
      assert front[..p] == codes[..p];
      ListLength(front, n);
      ReadGrows(ReadAll(front, n), codes[|codes| - 1]);
    }
  }

  /** Too much on the way is too much in the end. */
  lemma TooMuch(codes: seq<int>, n: nat, p: nat, limit: nat)
    requires Symbols(codes, n) && p <= |codes| && Owed(ReadAll(codes[..p], n)) > limit
    ensures |ReadAll(codes, n).out| > limit
  {
    OwedGrows(codes, n, p);
    var d := ReadAll(codes[..|codes| - 1], n);
    ListLength(codes[..|codes| - 1], n);
    assert ReadAll(codes, n) == Flushed(d);
  }

  lemma ReadNext(codes: seq<int>, n: nat, p: nat)
    requires p < |codes|
    ensures ReadAll(codes[..p + 1], n) == Read(ReadAll(codes[..p], n), codes[p])
  {
    assert codes[..p + 1] == codes[..p] + [codes[p]];
    ReadSnoc(codes[..p], codes[p], n);
  }

  // ----- one run -----

  /** Read a number, digit by digit, the lowest first. */
  method ReadRun(codes: seq<int>, n: nat, p0: nat) returns (es: int, p: nat)
    requires Symbols(codes, n) && p0 < |codes| && IsDigit(codes[p0])
    requires ReadAll(codes[..p0], n).run == 0 && ReadAll(codes[..p0], n).weight == 1
    ensures p0 < p < |codes| && !IsDigit(codes[p])
    ensures ReadAll(codes[..p], n).out == ReadAll(codes[..p0], n).out &&
            ReadAll(codes[..p], n).yy == ReadAll(codes[..p0], n).yy
    ensures ReadAll(codes[..p], n).run == es
  {
    hide ReadAll;
    p := p0;
    es := -1;
    var N := 1;
    while true
      invariant p0 <= p < |codes| && IsDigit(codes[p])
      invariant ReadAll(codes[..p], n).out == ReadAll(codes[..p0], n).out &&
                ReadAll(codes[..p], n).yy == ReadAll(codes[..p0], n).yy
      invariant ReadAll(codes[..p], n).run == es + 1 && ReadAll(codes[..p], n).weight == N
      decreases |codes| - p
    {
      ReadNext(codes, n, p);
      if codes[p] == RUNA {
        es := es + (0 + 1) * N;
      } else if codes[p] == RUNB {
        es := es + (1 + 1) * N;
      }
      N := N * 2;
      p := p + 1;
      if !(codes[p] == RUNA || codes[p] == RUNB) { break; }
    }
    es := es + 1;
  }

  /** Put the byte into the block as often as the run says. */
  method FillRun(tt: array<int>, nblock0: nat, uc: int, es0: nat, nblockMAX: nat) returns (ok: bool, nblock: nat)
    requires nblock0 <= nblockMAX <= tt.Length
    modifies tt
    ensures ok <==> nblock0 + es0 <= nblockMAX
    ensures ok ==> nblock == nblock0 + es0 && tt[..nblock] == old(tt[..nblock0]) + Copies(uc, es0)
  {
    nblock := nblock0;
    var es := es0;
    while es > 0
      invariant 0 <= es <= es0 && nblock == nblock0 + (es0 - es) <= nblockMAX
      invariant tt[..nblock] == old(tt[..nblock0]) + Copies(uc, es0 - es)
    {
      if nblock >= nblockMAX { return false, nblock; }
      tt[nblock] := uc;
      assert Copies(uc, es0 - es + 1) == Copies(uc, es0 - es) + [uc];
      assert tt[..nblock + 1] == tt[..nblock] + [uc];
      nblock := nblock + 1;
      es := es - 1;
    }
    ok := true;
  }

  lemma {:induction false} CountCopies(s: seq<int>, x: int, n: nat, c: int)
    ensures Count(s + Copies(x, n), c) == Count(s, c) + if x == c then n else 0
  {
    if n == 0 {
      assert s + Copies(x, n) == s;
    } else {
      assert s + Copies(x, n) == (s + Copies(x, n - 1)) + [x];
      CountCopies(s, x, n - 1, c);
      CountSnoc(s + Copies(x, n - 1), x, c);
    }
  }

  // ----- the block so far -----

  /** The block holds the bytes of the positions put out so far, and they have been counted. */
  ghost predicate Filled(block: seq<int>, unzftab: seq<int>, out: seq<int>, seqToUnseq: seq<int>) {
    && |seqToUnseq| == |unzftab| == 256 && IsBytes(seqToUnseq) && IsBytes(out) && block == Numbers(out, seqToUnseq)
    && forall c :: 0 <= c < 256 ==> unzftab[c] == Count(block, c)
  }

  lemma FilledOn(block: seq<int>, unzftab: seq<int>, out: seq<int>, seqToUnseq: seq<int>, pos: int, n: nat,
                 block': seq<int>, unzftab': seq<int>)
    requires Filled(block, unzftab, out, seqToUnseq) && 0 <= pos < 256
    requires block' == block + Copies(seqToUnseq[pos], n) && 0 <= seqToUnseq[pos] < 256
    requires unzftab' == unzftab[seqToUnseq[pos] := unzftab[seqToUnseq[pos]] + n]
    ensures Filled(block', unzftab', out + Copies(pos, n), seqToUnseq)
  {
    forall c ensures Count(block', c) == Count(block, c) + if seqToUnseq[pos] == c then n else 0 {
      CountCopies(block, seqToUnseq[pos], n, c);
    }
  }

  /** The decoder's list begins with the reference decoder's, and holds numbers below 256. */
  ghost predicate ListsAgree(list: seq<int>, yy: seq<int>, n: nat) {
    |list| == 256 && IsBytes(list) && 1 <= n <= 256 && yy == list[..n]
  }

  lemma ListsGoOn(list: seq<int>, yy: seq<int>, n: nat, nn: nat)
    requires ListsAgree(list, yy, n) && nn < n
    ensures ListsAgree(MoveFront(list, nn), MoveFront(yy, nn), n) && yy[nn] == list[nn]
  {
  }

  /** Where the reference decoder stands when the symbols before p have been dealt with: a run
      it has read but not put out yet has been put into the block. */
  ghost predicate Standing(codes: seq<int>, n: nat, p: nat, out: seq<int>, list: seq<int>) {
    && Symbols(codes, n) && p < |codes|
    && var d := ReadAll(codes[..p], n);
       && ListsAgree(list, d.yy, n) && out == d.out + Copies(list[0], d.run)
       && (IsDigit(codes[p]) ==> d.run == 0 && d.weight == 1)
  }

  lemma StandsAtFirst(codes: seq<int>, n: nat)
    requires Symbols(codes, n)
    ensures Standing(codes, n, 0, [], Identity(256))
  {
    assert codes[..0] == [];
    assert [] + Copies(Identity(256)[0], 0) == [];
    assert Identity(n) == Identity(256)[..n];
  }

  lemma StandsAfterRun(codes: seq<int>, n: nat, p: nat, out: seq<int>, list: seq<int>, es: nat, p': nat)
    requires Standing(codes, n, p, out, list) && IsDigit(codes[p]) && p < p' < |codes| && !IsDigit(codes[p'])
    requires ReadAll(codes[..p'], n).out == ReadAll(codes[..p], n).out &&
             ReadAll(codes[..p'], n).yy == ReadAll(codes[..p], n).yy
    requires ReadAll(codes[..p'], n).run == es
    ensures Standing(codes, n, p', out + Copies(list[0], es), list)
  {
    hide ReadAll;
    assert out == ReadAll(codes[..p], n).out;
  }

  lemma StandsAfterPosition(codes: seq<int>, n: nat, p: nat, out: seq<int>, list: seq<int>)
    requires Standing(codes, n, p, out, list) && !IsDigit(codes[p]) && codes[p] != n + 1
    ensures p + 1 < |codes| && 1 <= codes[p] - 1 < n && |list| == 256
    ensures Standing(codes, n, p + 1, out + [list[codes[p] - 1]], MoveFront(list, codes[p] - 1))
    ensures |out| + 1 <= |ReadAll(codes[..p + 1], n).out|
  {
    hide ReadAll;
    ReadNext(codes, n, p);
    var d, f := ReadAll(codes[..p], n), MoveFront(list, codes[p] - 1);
    ListsGoOn(list, d.yy, n, codes[p] - 1);
    assert Flushed(d).out == out;
    assert out + [list[codes[p] - 1]] + Copies(f[0], 0) == out + [list[codes[p] - 1]];
  }

  lemma StandsAtEnd(codes: seq<int>, n: nat, p: nat, out: seq<int>, list: seq<int>)
    requires Standing(codes, n, p, out, list) && codes[p] == n + 1
    ensures out == ReadAll(codes, n).out
  {
    assert p == |codes| - 1;
    assert codes[..p] == codes[..|codes| - 1];
  }

  // ----- the loop -----

  method TakeRun(tt: array<int>, unzftab: array<int>, mtfa: array<int>, mtfbase: array<int>, codes: seq<int>,
                 seqToUnseq: seq<int>, n: nat, p0: nat, nblock0: nat, nblockMAX: nat, ghost out: seq<int>,
                 ghost list: seq<int>)
    returns (ok: bool, p: nat, nblock: nat, ghost out': seq<int>)
    requires nblock0 <= nblockMAX <= tt.Length && tt != unzftab && Ready(mtfa[..], mtfbase[..], list) && mtfa != tt &&
             mtfa != unzftab && mtfbase != tt && mtfbase != unzftab
    requires Standing(codes, n, p0, out, list) && IsDigit(codes[p0]) &&
             Filled(tt[..nblock0], unzftab[..], out, seqToUnseq)
    modifies tt, unzftab
    ensures p0 < p < |codes|
    ensures ok ==>
            nblock <= nblockMAX && Standing(codes, n, p, out', list) &&
              Filled(tt[..nblock], unzftab[..], out', seqToUnseq)
    ensures !ok ==> |ReadAll(codes, n).out| > nblockMAX
  {
    hide ReadAll;
    var es;
    es, p := ReadRun(codes, n, p0);
    var pos := Front(mtfa, mtfbase, list);
    var uc := seqToUnseq[pos];
    ghost var block, counts := tt[..nblock0], unzftab[..];
    unzftab[uc] := unzftab[uc] + es;
    out' := out + Copies(pos, es);
    ok, nblock := FillRun(tt, nblock0, uc, es, nblockMAX);
    if ok {
      FilledOn(block, counts, out, seqToUnseq, pos, es, tt[..nblock], unzftab[..]);
      StandsAfterRun(codes, n, p0, out, list, es, p);
    } else {
      TooMuch(codes, n, p, nblockMAX);
    }
  }

  method TakePosition(tt: array<int>, unzftab: array<int>, mtfa: array<int>, mtfbase: array<int>, codes: seq<int>,
                      seqToUnseq: seq<int>, n: nat, p: nat, nblock0: nat, nblockMAX: nat, ghost out: seq<int>,
                      ghost list: seq<int>)
    returns (ok: bool, nblock: nat, ghost out': seq<int>, ghost list': seq<int>)
    requires nblock0 <= nblockMAX <= tt.Length && tt != unzftab && Ready(mtfa[..], mtfbase[..], list) &&
             mtfa != mtfbase && mtfa != tt && mtfa != unzftab && mtfbase != tt && mtfbase != unzftab
    requires Standing(codes, n, p, out, list) && !IsDigit(codes[p]) && codes[p] != n + 1 &&
             Filled(tt[..nblock0], unzftab[..], out, seqToUnseq)
    modifies tt, unzftab, mtfa, mtfbase
    ensures ok ==>
            nblock <= nblockMAX && p + 1 < |codes| && Standing(codes, n, p + 1, out', list') &&
              Ready(mtfa[..], mtfbase[..], list') && Filled(tt[..nblock], unzftab[..], out', seqToUnseq)
    ensures !ok ==> |ReadAll(codes, n).out| > nblockMAX
  {
    hide ReadAll;
    StandsAfterPosition(codes, n, p, out, list);
    if nblock0 >= nblockMAX {
      TooMuch(codes, n, p + 1, nblockMAX);
      return false, nblock0, out, list;
    }
    var uc := Take(mtfa, mtfbase, codes[p] - 1, list);
    list' := MoveFront(list, codes[p] - 1);
    out' := out + [uc];
    assert out' == out + Copies(uc, 1);
    ghost var block, counts := tt[..nblock0], unzftab[..];
    unzftab[seqToUnseq[uc]] := unzftab[seqToUnseq[uc]] + 1;
    tt[nblock0] := seqToUnseq[uc];
    nblock := nblock0 + 1;
    assert tt[..nblock] == block + Copies(seqToUnseq[uc], 1);
    FilledOn(block, counts, out, seqToUnseq, uc, 1, tt[..nblock], unzftab[..]);
    ok := true;
  }

  /** The block of a complete list of symbols, its byte counts, or a data error. The error comes
      exactly if the block would be longer than it may be. */
  method DecodeSymbols(tt: array<int>, codes: seq<int>, seqToUnseq: seq<int>, n: nat, nblockMAX: nat)
    returns (ok: bool, nblock: nat, unzftab: array<int>)
    requires Symbols(codes, n) && nblockMAX <= tt.Length && |seqToUnseq| == 256 && IsBytes(seqToUnseq)
    modifies tt
    ensures ok <==> |ReadAll(codes, n).out| <= nblockMAX
    ensures fresh(unzftab) && unzftab.Length == 256
    ensures ok ==>
            nblock <= tt.Length && IsBytes(ReadAll(codes, n).out) &&
              tt[..nblock] == Numbers(ReadAll(codes, n).out, seqToUnseq)
    ensures ok ==> forall c :: 0 <= c < 256 ==> unzftab[c] == Count(tt[..nblock], c)
  {
    hide ReadAll, Standing, Ready;
    unzftab := new int[256](_ => 0);
    var mtfa, mtfbase := new int[MTFA_SIZE], new int[LISTS];
    Init(mtfa, mtfbase);
    ghost var out: seq<int>, list := [], Identity(256);
    StandsAtFirst(codes, n);
    nblock := 0;
    var p := 0;
    while codes[p] != n + 1
      invariant p < |codes| && nblock <= nblockMAX && Standing(codes, n, p, out, list) &&
                Ready(mtfa[..], mtfbase[..], list) && Filled(tt[..nblock], unzftab[..], out, seqToUnseq)
      invariant fresh(mtfa) && fresh(mtfbase) && fresh(unzftab) && mtfa != mtfbase && unzftab != mtfa &&
                unzftab != mtfbase && unzftab.Length == 256
      decreases |codes| - p
    {
      if codes[p] == RUNA || codes[p] == RUNB {
        ok, p, nblock, out := TakeRun(tt, unzftab, mtfa, mtfbase, codes, seqToUnseq, n, p, nblock, nblockMAX, out,
            list);
        if !ok { return; }
      } else {
        ok, nblock, out, list := TakePosition(tt, unzftab, mtfa, mtfbase, codes, seqToUnseq, n, p, nblock, nblockMAX,
            out, list);
        if !ok { return; }
        p := p + 1;
      }
    }
    StandsAtEnd(codes, n, p, out, list);
    ok := true;
  }

  // ----- the bytes behind the positions -----

  /** The byte with k used bytes below it. */
  ghost predicate UndoesNumbers(inUse: seq<bool>, seqToUnseq: seq<int>) {
    |inUse| == |seqToUnseq| == 256 && IsBytes(seqToUnseq) &&
      forall b :: 0 <= b < 256 && inUse[b] ==> seqToUnseq[UsedBelow(inUse, b)] == b
  }

  /** makeMaps_d: the bytes in use in ascending order, in a table whose other entries are left
      as they were. */
  method MakeMapsD(inUse: seq<bool>, seqToUnseq: array<int>) returns (nInUse: nat)
    requires |inUse| == 256 == seqToUnseq.Length && IsBytes(seqToUnseq[..])
    modifies seqToUnseq
    ensures nInUse == UsedBelow(inUse, 256) && UndoesNumbers(inUse, seqToUnseq[..])
  {
    nInUse := 0;
    var i := 0;
    while i < 256
      invariant 0 <= nInUse <= i <= 256 && nInUse == UsedBelow(inUse, i) && IsBytes(seqToUnseq[..])
      invariant forall b ::
                  0 <= b < i && inUse[b] ==> UsedBelow(inUse, b) < nInUse && seqToUnseq[UsedBelow(inUse, b)] == b
    {
      if inUse[i] {
        seqToUnseq[nInUse] := i;
        nInUse := nInUse + 1;
      }
      i := i + 1;
    }
  }
}
