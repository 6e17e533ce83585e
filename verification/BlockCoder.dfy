/** The block coder between the run-length codes: BZ2_blockSort and generateMTFValues on one
    side, the symbol loop and the inverse of the rotation sort on the other. A block that has
    been through all of them is the block it was. */
module BlockCoder {
  import opened BlockDecoder
  import opened Counting
  import opened FallbackSort
  import opened InverseBwt
  import MainCompare
  import MainSimpleSort
  import MainSort
  import opened MoveToFront
  import opened Rearrangement
  import opened Rotations
  import SmallSorting

  /** Every byte of the block has been marked. */
  ghost predicate Marked(block: seq<int>, inUse: seq<bool>) {
    |inUse| == 256 && forall i :: 0 <= i < |block| ==> 0 <= block[i] < 256 && inUse[block[i]]
  }

  lemma SortedIsOrdered(b: seq<int>, ptr: seq<int>)
    requires |b| >= 1 && IsPermutation(ptr, |b|) && SortedRotations(b, ptr, 0, |b| - 1)
    ensures Sorted(b, ptr)
  {
    forall p | 0 < p < |ptr| ensures Cmp(b, ptr[p - 1], ptr[p], |b|) <= 0 {
      CmpIsLexicographic(b, ptr[p - 1], ptr[p]);
    }
  }

  /** Where the block itself stands among its rotations. The search does not fail. */
  method FindOrigPtr(ptr: array<int>, nblock: nat) returns (origPtr: int)
    requires ptr.Length == nblock >= 1 && IsPermutation(ptr[..], nblock)
    ensures 0 <= origPtr < nblock && ptr[origPtr] == 0
  {
    ghost var at := PermutationHits(ptr[..], nblock, 0);
    origPtr := -1;
    var i := 0;
    while i < nblock
      invariant 0 <= i <= nblock && origPtr == -1 && forall k :: 0 <= k < i ==> ptr[k] != 0
    {
      if ptr[i] == 0 {
        origPtr := i;
        break;
      }
      i := i + 1;
    }
  }

  /** The fallback sort, on the memory it shares with the main sort. */
  method Fallback(block: seq<int>, ptr: array<int>)
    requires IsBlock(block) && ptr.Length == |block|
    modifies ptr
    ensures Sorted(block, ptr[..])
  {
    var nblock := |block|;
    var arr2 := new int[nblock](i requires 0 <= i < nblock => block[i]);
    assert arr2[..] == block;
    var eclass := new int[nblock];
    var ftab := new bool[32 * (nblock + 64)];
    FallbackSort.FallbackSort(ptr, eclass, arr2, ftab, nblock);
    SortedIsOrdered(block, ptr[..]);
  }

  /** The budget of the main sort: a third of the work factor, taken between 1 and 100, for
      every byte. */
  function Allowance(n: nat, workFactor: int): nat {
    n * (if workFactor < 1 then 0 else if workFactor > 100 then 33 else (workFactor - 1) / 3)
  }

  /** The main sort with its budget: sorted if the budget is not used up. It is not when any two
      different rotations differ within their first twenty bytes. */
  method TryMainSort(block: seq<int>, ptr: array<int>, workFactor: int, ghost m: nat) returns (budget: int)
    requires IsBlock(block) && 10000 <= |block| == ptr.Length < SmallSorting.SETMASK
    modifies ptr
    ensures budget >= 0 ==> Sorted(block, ptr[..])
    ensures MainCompare.CostsAtMost(block, m) ==>
              budget >= Allowance(|block|, workFactor) - m * MainSimpleSort.MostCompares(|block|)
    ensures MainCompare.CostsAtMost(block, 0) && m == 0 ==> budget == Allowance(|block|, workFactor)
  {
    hide OrderedBy, IsPermutation, MainCompare.CostsAtMost, MainSimpleSort.MostCompares;
    var nblock := |block|;
    var wfact := if workFactor < 1 then 1 else workFactor;
    if wfact > 100 { wfact := 100; }
    budget := nblock * ((wfact - 1) / 3);
    var arr2 := new int[nblock + MainCompare.N_OVERSHOOT](i => if 0 <= i < nblock then block[i] else 0);
    var quadrant := new int[nblock + MainCompare.N_OVERSHOOT];
    var ftab := new int[65537];
    assert arr2[..nblock] == block;
    assert budget == Allowance(nblock, workFactor);
    budget := MainSort.MainSort(ptr, arr2, quadrant, ftab, nblock, budget, block, m);
  }

  /** BZ2_blockSort: short blocks and those that use up the budget go to the fallback sort. In
      every case the rotations end up sorted. */
  method BlockSort(block: seq<int>, workFactor: int) returns (ptr: array<int>, origPtr: int)
    requires IsBlock(block) && |block| < SmallSorting.SETMASK
    ensures fresh(ptr) && Sorted(block, ptr[..]) && 0 <= origPtr < |block| && ptr[origPtr] == 0
  {
    hide OrderedBy;
    var nblock := |block|;
    ptr := new int[nblock];
    if nblock < 10000 {
      Fallback(block, ptr);
    } else {
      var budget := TryMainSort(block, ptr, workFactor, 0);
      if budget < 0 { Fallback(block, ptr); }
    }
    origPtr := FindOrigPtr(ptr, nblock);
  }

  /** The sorted order as it lies in memory: every word is two halves. */
  method InHalves(ptr: array<int>) returns (arr1: array<int>)
    ensures fresh(arr1) && Holds(arr1[..], ptr[..], 0)
  {
    arr1 := new int[2 * ptr.Length](i requires 0 <= i <
        2 * ptr.Length reads ptr => if i % 2 == 0 then ptr[i / 2] % 65536 else ptr[i / 2] / 65536);
    forall k | 0 <= k < ptr.Length ensures Word(arr1[..], k) == ptr[k] {
      assert (2 * k) % 2 == 0 && (2 * k) / 2 == k && (2 * k + 1) % 2 == 1 && (2 * k + 1) / 2 == k;
    }
  }

  /** What the decoder is given about a block: its symbols stand for the numbers of the last
      column of its sorted rotations. */
  ghost predicate Encodes(codes: seq<int>, inUse: seq<bool>, block: seq<int>, ptr: seq<int>) {
    && Sorted(block, ptr) && Marked(block, inUse) && Symbols(codes, UsedBelow(inUse, 256))
    && StandsFor(ReadAll(codes, UsedBelow(inUse, 256)).out, inUse, LastColumn(ptr, block))
  }

  /** Every byte of the column has been replaced by the number of used bytes below it. */
  ghost predicate StandsFor(numbers: seq<int>, inUse: seq<bool>, col: seq<int>) {
    |numbers| == |col| && Marked(col, inUse) && forall i :: 0 <= i < |col| ==> numbers[i] == UsedBelow(inUse, col[i])
  }

  /** The symbols of a block, at most one more than it has bytes, and where the block itself
      stands among its rotations. */
  method EncodeBlock(block: seq<int>, inUse: seq<bool>, workFactor: int)
    returns (codes: seq<int>, origPtr: nat, ghost order: seq<int>)
    requires IsBlock(block) && |block| < SmallSorting.SETMASK && Marked(block, inUse)
    ensures Encodes(codes, inUse, block, order) && origPtr < |block| && order[origPtr] == 0 && |codes| <= |block| + 1
  {
    hide ReadAll, IsPermutation, OrderedBy;
    var ptr;
    ptr, origPtr := BlockSort(block, workFactor);
    order := ptr[..];
    OrderInside(block, order);
    var arr1 := InHalves(ptr);
    var nMTF, nInUse, mtfFreq, unseqToSeq := GenerateMTFValues(arr1, block, inUse, order);
    codes := arr1[..nMTF];
    ColumnMarked(block, inUse, order);
  }

  lemma OrderInside(block: seq<int>, order: seq<int>)
    requires Sorted(block, order)
    ensures |order| == |block| && forall k :: 0 <= k < |order| ==> 0 <= order[k] < |block|
  {
  }

  lemma ColumnMarked(block: seq<int>, inUse: seq<bool>, order: seq<int>)
    requires |order| == |block| && (forall k :: 0 <= k < |order| ==> 0 <= order[k] < |block|) && Marked(block, inUse)
    ensures Marked(LastColumn(order, block), inUse)
  {
  }

  lemma ColumnBack(numbers: seq<int>, inUse: seq<bool>, col: seq<int>, seqToUnseq: seq<int>)
    requires StandsFor(numbers, inUse, col) && UndoesNumbers(inUse, seqToUnseq) && IsBytes(numbers)
    ensures Numbers(numbers, seqToUnseq) == col
  {
  }

  /** Two used bytes have different numbers, so the symbols cannot stand for two columns. */
  lemma ColumnsTold(numbers: seq<int>, inUse: seq<bool>, col: seq<int>, other: seq<int>)
    requires StandsFor(numbers, inUse, col) && StandsFor(numbers, inUse, other)
    ensures col == other
  {
    forall i | 0 <= i < |col| ensures col[i] == other[i] {
      if col[i] < other[i] { UsedGrows(inUse, col[i], other[i]); }
      if other[i] < col[i] { UsedGrows(inUse, other[i], col[i]); }
    }
  }

  lemma {:induction false} UsedGrows(inUse: seq<bool>, a: nat, b: nat)
    requires a < b <= |inUse| && inUse[a]
    ensures UsedBelow(inUse, a) < UsedBelow(inUse, b)
    decreases b
  {
    if a + 1 < b { UsedGrows(inUse, a, b - 1); }
  }

  /** BZ2_decompress behind the entropy decoder, up to the inverse of the sort. Whatever the
      symbols are, it reports an error if and only if no byte is in use, the block is too long,
      or its place among the rotations lies outside it. */
  method DecodeColumn(codes: seq<int>, inUse: seq<bool>, origPtr: nat, nblockMAX: nat)
    returns (ok: bool, tt: array<int>, nblock: nat, unzftab: array<int>, ghost table: seq<int>)
    requires |inUse| == 256 && (UsedBelow(inUse, 256) >= 1 ==> Symbols(codes, UsedBelow(inUse, 256)))
    ensures var out := ReadAll(codes, UsedBelow(inUse, 256)).out;
            ok <==> UsedBelow(inUse, 256) >= 1 && |out| <= nblockMAX && origPtr < |out|
    ensures var out := ReadAll(codes, UsedBelow(inUse, 256)).out;
            ok ==>
              fresh(tt) && nblock <= tt.Length && UndoesNumbers(inUse, table) && IsBytes(out) &&
                tt[..nblock] == Numbers(out, table)
    ensures ok ==> unzftab.Length == 256 && forall c :: 0 <= c < 256 ==> unzftab[c] == Count(tt[..nblock], c)
  {
    hide ReadAll;
    var seqToUnseq := new int[256](_ => 0);
    var nInUse := MakeMapsD(inUse, seqToUnseq);
    tt := new int[nblockMAX];
    table := seqToUnseq[..];
    nblock, unzftab := 0, seqToUnseq;
    if nInUse == 0 {
      ok := false;
    } else {
      ok, nblock, unzftab := DecodeSymbols(tt, codes, seqToUnseq[..], nInUse, nblockMAX);
      if ok && origPtr >= nblock { ok := false; }
    }
  }

  /** A block the encoder has made is refused if and only if it is longer than the stream's
      blocks may be, and otherwise comes out unchanged. */
  method DecodeBlock(codes: seq<int>, inUse: seq<bool>, origPtr: nat, nblockMAX: nat, small: bool,
                     ghost block: seq<int>, ghost order: seq<int>)
    returns (ok: bool, out: seq<int>)
    requires Encodes(codes, inUse, block, order) && origPtr < |block| && order[origPtr] == 0
    ensures ok <==> |block| <= nblockMAX
    ensures ok ==> out == block
  {
    hide ReadAll, Sorted, LastColumn, UndoesNumbers;
    OrderInside(block, order);
    var tt, nblock, unzftab;
    ghost var table;
    ok, tt, nblock, unzftab, table := DecodeColumn(codes, inUse, origPtr, nblockMAX);
    out := [];
    if ok {
      ColumnBack(ReadAll(codes, UsedBelow(inUse, 256)).out, inUse, LastColumn(order, block), table);
      out := Invert(tt, nblock, unzftab, origPtr, small, block, order);
    }
  }
}
