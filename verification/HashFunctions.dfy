/** The hash functions of hash.cpp and hash.h: rounding the number of buckets to a power of two,
    and splitting one modulo hash into several for a multi-pass partitioning. */
module HashFunctions {
  import opened JoinSpec
  import opened KeyBits
  import opened RealSplit

  /** The width of an unsigned int. */
  const WIDTH: nat := 32

  /** Base 2 logarithm of the next power of two. The loop looks for the highest bit of k - 1;
      for k = 0 that word wraps around to all ones. */
  method GetLogarithm(k: nat) returns (m: nat)
    requires k < Pow2(WIDTH)
    ensures k == 0 ==> m == WIDTH
    ensures k >= 1 ==> k <= Pow2(m) && (m > 0 ==> Pow2(m - 1) < k)
    ensures m <= WIDTH
  {
    hide Pow2;
    var k' := if k == 0 then Pow2(WIDTH) - 1 else k - 1;
    var i := 0;
    while i < WIDTH
      invariant 0 <= i <= WIDTH && k' < Pow2(WIDTH - i)
    {
      // is one of the top i + 1 bits set?
      if k' >= Pow2(WIDTH - i - 1) {
        if k == 0 && i > 0 { AllOnes(i); }
        return WIDTH - i;
      }
      i := i + 1;
    }
    NoBits(k, k');
    return 0;
  }

  lemma AllOnes(i: nat)
    requires 0 < i <= WIDTH
    ensures Pow2(WIDTH) - 1 >= Pow2(WIDTH - i)
  {
    Pow2Grows(WIDTH - i, WIDTH - 1);
    assert Pow2(WIDTH) == 2 * Pow2(WIDTH - 1);
  }

  lemma NoBits(k: nat, k': nat)
    requires k' == (if k == 0 then Pow2(WIDTH) - 1 else k - 1) && k' < Pow2(0)
    ensures k == 1 && Pow2(0) == 1
  {
    if k == 0 { AllOnes(WIDTH); }
  }

  /** A modulo hash: bits skip .. skip + bits - 1 of the distance from min. */
  datatype ModuloHash = ModuloHash(min: int, bits: nat, skip: nat)

  /** Bit i is set in the mask word. */
  predicate InMask(h: ModuloHash, i: nat) {
    h.skip <= i < h.skip + h.bits
  }

  function Hashed(h: ModuloHash): int -> int {
    value => Bits(h.skip, h.bits)(value - h.min)
  }

  function Buckets(h: ModuloHash): nat {
    Pow2(h.bits)
  }

  /** The constructor: one bucket is rounded up to two, everything else to the next power of
      two. */
  method Make(min: int, k: nat, skip: nat) returns (h: ModuloHash)
    requires k < Pow2(WIDTH)
    ensures h.min == min && h.skip == skip && h.bits >= 1
    ensures k <= Buckets(h) && (k >= 2 ==> Pow2(h.bits - 1) < k) && (k <= 1 ==> h.bits == 1)
  {
    var b := 1;
    if k > 1 { b := GetLogarithm(k); }
    h := ModuloHash(min, b, skip);
  }

  /** Only a power of two of buckets is kept as it is, and one bucket is not. */
  lemma MakeOfPower(h: ModuloHash, b: nat)
    requires h.bits >= 1 && Pow2(b) <= Buckets(h) && (Pow2(b) >= 2 ==> Pow2(h.bits - 1) < Pow2(b)) &&
             (Pow2(b) <= 1 ==> h.bits == 1)
    ensures h.bits == if b == 0 then 1 else b
  {
    if b > 0 {
      if h.bits < b { Pow2Strict(h.bits, b); }
      if b < h.bits { Pow2Grows(b, h.bits - 1); }
    }
  }

  lemma {:induction false} Pow2Strict(a: nat, b: nat)
    requires a < b
    ensures Pow2(a) < Pow2(b)
    decreases b
  {
    if a < b - 1 { Pow2Strict(a, b - 1); }
  }

  // ----- generate -----

  /** What generate takes for the number of bits: it asks for the logarithm of one bucket less
      than there are, which for a single bit comes out as zero. */
  function TotalBits(h: ModuloHash): nat {
    if h.bits == 1 then 0 else h.bits
  }

  function AtLeastOne(b: nat): nat {
    if b == 0 then 1 else b
  }

  function BitsPerPass(h: ModuloHash, passes: nat): nat
    requires passes >= 1
  {
    TotalBits(h) / passes
  }

  /** Pass i of the hash functions that generate makes. */
  function PassHash(h: ModuloHash, passes: nat, i: nat): (r: ModuloHash)
    requires passes >= 1 && i < passes
  {
    var per := BitsPerPass(h, passes);
    LeftOver(TotalBits(h), passes);
    if i < passes - 1 then
      LeftOverAt(TotalBits(h), passes, i + 1);
      ModuloHash(h.min, AtLeastOne(per), h.skip + TotalBits(h) - (i + 1) * per)
    else
      ModuloHash(h.min, AtLeastOne(TotalBits(h) - (passes - 1) * per), h.skip)
  }

  lemma Multiples(passes: nat, i: nat, per: nat)
    requires i < passes
    ensures 0 <= i * per <= (passes - 1) * per && (passes - 1) * per + per == passes * per
  {
    assert (passes - 1 - i) * per >= 0;
    assert (passes - 1) * per - i * per == (passes - 1 - i) * per;
  }

  lemma LeftOverAt(total: nat, passes: nat, i: nat)
    requires passes >= 1 && i < passes
    ensures 0 <= i * (total / passes) <= (passes - 1) * (total / passes) &&
            (passes - 1) * (total / passes) + total / passes <= total
  {
    Multiples(passes, i, total / passes);
    assert passes * (total / passes) <= total;
  }

  lemma LeftOver(total: nat, passes: nat)
    requires passes >= 1
    ensures 0 <= (passes - 1) * (total / passes) && (passes - 1) * (total / passes) + total / passes <= total
  {
    LeftOverAt(total, passes, 0);
  }

  /** The loop of generate. */
  method Generate(h: ModuloHash, passes: nat) returns (ret: seq<ModuloHash>)
    requires 1 <= h.bits && h.skip + h.bits < WIDTH && passes >= 1
    ensures |ret| == passes && forall i :: 0 <= i < passes ==> ret[i] == PassHash(h, passes, i)
  {
    hide Pow2, PassHash;
    ret := [];
    BucketsFit(h);
    var totalbitsset := GetLogarithm(Buckets(h) - 1);
    LogarithmIs(h, totalbitsset);
    var bitsperpass := totalbitsset / passes;
    var i := 0;
    while i < passes - 1
      invariant 0 <= i <= passes - 1 && |ret| == i && forall j :: 0 <= j < i ==> ret[j] == PassHash(h, passes, j)
    {
      var hf := OnePassHash(h, passes, i, totalbitsset, bitsperpass);
      ret := ret + [hf];
      i := i + 1;
    }
    var hf := OnePassHash(h, passes, passes - 1, totalbitsset, bitsperpass);
    ret := ret + [hf];
  }

  /** All passes read equally many bits, the topmost first; the last one reads what is left. */
  method OnePassHash(h: ModuloHash, passes: nat, i: nat, totalbitsset: nat, bitsperpass: nat) returns (hf: ModuloHash)
    requires passes >= 1 && i < passes && totalbitsset == TotalBits(h) && totalbitsset < WIDTH &&
             bitsperpass == totalbitsset / passes
    ensures hf == PassHash(h, passes, i)
  {
    hide Pow2;
    LeftOver(totalbitsset, passes);
    if i < passes - 1 {
      LeftOverAt(totalbitsset, passes, i + 1);
      hf := MakePower(h.min, bitsperpass, h.skip + totalbitsset - (i + 1) * bitsperpass);
    } else {
      hf := MakePower(h.min, totalbitsset - (passes - 1) * bitsperpass, h.skip);
    }
  }

  method MakePower(min: int, b: nat, skip: nat) returns (h: ModuloHash)
    requires b < WIDTH
    ensures h == ModuloHash(min, AtLeastOne(b), skip)
  {
    hide Pow2;
    PowerFits(b, b);
    h := Make(min, Pow2(b), skip);
    MakeOfPower(h, b);
  }

  lemma BucketsFit(h: ModuloHash)
    requires h.bits < WIDTH
    ensures Buckets(h) - 1 < Pow2(WIDTH)
  {
    Pow2Grows(h.bits, WIDTH);
  }

  lemma PowerFits(b: nat, total: nat)
    requires b <= total < WIDTH
    ensures Pow2(b) < Pow2(WIDTH)
  {
    Pow2Strict(b, WIDTH);
  }

  lemma LogarithmIs(h: ModuloHash, m: nat)
    requires 1 <= h.bits < WIDTH && m <= WIDTH
    requires Buckets(h) - 1 >= 1 ==> Buckets(h) - 1 <= Pow2(m) && (m > 0 ==> Pow2(m - 1) < Buckets(h) - 1)
    ensures m == TotalBits(h)
  {
    var b := h.bits;
    assert Pow2(b) == 2 * Pow2(b - 1) && Pow2(0) == 1;
    if b >= 2 { assert Pow2(b - 1) == 2 * Pow2(b - 2); }
    if m > b { Pow2Grows(b, m - 1); }
    if m < b { Pow2Grows(m, b - 1); }
  }

  // ----- the masks -----

  ghost predicate MasksDisjoint(ret: seq<ModuloHash>) {
    forall i, j, x :: 0 <= i < j < |ret| && InMask(ret[i], x) ==> !InMask(ret[j], x)
  }

  ghost predicate MasksCover(ret: seq<ModuloHash>, h: ModuloHash) {
    forall x: nat :: InMask(h, x) <==> exists i :: 0 <= i < |ret| && InMask(ret[i], x)
  }

  function PassHashes(h: ModuloHash, passes: nat): (ret: seq<ModuloHash>)
    requires passes >= 1
    ensures |ret| == passes && forall i :: 0 <= i < passes ==> ret[i] == PassHash(h, passes, i)
  {
    seq(passes, i requires 0 <= i < passes => PassHash(h, passes, i))
  }

  /** The stretch of bits that pass i reads, when there are enough bits for all passes. */
  lemma PassStretch(h: ModuloHash, passes: nat, i: nat, x: nat)
    requires 2 <= h.bits && 1 <= passes <= h.bits && i < passes
    ensures BitsPerPass(h, passes) >= 1
    ensures InMask(PassHash(h, passes, i), x) <==>
            (if i < passes - 1 then h.skip + h.bits - (i + 1) * BitsPerPass(h, passes) else h.skip) <= x <
              h.skip + h.bits - i * BitsPerPass(h, passes)
  {
    var per := BitsPerPass(h, passes);
    EnoughBits(h.bits, passes);
    LeftOver(h.bits, passes);
    assert (i + 1) * per == i * per + per;
  }

  lemma EnoughBits(bits: nat, passes: nat)
    requires 1 <= passes <= bits
    ensures bits / passes >= 1
  {
  }

  lemma Disjoint(h: ModuloHash, passes: nat)
    requires 2 <= h.bits && 1 <= passes <= h.bits
    ensures MasksDisjoint(PassHashes(h, passes))
  {
    hide PassHash, InMask, BitsPerPass;
    var ret, per := PassHashes(h, passes), BitsPerPass(h, passes);
    forall i, j, x | 0 <= i < j < passes && InMask(ret[i], x) ensures !InMask(ret[j], x) {
      PassStretch(h, passes, i, x);
      PassStretch(h, passes, j, x);
      Multiples(j + 1, i + 1, per);
    }
  }

  /** The pass that reads a bit of the mask. */
  lemma PassOf(h: ModuloHash, passes: nat, x: nat) returns (i: nat)
    requires 2 <= h.bits && 1 <= passes <= h.bits && InMask(h, x)
    ensures i < passes && InMask(PassHash(h, passes, i), x)
  {
    hide PassHash;
    var per := BitsPerPass(h, passes);
    PassStretch(h, passes, passes - 1, x);
    if x < h.skip + h.bits - (passes - 1) * per {
      i := passes - 1;
    } else {
      var y := h.skip + h.bits - 1 - x;
      i := y / per;
      QuotientBelow(y, per, passes - 1);
      PassStretch(h, passes, i, x);
    }
  }

  lemma QuotientBelow(y: nat, per: nat, m: nat)
    requires per >= 1 && y < m * per
    ensures y / per < m && y / per * per <= y < (y / per + 1) * per
  {
    var q := y / per;
    assert q * per <= y < q * per + per;
    if q >= m { Multiples(q + 1, m, per); }
  }

  lemma Cover(h: ModuloHash, passes: nat)
    requires 2 <= h.bits && 1 <= passes <= h.bits
    ensures MasksCover(PassHashes(h, passes), h)
  {
    hide PassHash;
    var ret := PassHashes(h, passes);
    forall x: nat ensures InMask(h, x) <==> exists i :: 0 <= i < |ret| && InMask(ret[i], x) {
      if InMask(h, x) {
        var i := PassOf(h, passes, x);
        assert InMask(ret[i], x);
      }
      if i :| 0 <= i < |ret| && InMask(ret[i], x) {
        PassStretch(h, passes, i, x);
        LeftOverAt(h.bits, passes, i);
      }
    }
  }

  /** With more passes than bits, some pass reads a bit beyond the mask, or one already read. */
  lemma TooManyPasses(h: ModuloHash, passes: nat)
    requires 1 <= h.bits < passes
    ensures !(MasksDisjoint(PassHashes(h, passes)) && MasksCover(PassHashes(h, passes), h))
  {
    var ret := PassHashes(h, passes);
    FewBits(h.bits, passes);
    var first, last := PassHash(h, passes, 0), PassHash(h, passes, passes - 1);
    assert ret[0] == first == ModuloHash(h.min, 1, h.skip + TotalBits(h));
    if h.bits == 1 {
      assert InMask(ret[0], h.skip) && InMask(ret[passes - 1], h.skip);
    } else {
      assert InMask(ret[0], h.skip + h.bits) && !InMask(h, h.skip + h.bits);
    }
  }

  lemma FewBits(bits: nat, passes: nat)
    requires bits < passes
    ensures bits / passes == 0
  {
  }

  /** The masks divide up the original mask exactly when there are no more passes than bits. */
  lemma MasksSplit(h: ModuloHash, passes: nat)
    requires h.bits >= 1 && passes >= 1
    ensures MasksDisjoint(PassHashes(h, passes)) && MasksCover(PassHashes(h, passes), h) <==> passes <= h.bits
  {
    if passes > h.bits {
      TooManyPasses(h, passes);
    } else if h.bits >= 2 {
      Disjoint(h, passes);
      Cover(h, passes);
    } else {
      var ret := PassHashes(h, 1);
      assert ret[0] == h;
      forall x: nat ensures InMask(h, x) <==> exists i :: 0 <= i < |ret| && InMask(ret[i], x) {
        assert InMask(ret[0], x) <==> InMask(h, x);
      }
    }
  }

  /** With bits to spare in the word, which generate needs, no mask leaves it, however many
      passes there are; so it makes no difference that masks are not cut off here. */
  lemma MasksFitWord(h: ModuloHash, passes: nat, i: nat, x: nat)
    requires 1 <= h.bits && h.skip + h.bits < WIDTH && i < passes
    ensures InMask(h, x) ==> x < WIDTH
    ensures InMask(PassHashes(h, passes)[i], x) ==> x < WIDTH
  {
    var per := BitsPerPass(h, passes);
    LeftOverAt(TotalBits(h), passes, i);
    if i < passes - 1 {
      LeftOverAt(TotalBits(h), passes, i + 1);
      assert (i + 1) * per == i * per + per;
    }
  }

  // ----- the hash values -----

  /** Two adjacent stretches of bits, put together. */
  lemma BitsAdjacent(skip: nat, low: nat, high: nat, x: int)
    ensures Bits(skip, low + high)(x) == Bits(skip + low, high)(x) * Pow2(low) + Bits(skip, low)(x)
  {
    var y := x / Pow2(skip);
    BitsJoin(low, high, y);
    Pow2Sum(skip, low);
    RemainderSplit(x, Pow2(skip), Pow2(low));
    assert y / Pow2(0) == y;
  }

  /** The hashes as the partitioner uses them. */
  function AsHash(h: ModuloHash): Hash {
    Hash(ByKey(Hashed(h)), Buckets(h))
  }

  function AsHashes(ret: seq<ModuloHash>): (hfs: seq<Hash>)
    ensures |hfs| == |ret| && forall i :: 0 <= i < |ret| ==> hfs[i] == AsHash(ret[i])
  {
    seq(|ret|, i requires 0 <= i < |ret| => AsHash(ret[i]))
  }

  lemma AsHashProper(h: ModuloHash)
    ensures Proper(AsHash(h))
  {
    forall t: Tuple ensures 0 <= AsHash(h).f(t) < AsHash(h).buckets { BitsRange(h.skip, h.bits, t.key - h.min); }
  }

  /** The first m passes, none of them the last, read the top m * per bits. */
  lemma {:induction false} TopBits(h: ModuloHash, passes: nat, m: nat, t: Tuple)
    requires 2 <= h.bits && 1 <= passes <= h.bits && m < passes
    ensures 0 <= m * BitsPerPass(h, passes) <= h.bits
    ensures var hfs, done := AsHashes(PassHashes(h, passes)), m * BitsPerPass(h, passes);
            Combine(hfs, m).buckets == Pow2(done) &&
              Combine(hfs, m).f(t) == Bits(h.skip + h.bits - done, done)(t.key - h.min)
  {
    var per := BitsPerPass(h, passes);
    LeftOverAt(h.bits, passes, m);
    if m > 0 {
      TopBits(h, passes, m - 1, t);
      EnoughBits(h.bits, passes);
      assert m * per == (m - 1) * per + per;
      NextBits(AsHashes(PassHashes(h, passes)), m, h.skip + h.bits - m * per, per, (m - 1) * per, h.min, t);
    } else {
      assert t.key - h.min == 0 * 0 + (t.key - h.min);
    }
  }

  /** One more pass appends its bits below. */
  lemma NextBits(hfs: seq<Hash>, m: nat, skip: nat, low: nat, high: nat, min: int, t: Tuple)
    requires 1 <= m <= |hfs| && hfs[m - 1] == AsHash(ModuloHash(min, low, skip))
    requires Combine(hfs, m - 1).buckets == Pow2(high) &&
             Combine(hfs, m - 1).f(t) == Bits(skip + low, high)(t.key - min)
    ensures Combine(hfs, m).buckets == Pow2(low + high) && Combine(hfs, m).f(t) == Bits(skip, low + high)(t.key - min)
  {
    BitsAdjacent(skip, low, high, t.key - min);
    Pow2Sum(high, low);
  }

  lemma AllBits(h: ModuloHash, passes: nat, t: Tuple)
    requires 1 <= passes <= h.bits
    ensures var c := Combine(AsHashes(PassHashes(h, passes)), passes);
            c.buckets == Buckets(h) && c.f(t) == AsHash(h).f(t)
  {
    var hfs, per := AsHashes(PassHashes(h, passes)), BitsPerPass(h, passes);
    if h.bits == 1 {
      assert hfs[0] == AsHash(h);
      OnePass(hfs, t);
    } else {
      EnoughBits(h.bits, passes);
      TopBits(h, passes, passes - 1, t);
      LeftOver(h.bits, passes);
      NextBits(hfs, passes, h.skip, h.bits - (passes - 1) * per, (passes - 1) * per, h.min, t);
    }
  }

  lemma OnePass(hfs: seq<Hash>, t: Tuple)
    requires |hfs| >= 1
    ensures Combine(hfs, 1).buckets == hfs[0].buckets && Combine(hfs, 1).f(t) == hfs[0].f(t)
  {
    assert Combine(hfs, 0).f(t) == 0;
  }

  lemma {:induction false} LeadingDigit(hfs: seq<Hash>, m: nat, t: Tuple)
    requires 1 <= m <= |hfs| && hfs[0].f(t) >= 1 && forall i :: 0 <= i < |hfs| ==> Proper(hfs[i]) && hfs[i].buckets >= 2
    ensures Combine(hfs, m).f(t) >= if m == 1 then 1 else 2
  {
    if m == 1 {
      OnePass(hfs, t);
    } else {
      LeadingDigit(hfs, m - 1, t);
      AtLeastTwice(Combine(hfs, m - 1).f(t), hfs[m - 1].f(t), hfs[m - 1].buckets);
    }
  }

  lemma AtLeastTwice(a: int, b: int, k: int)
    requires a >= 1 && b >= 0 && k >= 2
    ensures a * k + b >= 2
  {
    assert (a - 1) * k >= 0;
    assert (a - 1) * k == a * k - k;
  }

  /** With more passes than bits the value just above the mask (or the only bit of it) hashes
      differently. */
  lemma TooManyPassesDiffer(h: ModuloHash, passes: nat)
    requires 1 <= h.bits < passes
    ensures var t := Tuple(h.min + Pow2(h.skip + TotalBits(h)), []);
            Combine(AsHashes(PassHashes(h, passes)), passes).f(t) != AsHash(h).f(t)
  {
    var t := Tuple(h.min + Pow2(h.skip + TotalBits(h)), []);
    var hfs := AsHashes(PassHashes(h, passes));
    FewBits(h.bits, passes);
    forall i | 0 <= i < |hfs| ensures Proper(hfs[i]) && hfs[i].buckets >= 2 { AsHashProper(PassHash(h, passes, i)); }
    FirstDigit(h, passes);
    LeadingDigit(hfs, passes, t);
    AboveMask(h);
  }

  /** The value that is hashed differently is one of the word. */
  lemma ValueFitsWord(h: ModuloHash)
    requires 1 <= h.bits && h.skip + h.bits < WIDTH
    ensures Pow2(h.skip + TotalBits(h)) < Pow2(WIDTH)
  {
    Pow2Strict(h.skip + TotalBits(h), WIDTH);
  }

  lemma FirstDigit(h: ModuloHash, passes: nat)
    requires 1 <= h.bits < passes
    ensures AsHash(PassHash(h, passes, 0)).f(Tuple(h.min + Pow2(h.skip + TotalBits(h)), [])) == 1
  {
    FewBits(h.bits, passes);
    var p := h.skip + TotalBits(h);
    var x := Pow2(p);
    assert x / Pow2(p) == 1;
    assert Pow2(1) == 2 * Pow2(0);
    assert Bits(p, 1)(x) == 1;
    assert PassHash(h, passes, 0) == ModuloHash(h.min, 1, p);
  }

  lemma AboveMask(h: ModuloHash)
    requires 1 <= h.bits
    ensures AsHash(h).f(Tuple(h.min + Pow2(h.skip + TotalBits(h)), [])) == if h.bits == 1 then 1 else 0
  {
    var x, T := Pow2(h.skip + TotalBits(h)), TotalBits(h);
    Pow2Sum(h.skip, T);
    RemainderUnique(x, Pow2(h.skip), Pow2(T), 0);
    assert x / Pow2(h.skip) == Pow2(T);
    if h.bits == 1 {
      assert Pow2(0) == 1 && Pow2(1) == 2;
    } else {
      RemainderUnique(Pow2(T), Pow2(T), 1, 0);
      assert Bits(h.skip, h.bits)(x) == Pow2(T) % Pow2(T) == 0;
    }
    var t := Tuple(h.min + x, []);
    assert t.key - h.min == x;
    assert AsHash(h).f(t) == Hashed(h)(t.key) == Bits(h.skip, h.bits)(x);
  }

  /** The pass hashes put together are the original hash, for every key, exactly when there
      are no more passes than bits. */
  lemma HashSplit(h: ModuloHash, passes: nat)
    requires h.bits >= 1 && passes >= 1
    ensures (forall t: Tuple {:trigger AsHash(h).f(t)} ::
                Combine(AsHashes(PassHashes(h, passes)), passes).f(t) == AsHash(h).f(t)) <==> passes <= h.bits
  {
    if passes <= h.bits {
      forall t: Tuple
        ensures Combine(AsHashes(PassHashes(h, passes)), passes).f(t) == AsHash(h).f(t)
      {
        AllBits(h, passes, t);
      }
    } else {
      TooManyPassesDiffer(h, passes);
    }
  }
}
