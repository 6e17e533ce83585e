/** The hashes of the joins and of the partitioner are written in the source as a mask and a
    shift on the word of a key. Here is what that has to do with the bits of the key read as a
    number, and with the sizes of the tables. */
module MaskedHashes {
  import opened BucketChaining
  import BucketChains
  import opened HashFunctions
  import opened HistogramJoin
  import opened KeyBits
  import opened NoPartitionJoin

  // ----- words -----

  /** The number a word stands for, least significant bit first. */
  function Unsigned(w: seq<bool>): (r: nat)
    ensures r < Pow2(|w|)
  {
    if w == [] then 0 else (if w[0] then 1 else 0) + 2 * Unsigned(w[1..])
  }

  /** The same in two's complement. */
  function Signed(w: seq<bool>): int {
    if w != [] && w[|w|-1] then Unsigned(w) - Pow2(|w|) else Unsigned(w)
  }

  /** Bits R .. R+D-1 set. */
  function Mask(n: nat, R: nat, D: nat): (m: seq<bool>)
    ensures |m| == n
  {
    seq(n, i => R <= i < R + D)
  }

  function And(w: seq<bool>, m: seq<bool>): (r: seq<bool>)
    requires |w| == |m|
    ensures |r| == |w|
  {
    seq(|w|, i requires 0 <= i < |w| => w[i] && m[i])
  }

  function ShiftRight(w: seq<bool>, R: nat): (r: seq<bool>)
    ensures |r| == |w|
  {
    seq(|w|, i requires 0 <= i < |w| => i + R < |w| && w[i + R])
  }

  lemma {:induction false} UnsignedSplit(w: seq<bool>, k: nat)
    requires k <= |w|
    ensures Unsigned(w) == Unsigned(w[..k]) + Pow2(k) * Unsigned(w[k..])
  {
    if k > 0 {
      UnsignedSplit(w[1..], k - 1);
      assert w[1..][..k - 1] == w[..k][1..] && w[1..][k - 1..] == w[k..];
      Twice(Pow2(k - 1), Unsigned(w[k..]));
    } else {
      assert w[..0] == [] && w[0..] == w;
    }
  }

  lemma Twice(p: int, u: int)
    ensures 2 * (p * u) == (2 * p) * u
  {
  }

  lemma {:induction false} Zeros(w: seq<bool>)
    requires forall i :: 0 <= i < |w| ==> !w[i]
    ensures Unsigned(w) == 0
  {
    if w != [] { Zeros(w[1..]); }
  }

  /** Masking and shifting keeps the bits of the mask and nothing else. */
  lemma MaskedShifted(w: seq<bool>, R: nat, D: nat)
    requires R + D <= |w|
    ensures Unsigned(ShiftRight(And(w, Mask(|w|, R, D)), R)) == Unsigned(w[R..R + D])
  {
    var s := ShiftRight(And(w, Mask(|w|, R, D)), R);
    UnsignedSplit(s, D);
    assert s[..D] == w[R..R + D];
    Zeros(s[D..]);
  }

  lemma MiddleBits(x: int, low: nat, p: nat, mid: nat, q: nat, high: int)
    requires p >= 1 && q >= 1 && low < p && mid < q && x == low + p * (mid + q * high)
    ensures x / p % q == mid
  {
    RemainderUnique(x, p, mid + q * high, low);
    RemainderUnique(mid + q * high, q, high, mid);
  }

  lemma TwoSplits(a: int, p: int, m: int, q: int, h: int, t: int, s: int)
    ensures a + p * (m + q * h) - s * (p * (q * t)) == a + p * (m + q * (h - s * t))
  {
    Move(q, h, s, t);
    Move(p, m + q * h, s, q * t);
  }

  lemma Move(p: int, u: int, s: int, v: int)
    ensures p * u - s * (p * v) == p * (u - s * v)
    ensures u - s * v == u - v * s
  {
  }

  /** A word is its low bits, its middle bits, and what stands above them. */
  lemma InThreeParts(w: seq<bool>, R: nat, D: nat) returns (high: int)
    requires R + D <= |w|
    ensures Signed(w) == Unsigned(w[..R]) + Pow2(R) * (Unsigned(w[R..R + D]) + Pow2(D) * high)
  {
    hide Unsigned, Pow2;
    UnsignedSplit(w, R);
    UnsignedSplit(w[R..], D);
    assert w[R..][..D] == w[R..R + D] && w[R..][D..] == w[R + D..];
    Pow2Sum(R, |w| - R);
    Pow2Sum(D, |w| - R - D);
    var h: int, t: int := Unsigned(w[R + D..]), Pow2(|w| - R - D);
    var s: int := if w != [] && w[|w|-1] then 1 else 0;
    TwoSplits(Unsigned(w[..R]), Pow2(R), Unsigned(w[R..R + D]), Pow2(D), h, t, s);
    high := h - s * t;
  }

  /** HASH_BIT_MODULO: masking the bits of a key, positive or negative, and shifting them down
      gives the number of its bits R .. R+D-1. */
  lemma HashBitModulo(w: seq<bool>, R: nat, D: nat)
    requires R + D <= |w|
    ensures Bits(R, D)(Signed(w)) == Unsigned(ShiftRight(And(w, Mask(|w|, R, D)), R))
  {
    hide Unsigned, Signed, Pow2, ShiftRight, And, Mask;
    MaskedShifted(w, R, D);
    var high := InThreeParts(w, R, D);
    MiddleBits(Signed(w), Unsigned(w[..R]), Pow2(R), Unsigned(w[R..R + D]), Pow2(D), high);
  }

  /** The same for a mask whose top bits are lost because they do not fit the word. */
  lemma HashBitModuloCut(w: seq<bool>, R: nat, m: nat)
    requires R <= |w|
    ensures Bits(R, if m <= |w| - R then m else |w| - R)(Signed(w)) ==
            Unsigned(ShiftRight(And(w, Mask(|w|, R, m)), R))
  {
    var D := if m <= |w| - R then m else |w| - R;
    assert Mask(|w|, R, m) == Mask(|w|, R, D);
    HashBitModulo(w, R, D);
  }

  lemma {:induction false} Ones(w: seq<bool>)
    requires forall i :: 0 <= i < |w| ==> w[i]
    ensures Unsigned(w) == Pow2(|w|) - 1
  {
    if w != [] { Ones(w[1..]); }
  }

  /** As a number the mask is a power of two less one, shifted up. */
  lemma MaskValue(n: nat, R: nat, D: nat)
    requires R + D <= n
    ensures Unsigned(Mask(n, R, D)) == Pow2(R) * (Pow2(D) - 1)
  {
    hide Unsigned, Pow2;
    var m := Mask(n, R, D);
    UnsignedSplit(m, R);
    Zeros(m[..R]);
    UnsignedSplit(m[R..], D);
    Ones(m[R..][..D]);
    Zeros(m[R..][D..]);
    assert Unsigned(m[R..]) == Pow2(D) - 1;
  }

  // ----- the hashes of the joins -----

  /** The key's word masked with (N-1) << bits, N the number of buckets, and shifted down. */
  lemma ChainHashIsMasked(n: nat, bits: nat, w: seq<bool>)
    requires n >= 1 && bits <= 32 == |w|
    ensures Bits(bits, BucketBits(n, bits))(Signed(w)) ==
            Unsigned(ShiftRight(And(w, Mask(32, bits, Log2Ceil(n))), bits))
  {
    HashBitModuloCut(w, bits, Log2Ceil(n));
  }

  lemma QuarterOfPower(n: nat)
    ensures Pow2(HistLog(n)) == if n == 0 || Pow2(Log2Ceil(n)) / 4 < 4 then 4 else Pow2(Log2Ceil(n)) / 4
  {
    hide Log2Ceil;
    assert Pow2(2) == 4;
    if n >= 1 {
      var m := Log2Ceil(n);
      if m <= 3 { Pow2Grows(m, 3); }
      if m >= 4 {
        Pow2Grows(4, m);
        Pow2Sum(m - 2, 2);
      }
    }
  }

  /** A quarter of the next power of two, but no less than four; and the hash is the key's word
      masked with one less than that, shifted up, and shifted down again. */
  lemma HistHashIsMasked(n: nat, bits: nat, w: seq<bool>)
    requires bits <= 32 == |w|
    ensures Pow2(HistLog(n)) == if n == 0 || Pow2(Log2Ceil(n)) / 4 < 4 then 4 else Pow2(Log2Ceil(n)) / 4
    ensures Bits(bits, HistBits(n, bits))(Signed(w)) == Unsigned(ShiftRight(And(w, Mask(32, bits, HistLog(n))), bits))
  {
    HashBitModuloCut(w, bits, HistLog(n));
    QuarterOfPower(n);
  }

  /** The mask is one less than the number of buckets, shifted down by four, and the hash of a
      key is its word masked with that. */
  lemma TableHashIsMasked(nbuckets: nat, w: seq<bool>)
    requires nbuckets >= 1 && HashWidth(nbuckets) <= |w|
    ensures Unsigned(Mask(|w|, 0, HashWidth(nbuckets))) == (Pow2(Log2Ceil(nbuckets)) - 1) / 16
    ensures Bits(0, HashWidth(nbuckets))(Signed(w)) == Unsigned(And(w, Mask(|w|, 0, HashWidth(nbuckets))))
  {
    var D, m, mask := HashWidth(nbuckets), Log2Ceil(nbuckets), Mask(|w|, 0, HashWidth(nbuckets));
    MaskValue(|w|, 0, D);
    assert Pow2(0) == 1 && Pow2(4) == 16;
    if m < 4 { Pow2Grows(m, 4); } else { Pow2Sum(m - 4, 4); }
    HashBitModulo(w, 0, D);
    assert ShiftRight(And(w, mask), 0) == And(w, mask);
  }

  /** The heads are the least power of two that is at least n / 2; the hash names a sixteenth of
      them. */
  lemma TableOf(n: nat)
    requires n >= BucketChains.BUCKET_SIZE
    ensures n / 2 <= NpoHeads(n) < 2 * (n / 2) && exists m: nat :: NpoHeads(n) == Pow2(m)
    ensures Pow2(NpoBits(n)) - 1 == (NpoHeads(n) - 1) / 16
  {
    var D := NpoBits(n);
    TableHashIsMasked(n / 2, seq(D, _ => false));
    MaskValue(D, 0, D);
    assert Pow2(0) == 1;
  }

  // ----- the hash functions of the partitioner -----

  /** The hash of a value: the word of its distance from min, masked and shifted down. */
  lemma HashedIsMasked(h: ModuloHash, value: int, w: seq<bool>)
    requires h.skip + h.bits <= |w| && value - h.min == Signed(w)
    ensures forall i :: 0 <= i < |w| ==> (Mask(|w|, h.skip, h.bits)[i] <==> InMask(h, i))
    ensures Hashed(h)(value) == Unsigned(ShiftRight(And(w, Mask(|w|, h.skip, h.bits)), h.skip))
    ensures Hashed(h)(value) == (value - h.min) / Pow2(h.skip) % Pow2(h.bits)
  {
    HashBitModulo(w, h.skip, h.bits);
  }
}
