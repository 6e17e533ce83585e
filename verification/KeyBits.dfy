/** HASH_BIT_MODULO: a stretch of the bits of a key, read as a number. */
module KeyBits {

  function Pow2(k: nat): (r: nat)
    ensures r >= 1
  {
    if k == 0 then 1 else 2 * Pow2(k - 1)
  }

  lemma {:induction false} Pow2Grows(j: nat, k: nat)
    requires j <= k
    ensures Pow2(j) <= Pow2(k)
    decreases k
  {
    if j < k { Pow2Grows(j, k - 1); }
  }

  lemma {:induction false} Pow2Sum(a: nat, b: nat)
    ensures Pow2(a + b) == Pow2(a) * Pow2(b)
  {
    if a > 0 { Pow2Sum(a - 1, b); }
  }

  /** Bits R .. R+D-1 of a key. Division rounds down, so this is what masking and shifting
      the two's complement representation gives for negative keys as well. */
  function Bits(R: nat, D: nat): int -> int {
    key => key / Pow2(R) % Pow2(D)
  }

  lemma BitsRange(R: nat, D: nat, key: int)
    ensures 0 <= Bits(R, D)(key) < Pow2(D)
  {
  }

  lemma AtLeastOnce(q: int, t: int, m: int)
    requires q > t && m > 0
    ensures q * m >= t * m + m
  {
    assert q * m - t * m == (q - t) * m;
    assert (q - t - 1) * m >= 0;
  }

  lemma SameQuotient(q: int, r: int, t: int, y: int, m: int)
    requires m > 0 && 0 <= r < m && 0 <= y < m && q * m + r == t * m + y
    ensures q == t && r == y
  {
    if q > t { AtLeastOnce(q, t, m); }
    if q < t { AtLeastOnce(t, q, m); }
  }

  /** A remainder is the only number in range that differs by a multiple. */
  lemma RemainderUnique(x: int, m: int, t: int, y: int)
    requires m > 0 && x == t * m + y && 0 <= y < m
    ensures x % m == y && x / m == t
  {
    SameQuotient(x / m, x % m, t, y, m);
  }

  lemma NestedRemainder(a: int, b: int, t: int, u: int, r: int)
    requires a > 0 && b > 0 && 0 <= u < b && 0 <= r < a
    ensures 0 <= u * a + r < a * b && a * b > 0
    ensures (t * b + u) * a + r == t * (a * b) + (u * a + r)
  {
    assert (b - 1 - u) * a >= 0;
    assert (b - 1 - u) * a == a * b - a - u * a;
    assert (t * b + u) * a == t * b * a + u * a;
    assert t * b * a == t * (a * b);
  }

  lemma RemainderSplit(x: int, a: int, b: int)
    requires a > 0 && b > 0
    ensures a * b > 0 && x % (a * b) == (x / a % b) * a + x % a
    ensures x / a / b == x / (a * b)
  {
    var q, r := x / a, x % a;
    var t, u := q / b, q % b;
    NestedRemainder(a, b, t, u, r);
    RemainderUnique(x, a * b, t, u * a + r);
  }

  /** The next D bits and the low R bits, put together. */
  lemma BitsJoin(R: nat, D: nat, key: int)
    ensures Bits(0, R + D)(key) == Bits(R, D)(key) * Pow2(R) + Bits(0, R)(key)
  {
    Pow2Sum(R, D);
    RemainderSplit(key, Pow2(R), Pow2(D));
    assert key / Pow2(0) == key;
  }
}
