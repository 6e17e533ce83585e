/** How parallel_create_relation in generator.c divides a relation among the threads that
    shuffle it: whole pages each, and the rest to the last thread. A thread starts at the last
    position of its share, so it needs a share that is not empty. */
module ShuffleShares {
  import opened LockedShuffle

  const WORD := 0x1_0000_0000
  const LONG := 0x1_0000_0000_0000_0000

  /** Bytes of a page, and of a tuple of 4-byte integers. */
  const PAGE_SIZE: nat := 4096
  const TUPLE_SIZE: nat := 204

  /** num tuples of ts bytes, pages of ps bytes, n threads. */
  datatype Division = Division(num: nat, ts: nat, ps: nat, n: nat)

  /** Sizes a page can have in an unsigned int, threads that fit one, at least one tuple in a page. */
  predicate Sensible(d: Division) {
    1 <= d.ts <= d.ps < WORD && 1 <= d.n < WORD
  }

  /** npages, an unsigned int. */
  function Pages(d: Division): nat
    requires Sensible(d)
  {
    (d.num * d.ts % LONG / d.ps + 1) % WORD
  }

  /** npages_perthr. */
  function PagesEach(d: Division): nat
    requires Sensible(d)
  {
    Pages(d) / d.n
  }

  function TuplesOnPage(d: Division): nat
    requires Sensible(d)
  {
    d.ps / d.ts
  }

  function Product(x: nat, y: nat): nat {
    x * y
  }

  /** ntuples_perthr. */
  function PerThread(d: Division): nat
    requires Sensible(d)
  {
    if PagesEach(d) == 0 then d.num / d.n else Product(PagesEach(d), TuplesOnPage(d))
  }

  /** ntuples_lastthr. */
  function LastThread(d: Division): int
    requires Sensible(d)
  {
    d.num - Product(PerThread(d), d.n - 1)
  }

  function ShareStart(d: Division, t: nat): nat
    requires Sensible(d) && t < d.n
  {
    Product(t, PerThread(d))
  }

  function ShareSize(d: Division, t: nat): int
    requires Sensible(d) && t < d.n
  {
    if t == d.n - 1 then LastThread(d) else PerThread(d)
  }

  // ----- arithmetic of pages -----

  lemma Times(x: int, y: int, z: nat)
    requires x <= y
    ensures x * z <= y * z
  {
  }

  lemma Cancel(x: int, y: int, z: nat)
    requires z >= 1 && x * z <= y * z
    ensures x <= y
  {
    if y < x { Times(y + 1, x, z); }
  }

  lemma Quotient(x: nat, y: nat)
    requires y >= 1
    ensures x / y * y <= x < x / y * y + y
  {
  }

  /** Wrapping around makes a number no larger. */
  lemma Wraps(x: nat, m: nat)
    requires m >= 1
    ensures x % m <= x
  {
    Quotient(x, m);
  }

  /** The pages counted are at most one more than the pages filled. */
  lemma PagesAtMost(d: Division)
    requires Sensible(d)
    ensures (Pages(d) - 1) * d.ps <= d.num * d.ts
  {
    var bytes := d.num * d.ts % LONG;
    Wraps(d.num * d.ts, LONG);
    Quotient(bytes, d.ps);
    Wraps(bytes / d.ps + 1, WORD);
    Times(Pages(d) - 1, bytes / d.ps, d.ps);
  }

  lemma Distribute(a: int, b: int, c: int)
    ensures a * (b + c) == a * b + a * c
  {
  }

  lemma Associate(a: int, b: int, c: int)
    ensures a * (b * c) == a * b * c
  {
  }

  /** What the whole pages of m threads hold, with the bytes that are left over on each. */
  lemma PageBytes(m: nat, k: nat, per: nat, ts: nat, ps: nat, left: nat)
    requires per * ts + left == ps && k >= 1
    ensures m * ps + (k - 1) * ps == m * per * ts + m * left + (k - 1) * ps && m * left >= 0 && (k - 1) * ps >= 0
  {
    Distribute(m, per * ts, left);
    Associate(m, per, ts);
    Times(0, k - 1, ps);
    Times(0, m, left);
  }

  /** k pages for each of n threads hold no more than all tuples together, even leaving out
      the last thread; and exactly as many only if there is one page each, full to the brim. */
  lemma PagesHold(k: nat, n: nat, ts: nat, ps: nat, num: nat)
    requires k >= 1 && n >= 1 && 1 <= ts <= ps && (k * n - 1) * ps <= num * ts
    ensures k * (ps / ts) * (n - 1) <= num
    ensures n >= 2 && k * (ps / ts) * (n - 1) == num ==> k == 1 && ps % ts == 0
  {
    var per, m := ps / ts, k * (n - 1);
    Quotient(ps, ts);
    assert (k * n - 1) * ps == m * ps + (k - 1) * ps;
    PageBytes(m, k, per, ts, ps, ps % ts);
    Cancel(m * per, num, ts);
    SwapFactors(k, n - 1, per);
    if n >= 2 && m * per == num {
      FullToTheBrim(m, k, n, ps, ps % ts);
    }
  }

  lemma SwapFactors(k: int, n: int, per: int)
    ensures k * n * per == k * per * n
  {
    Associate(k, n, per);
    Associate(k, per, n);
  }

  lemma FullToTheBrim(m: nat, k: nat, n: nat, ps: nat, left: nat)
    requires k >= 1 && n >= 2 && m == k * (n - 1) && ps >= 1 && m * left + (k - 1) * ps <= 0
    ensures k == 1 && left == 0
  {
    Times(0, k - 1, ps);
    Times(0, m, left);
    if k > 1 { Times(1, k - 1, ps); }
    Times(1, n - 1, k);
    Times(1, m, left);
  }

  // ----- the shares -----

  /** An even share for all but the last thread leaves the last at least as much. */
  lemma EvenShares(num: nat, n: nat)
    requires n >= 1
    ensures Product(num / n, n - 1) + num / n <= num
    ensures n <= num ==> num / n >= 1
  {
    Quotient(num, n);
    Distribute(num / n, n - 1, 1);
    if n <= num { assert num / n >= 1; }
  }

  /** Whole pages for all but the last thread. */
  lemma PageShares(d: Division)
    requires Sensible(d) && PagesEach(d) >= 1
    ensures TuplesOnPage(d) >= 1 && PerThread(d) >= 1 && Product(PerThread(d), d.n - 1) <= d.num
    ensures d.n >= 2 && Product(PerThread(d), d.n - 1) == d.num ==>
              d.ps % d.ts == 0 && d.num == Product(d.n - 1, TuplesOnPage(d))
  {
    hide Pages;
    var k, per := PagesEach(d), TuplesOnPage(d);
    PagesAtMost(d);
    Quotient(Pages(d), d.n);
    Times(k * d.n - 1, Pages(d) - 1, d.ps);
    OneOnPage(d);
    Times(1, k, per);
    PagesHold(k, d.n, d.ts, d.ps, d.num);
  }

  lemma OneOnPage(d: Division)
    requires Sensible(d)
    ensures TuplesOnPage(d) >= 1
  {
    Quotient(d.ps, d.ts);
    if TuplesOnPage(d) == 0 { assert false; }
  }

  /** ntuples_lastthr does not wrap around. */
  lemma SomethingLeft(d: Division)
    requires Sensible(d)
    ensures LastThread(d) >= 0
  {
    hide PagesEach, TuplesOnPage, Product;
    if PagesEach(d) == 0 {
      EvenShares(d.num, d.n);
    } else {
      PageShares(d);
    }
  }

  lemma Commute(x: nat, y: nat)
    ensures Product(x, y) == Product(y, x)
  {
  }

  lemma NothingBefore(d: Division)
    requires Sensible(d)
    ensures Product(0, PerThread(d)) == 0
  {
  }

  lemma OneMore(d: Division, t: nat)
    requires Sensible(d)
    ensures Product(t, PerThread(d)) + PerThread(d) == Product(t + 1, PerThread(d))
  {
    hide PerThread;
  }

  /** The shares lie one after the other and the last one ends where the relation ends. */
  lemma SharesTile(d: Division)
    requires Sensible(d)
    ensures ShareStart(d, 0) == 0 && LastThread(d) >= 0
    ensures forall t {:trigger ShareStart(d, t)} ::
              0 <= t < d.n - 1 ==> ShareStart(d, t) + ShareSize(d, t) == ShareStart(d, t + 1)
    ensures ShareStart(d, d.n - 1) + ShareSize(d, d.n - 1) == d.num
  {
    hide PerThread, Product;
    SomethingLeft(d);
    NothingBefore(d);
    Commute(PerThread(d), d.n - 1);
    forall t {:trigger ShareStart(d, t)} | 0 <= t < d.n - 1
      ensures ShareStart(d, t) + ShareSize(d, t) == ShareStart(d, t + 1)
    {
      OneMore(d, t);
    }
  }

  ghost predicate NoShareEmpty(d: Division)
    requires Sensible(d)
  {
    forall t {:trigger ShareSize(d, t)} :: 0 <= t < d.n ==> ShareSize(d, t) >= 1
  }

  /** All pages but one are full and there is one page for every thread, so nothing is left
      for the last. */
  predicate FullPages(d: Division)
    requires Sensible(d)
  {
    d.n >= 2 && d.ps % d.ts == 0 && d.num == Product(d.n - 1, TuplesOnPage(d))
  }

  lemma FullPagesLeaveNothing(d: Division)
    requires Sensible(d) && FullPages(d)
    ensures LastThread(d) == 0
  {
    hide Pages;
    FullPagesCount(d);
    assert PagesEach(d) == 1;
    assert Product(1, TuplesOnPage(d)) == TuplesOnPage(d);
    Commute(TuplesOnPage(d), d.n - 1);
  }

  lemma FullPagesCount(d: Division)
    requires Sensible(d) && FullPages(d)
    ensures Pages(d) == d.n
  {
    var per := TuplesOnPage(d);
    FilledPage(d.ps, d.ts);
    Associate(d.n - 1, per, d.ts);
    assert d.num * d.ts == (d.n - 1) * d.ps;
    WordTimesWord(d.n - 1, d.ps);
    Small((d.n - 1) * d.ps, LONG);
    Small(d.n, WORD);
    WholeQuotient(d.n - 1, d.ps);
  }

  lemma FilledPage(ps: nat, ts: nat)
    requires ts >= 1 && ps % ts == 0
    ensures ps / ts * ts == ps
  {
  }

  lemma WholeQuotient(x: nat, y: nat)
    requires y >= 1
    ensures x * y / y == x
  {
    Quotient(x * y, y);
    Between(x * y / y, x, y);
  }

  lemma Between(q: nat, x: nat, y: nat)
    requires y >= 1 && q * y <= x * y < q * y + y
    ensures q == x
  {
    Cancel(q, x, y);
    if q < x { Times(q + 1, x, y); }
  }

  lemma WordTimesWord(x: nat, y: nat)
    requires x < WORD && y < WORD
    ensures 0 <= x * y < LONG
  {
    Times(0, x, y);
    Times(x, WORD - 1, y);
    assert (WORD - 1) * y == y * (WORD - 1);
    Times(y, WORD - 1, WORD - 1);
    assert (WORD - 1) * (WORD - 1) < LONG;
  }

  lemma Small(x: nat, m: nat)
    requires x < m
    ensures x % m == x
  {
  }

  /** With more threads than tuples somebody gets nothing. */
  lemma TooManyThreads(d: Division)
    requires Sensible(d) && d.num < d.n
    ensures !NoShareEmpty(d)
  {
    hide Pages;
    SharesTile(d);
    if NoShareEmpty(d) {
      assert ShareSize(d, d.n - 1) >= 1;
      if d.n >= 2 {
        assert ShareSize(d, 0) >= 1;
        Times(1, PerThread(d), d.n - 1);
      }
    }
  }

  lemma EnoughForAll(d: Division)
    requires Sensible(d) && d.n <= d.num && !FullPages(d)
    ensures PerThread(d) >= 1 && LastThread(d) >= 1
  {
    hide PagesEach, TuplesOnPage, Product;
    if PagesEach(d) == 0 {
      EvenShares(d.num, d.n);
    } else {
      PageShares(d);
      if d.n == 1 { NothingTaken(PerThread(d)); }
    }
  }

  lemma NothingTaken(x: nat)
    ensures Product(x, 0) == 0
  {
  }

  /** When every thread has something to shuffle. */
  lemma SharesNotEmpty(d: Division)
    requires Sensible(d)
    ensures NoShareEmpty(d) <==> d.n <= d.num && !FullPages(d)
  {
    hide Pages, PerThread, LastThread;
    if d.num < d.n {
      TooManyThreads(d);
    } else if FullPages(d) {
      FullPagesLeaveNothing(d);
      assert ShareSize(d, d.n - 1) == 0;
    } else {
      EnoughForAll(d);
    }
  }

  /** A tuple of 204 bytes never fills a page, so with those sizes only the number of threads
      matters. */
  lemma SharesInUse(num: nat, n: nat)
    requires 1 <= n < WORD
    ensures NoShareEmpty(Division(num, TUPLE_SIZE, PAGE_SIZE, n)) <==> n <= num
  {
    SharesNotEmpty(Division(num, TUPLE_SIZE, PAGE_SIZE, n));
  }

  /** Three tuples and four threads: the first three threads get nothing, and the loop of such a
      thread starts at the wrapped-around index. */
  lemma ThreeForFour()
    ensures var d := Division(3, TUPLE_SIZE, PAGE_SIZE, 4);
            ShareSize(d, 0) == ShareSize(d, 1) == ShareSize(d, 2) == 0 && ShareSize(d, 3) == 3 &&
              (ShareSize(d, 0) - 1) % LONG == LONG - 1
  {
  }

  /** Tuples of 8 bytes, as the type is documented to have: three full pages and four threads
      leave nothing for the last. */
  lemma LastGetsNothing()
    ensures var d := Division(1536, 8, PAGE_SIZE, 4);
            ShareSize(d, 0) == 512 && ShareSize(d, 3) == 0
  {
  }

  /** Divide and shuffle. Thread t goes down its share, from its last position to its second. */
  method ShuffleRelation(keys: seq<int>, ts: nat, ps: nat, n: nat)
    returns (keys': seq<int>, ghost log: seq<Exchanged>)
    requires Sensible(Division(|keys|, ts, ps, n)) && n <= |keys| && !FullPages(Division(|keys|, ts, ps, n))
    ensures Downwards(log, |keys|, n) && keys' == Replayed(keys, log, n) && multiset(keys') == multiset(keys)
    ensures var d := Division(|keys|, ts, ps, n);
            NoShareEmpty(d) && forall t :: 0 <= t < n ==>
              Visited(log, t) == CountDown(ShareStart(d, t) + ShareSize(d, t) - 1, ShareStart(d, t))
  {
    hide PerThread, LastThread, FullPages, ShareSize;
    var d := Division(|keys|, ts, ps, n);
    SharesNotEmpty(d);
    NothingBefore(d);
    var offset, t: nat, lo: seq<nat>, hi: seq<nat> := 0, 0, [], [];
    while t < n
      invariant t <= n && |lo| == |hi| == t && offset == Product(t, PerThread(d))
      invariant forall u :: 0 <= u < t ==> lo[u] < hi[u] <= |keys| && lo[u] == ShareStart(d, u)
      invariant forall u :: 0 <= u < t ==> hi[u] == ShareStart(d, u) + ShareSize(d, u)
    {
      ShareInside(d, t);
      assert ShareSize(d, t) >= 1;
      lo, hi := lo + [offset], hi + [offset + ShareSize(d, t)];
      OneMore(d, t);
      offset := offset + PerThread(d);
      t := t + 1;
    }
    keys', log := Shuffle(keys, lo, hi);
  }

  lemma MoreThreads(t: nat, n: nat, per: nat)
    requires t <= n
    ensures Product(t, per) <= Product(n, per)
  {
    Times(t, n, per);
  }

  lemma ShareInside(d: Division, t: nat)
    requires Sensible(d) && t < d.n
    ensures ShareStart(d, t) + ShareSize(d, t) <= d.num
  {
    hide PerThread, Product;
    if t == d.n - 1 {
      SharesTile(d);
    } else {
      SomethingLeft(d);
      OneMore(d, t);
      Commute(PerThread(d), d.n - 1);
      MoreThreads(t + 1, d.n - 1, PerThread(d));
    }
  }
}
