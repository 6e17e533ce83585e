/** RadixPartitioner::split: the pages of a table are shared out, every thread copies its pages
    to where they belong in the buffer, the buffer is partitioned, and the tables of the result
    are made to point to its clusters. */
module RadixSplit {
  import opened CursorPlacement
  import opened FlatMemoryJoin
  import opened HashFunctions
  import opened JoinSpec
  import opened KeyBits
  import opened Options
  import opened PageHandout
  import opened RadixBuffers
  import opened RealSplit
  import opened StablePartition
  import opened Sums

  // ----- sharing out the pages -----

  ghost function TuplesOf(): seq<Relation> -> multiset<Tuple> {
    (list: seq<Relation>) => multiset(Flat(list))
  }

  /** The tuples of all lists, list after list and page after page. */
  function Input(lists: seq<seq<Relation>>): Relation {
    if lists == [] then [] else Input(lists[..|lists|-1]) + Flat(lists[|lists|-1])
  }

  lemma InputSnoc(lists: seq<seq<Relation>>, t: nat)
    requires t < |lists|
    ensures Input(lists[..t + 1]) == Input(lists[..t]) + Flat(lists[t])
  {
    assert lists[..t + 1][..t] == lists[..t];
  }

  lemma {:induction false} InputUnion(lists: seq<seq<Relation>>)
    ensures multiset(Input(lists)) == Union(lists, TuplesOf())
  {
    if lists != [] { InputUnion(lists[..|lists|-1]); }
  }

  lemma {:induction false} FlatSnoc(pages: seq<Relation>, page: Relation)
    ensures Flat(pages + [page]) == Flat(pages) + page
  {
    if pages == [] {
      assert [] + [page] == [page] && [page][1..] == [];
    } else {
      assert (pages + [page])[1..] == pages[1..] + [page];
      FlatSnoc(pages[1..], page);
    }
  }

  /** The pages of thread t: every nthreads-th, from page t on, the latest in front. */
  ghost function Dealt(pages: seq<Relation>, nthreads: nat, t: nat): seq<Relation>
    requires nthreads >= 1
  {
    if pages == [] then []
    else
      var n := |pages| - 1;
      (if n % nthreads == t then [pages[n]] else []) + Dealt(pages[..n], nthreads, t)
  }

  /** One more divides like this. */
  lemma DivideNext(x: nat, m: nat)
    requires m >= 1
    ensures x % m == m - 1 ==> (x + 1) / m == x / m + 1 && (x + 1) % m == 0
    ensures x % m < m - 1 ==> (x + 1) / m == x / m && (x + 1) % m == x % m + 1
  {
    var q, r := x / m, x % m;
    assert x == q * m + r;
    if r == m - 1 {
      assert (q + 1) * m == q * m + m;
      RemainderUnique(x + 1, m, q + 1, 0);
    } else {
      RemainderUnique(x + 1, m, q, r + 1);
    }
  }

  /** All threads get equally many pages, up to one. */
  lemma {:induction false} DealtEvenly(pages: seq<Relation>, nthreads: nat, t: nat)
    requires t < nthreads
    ensures |Dealt(pages, nthreads, t)| == |pages| / nthreads + if t < |pages| % nthreads then 1 else 0
  {
    if pages != [] {
      DealtEvenly(pages[..|pages|-1], nthreads, t);
      DivideNext(|pages| - 1, nthreads);
    } else {
      RemainderUnique(0, nthreads, 0, 0);
    }
  }

  lemma DealtNext(pages: seq<Relation>, i: nat, nthreads: nat, t: nat)
    requires i < |pages| && nthreads >= 1
    ensures Dealt(pages[..i + 1], nthreads, t) ==
            (if i % nthreads == t then [pages[i]] else []) + Dealt(pages[..i], nthreads, t)
  {
    assert pages[..i + 1][..i] == pages[..i];
  }

  /** Round and round: the thread whose turn it is. */
  lemma NextInTurn(i: nat, nthreads: nat)
    requires nthreads >= 1
    ensures (i + 1) % nthreads == (i % nthreads + 1) % nthreads
  {
    DivideNext(i, nthreads);
    if i % nthreads < nthreads - 1 { RemainderUnique(i % nthreads + 1, nthreads, 0, i % nthreads + 1); }
  }

  /** The order in which all tuples come into the buffer. */
  ghost function InOrder(pages: seq<Relation>, nthreads: nat): Relation
    requires nthreads >= 1
  {
    Input(seq(nthreads, t requires 0 <= t < nthreads => Dealt(pages, nthreads, t)))
  }

  /** Table::split: the pages go to the threads in turn, the latest in front. */
  method ShareOut(pages: seq<Relation>, nthreads: nat) returns (lists: seq<seq<Relation>>)
    requires nthreads >= 1
    ensures |lists| == nthreads && multiset(Input(lists)) == multiset(Flat(pages))
    ensures forall t :: 0 <= t < nthreads ==> lists[t] == Dealt(pages, nthreads, t)
  {
    hide Union, Flat, Dealt;
    lists := seq(nthreads, _ => []);
    var curthr, i := 0, 0;
    NothingShared(lists);
    NothingDealt(nthreads);
    assert pages[..0] == [];
    while i < |pages|
      invariant 0 <= i <= |pages| && |lists| == nthreads && 0 <= curthr < nthreads
      invariant Union(lists, TuplesOf()) == multiset(Flat(pages[..i]))
      invariant curthr == i % nthreads && forall t :: 0 <= t < nthreads ==> lists[t] == Dealt(pages[..i], nthreads, t)
    {
      forall t | 0 <= t < nthreads
        ensures Dealt(pages[..i + 1], nthreads, t) ==
                (if i % nthreads == t then [pages[i]] else []) + Dealt(pages[..i], nthreads, t)
      {
        DealtNext(pages, i, nthreads, t);
      }
      NextInTurn(i, nthreads);
      UnionUpdate(lists, curthr, [pages[i]] + lists[curthr], TuplesOf());
      InFront(pages[i], lists[curthr]);
      assert pages[..i + 1] == pages[..i] + [pages[i]];
      FlatSnoc(pages[..i], pages[i]);
      OneMorePage(Union(lists, TuplesOf()), multiset(Flat(lists[curthr])), multiset(pages[i]),
                  Union(lists[curthr := [pages[i]] + lists[curthr]], TuplesOf()));
      lists := lists[curthr := [pages[i]] + lists[curthr]];
      curthr := (curthr + 1) % nthreads;
      i := i + 1;
    }
    assert pages[..i] == pages;
    InputUnion(lists);
  }

  lemma NothingDealt(nthreads: nat)
    requires nthreads >= 1
    ensures forall t :: 0 <= t < nthreads ==> Dealt([], nthreads, t) == []
  {
  }

  lemma NothingShared(lists: seq<seq<Relation>>)
    requires forall t :: 0 <= t < |lists| ==> lists[t] == []
    ensures Union(lists, TuplesOf()) == multiset(Flat([]))
  {
    UnionEmpty(lists, TuplesOf());
  }

  lemma InFront(page: Relation, list: seq<Relation>)
    ensures multiset(Flat([page] + list)) == multiset(page) + multiset(Flat(list))
  {
    assert ([page] + list)[1..] == list;
  }

  lemma OneMorePage(u: multiset<Tuple>, old_: multiset<Tuple>, page: multiset<Tuple>, u': multiset<Tuple>)
    requires u' + old_ == u + (page + old_)
    ensures u' == u + page
  {
    forall x ensures u'[x] == (u + page)[x] {
      assert (u' + old_)[x] == (u + (page + old_))[x];
    }
  }

  // ----- copying them into the buffer -----

  /** Where each thread's tuples begin. */
  ghost predicate Offsets(lists: seq<seq<Relation>>, dest: seq<nat>) {
    |dest| == |lists| && forall t :: 0 <= t < |lists| ==> dest[t] == |Input(lists[..t])|
  }

  method DestOffsets(lists: seq<seq<Relation>>) returns (dest: seq<nat>)
    ensures Offsets(lists, dest)
  {
    hide Flat;
    dest := [];
    var accum, t := 0, 0;
    while t < |lists|
      invariant 0 <= t <= |lists| == |lists| && |dest| == t && accum == |Input(lists[..t])|
      invariant forall u :: 0 <= u < t ==> dest[u] == |Input(lists[..u])|
    {
      InputSnoc(lists, t);
      dest := dest + [accum];
      accum := accum + |Flat(lists[t])|;
      t := t + 1;
    }
  }

  /** Thread t has copied the first pc[t] of its tuples. */
  ghost predicate Copied(lists: seq<seq<Relation>>, dest: seq<nat>, buf: Relation, pc: seq<nat>) {
    && Offsets(lists, dest) && |pc| == |lists| && |buf| == |Input(lists)|
    && forall t {:trigger pc[t]} :: 0 <= t < |lists| ==> CopiedBy(lists[t], dest[t], buf, pc[t])
  }

  ghost predicate CopiedBy(list: seq<Relation>, start: nat, buf: Relation, n: nat) {
    n <= |Flat(list)| && start + |Flat(list)| <= |buf| && forall k :: 0 <= k < n ==> buf[start + k] == Flat(list)[k]
  }

  /** The tuples of an earlier thread end before those of a later one begin. */
  lemma {:induction false} OffsetsAscend(lists: seq<seq<Relation>>, t: nat, u: nat)
    requires t < u <= |lists|
    ensures |Input(lists[..t])| + |Flat(lists[t])| <= |Input(lists[..u])| <= |Input(lists)|
    decreases |lists| - t
  {
    hide Flat, Input;
    InputSnoc(lists, t);
    InputGrows(lists, t + 1, u);
    InputGrows(lists, u, |lists|);
    assert lists[..|lists|] == lists;
  }

  lemma {:induction false} InputGrows(lists: seq<seq<Relation>>, t: nat, u: nat)
    requires t <= u <= |lists|
    ensures |Input(lists[..t])| <= |Input(lists[..u])|
    decreases u
  {
    hide Flat, Input;
    if t < u {
      InputGrows(lists, t, u - 1);
      InputSnoc(lists, u - 1);
    }
  }

  /** One tuple, copied by any thread that is not done: nobody else's place is written. */
  lemma CopyStep(lists: seq<seq<Relation>>, dest: seq<nat>, buf: Relation, pc: seq<nat>, t: nat)
    requires Copied(lists, dest, buf, pc) && t < |lists| && pc[t] < |Flat(lists[t])|
    ensures dest[t] + pc[t] < |buf|
    ensures Copied(lists, dest, buf[dest[t] + pc[t] := Flat(lists[t])[pc[t]]], pc[t := pc[t] + 1])
  {
    hide Flat, Input;
    var q := dest[t] + pc[t];
    assert CopiedBy(lists[t], dest[t], buf, pc[t]);
    var buf', pc' := buf[q := Flat(lists[t])[pc[t]]], pc[t := pc[t] + 1];
    forall u {:trigger pc'[u]} | 0 <= u < |lists| ensures CopiedBy(lists[u], dest[u], buf', pc'[u]) {
      assert CopiedBy(lists[u], dest[u], buf, pc[u]);
      if u < t { OffsetsAscend(lists, u, t); }
      if t < u { OffsetsAscend(lists, t, u); }
    }
  }

  lemma CopyBegins(lists: seq<seq<Relation>>, dest: seq<nat>, buf: Relation, pc: seq<nat>)
    requires Offsets(lists, dest) && |buf| == |Input(lists)| && |pc| == |lists| &&
             forall t :: 0 <= t < |pc| ==> pc[t] == 0
    ensures Copied(lists, dest, buf, pc)
  {
    hide Flat, Input;
    forall t {:trigger pc[t]} | 0 <= t < |lists| ensures CopiedBy(lists[t], dest[t], buf, pc[t]) {
      OffsetsAscend(lists, t, t + 1);
      InputSnoc(lists, t);
    }
  }

  /** When all threads are done, the buffer holds the whole input. */
  lemma {:induction false} CopyEnds(lists: seq<seq<Relation>>, dest: seq<nat>, buf: Relation, pc: seq<nat>, m: nat)
    requires Copied(lists, dest, buf, pc) && m <= |lists| && forall t :: 0 <= t < |pc| ==> pc[t] == |Flat(lists[t])|
    ensures |Input(lists[..m])| <= |buf| && buf[..|Input(lists[..m])|] == Input(lists[..m])
    decreases m
  {
    hide Flat, Input;
    InputGrows(lists, m, |lists|);
    assert lists[..|lists|] == lists;
    if m > 0 {
      CopyEnds(lists, dest, buf, pc, m - 1);
      InputSnoc(lists, m - 1);
      assert CopiedBy(lists[m - 1], dest[m - 1], buf, pc[m - 1]);
      PrefixGrows(buf, Input(lists[..m - 1]), Flat(lists[m - 1]));
    } else {
      NoInput(lists);
    }
  }

  lemma NoInput(lists: seq<seq<Relation>>)
    ensures Input(lists[..0]) == []
  {
    assert lists[..0] == [];
  }

  lemma PrefixGrows(buf: Relation, before: Relation, mine: Relation)
    requires |before| + |mine| <= |buf| && buf[..|before|] == before
    requires forall k :: 0 <= k < |mine| ==> buf[|before| + k] == mine[k]
    ensures buf[..|before + mine|] == before + mine
  {
    forall k | 0 <= k < |before| + |mine| ensures buf[k] == (before + mine)[k] {
      if k < |before| {
        assert buf[..|before|][k] == before[k];
      } else {
        assert buf[|before| + (k - |before|)] == mine[k - |before|];
      }
    }
  }

  /** What is left to copy. */
  ghost function Left(lists: seq<seq<Relation>>, pc: seq<nat>, m: nat): int
    requires m <= |lists| == |pc|
  {
    if m == 0 then 0 else Left(lists, pc, m - 1) + |Flat(lists[m - 1])| - pc[m - 1]
  }

  lemma {:induction false} LeftShrinks(lists: seq<seq<Relation>>, pc: seq<nat>, t: nat, m: nat)
    requires m <= |lists| == |pc| && t < |pc|
    ensures Left(lists, pc[t := pc[t] + 1], m) == Left(lists, pc, m) - if t < m then 1 else 0
  {
    if m > 0 { LeftShrinks(lists, pc, t, m - 1); }
  }

  lemma {:induction false} LeftNat(lists: seq<seq<Relation>>, pc: seq<nat>, m: nat)
    requires m <= |lists| == |pc| && forall t :: 0 <= t < |pc| ==> pc[t] <= |Flat(lists[t])|
    ensures Left(lists, pc, m) >= 0
  {
    if m > 0 { LeftNat(lists, pc, m - 1); }
  }

  lemma CopiedCounters(lists: seq<seq<Relation>>, dest: seq<nat>, buf: Relation, pc: seq<nat>)
    requires Copied(lists, dest, buf, pc)
    ensures |pc| == |lists| == |dest| && forall t :: 0 <= t < |pc| ==> pc[t] <= |Flat(lists[t])|
  {
    forall t | 0 <= t < |pc| ensures pc[t] <= |Flat(lists[t])| { assert CopiedBy(lists[t], dest[t], buf, pc[t]); }
  }

  /** parallelCopyTuples by all threads, tuple by tuple and in any order, up to the barrier. */
  method CopyIn(lists: seq<seq<Relation>>, dest: seq<nat>, buf: array<Tuple>)
    requires Offsets(lists, dest) && buf.Length == |Input(lists)|
    modifies buf
    ensures buf[..] == Input(lists)
  {
    hide Copied, Flat, Input, Left;
    var pc: seq<nat> := seq(|lists|, _ => 0);
    CopyBegins(lists, dest, buf[..], pc);
    CopiedCounters(lists, dest, buf[..], pc);
    while exists t :: 0 <= t < |lists| && pc[t] < |Flat(lists[t])|
      invariant Copied(lists, dest, buf[..], pc) && |pc| == |lists| == |dest|
      decreases Left(lists, pc, |lists|)
    {
      var t :| 0 <= t < |lists| && pc[t] < |Flat(lists[t])|;
      CopiedCounters(lists, dest, buf[..], pc);
      LeftNat(lists, pc, |lists|);
      LeftShrinks(lists, pc, t, |lists|);
      CopyStep(lists, dest, buf[..], pc, t);
      buf[dest[t] + pc[t]] := Flat(lists[t])[pc[t]];
      pc := pc[t := pc[t] + 1];
    }
    CopiedCounters(lists, dest, buf[..], pc);
    CopyEnds(lists, dest, buf[..], pc, |lists|);
    assert lists[..|lists|] == lists;
  }

  // ----- the whole split -----

  lemma {:induction false} FilterCounts(s: Relation, f: Tuple -> int, h: int, x: Tuple)
    ensures multiset(Filter(s, f, h))[x] == if f(x) == h then multiset(s)[x] else 0
  {
    if s != [] {
      assert s == s[..|s|-1] + [s[|s|-1]];
      FilterCounts(s[..|s|-1], f, h, x);
    }
  }

  lemma SameFilter(a: Relation, b: Relation, f: Tuple -> int, h: int)
    requires multiset(a) == multiset(b)
    ensures multiset(Filter(a, f, h)) == multiset(Filter(b, f, h))
  {
    forall x ensures multiset(Filter(a, f, h))[x] == multiset(Filter(b, f, h))[x] {
      FilterCounts(a, f, h, x);
      FilterCounts(b, f, h, x);
    }
  }

  /** All pass hashes as one. */
  function AllPasses(hashfn: ModuloHash, passes: nat): Hash
    requires passes >= 1
  {
    Combine(AsHashes(PassHashes(hashfn, passes)), passes)
  }

  /** With more passes than bits there are more clusters than tables. */
  lemma TooManyClusters(hashfn: ModuloHash, passes: nat)
    requires 1 <= hashfn.bits < passes
    ensures AllPasses(hashfn, passes).buckets > Buckets(hashfn)
  {
    hide PassHash;
    var hfs := AsHashes(PassHashes(hashfn, passes));
    LastPassBits(hashfn, passes);
    AtLeastTwo(hashfn, passes, passes - 1);
    var before := Combine(hfs, passes - 1).buckets;
    assert before * Buckets(hashfn) >= 2 * Buckets(hashfn);
  }

  lemma LastPassBits(hashfn: ModuloHash, passes: nat)
    requires 1 <= hashfn.bits < passes
    ensures PassHash(hashfn, passes, passes - 1).bits == hashfn.bits
  {
    FewBits(hashfn.bits, passes);
  }

  lemma {:induction false} AtLeastTwo(hashfn: ModuloHash, passes: nat, m: nat)
    requires 1 <= m <= passes && hashfn.bits >= 1
    ensures Combine(AsHashes(PassHashes(hashfn, passes)), m).buckets >= 2
  {
    hide PassHash;
    var hfs := AsHashes(PassHashes(hashfn, passes));
    TwoBuckets(hashfn, passes, m - 1);
    if m > 1 {
      AtLeastTwo(hashfn, passes, m - 1);
      Doubled(Combine(hfs, m - 1).buckets, hfs[m - 1].buckets);
    }
  }

  lemma Doubled(x: nat, y: nat)
    requires x >= 2 && y >= 2
    ensures x * y >= 2
  {
    assert (x - 1) * y >= 0;
    assert (x - 1) * y == x * y - y;
  }

  lemma TwoBuckets(hashfn: ModuloHash, passes: nat, i: nat)
    requires i < passes
    ensures AsHash(PassHash(hashfn, passes, i)).buckets >= 2
  {
    Pow2Grows(1, PassHash(hashfn, passes, i).bits);
    assert Pow2(1) == 2 * Pow2(0);
  }

  /** With no more passes than bits the passes together are the hash function itself. */
  lemma AllPassesAre(s: Relation, hashfn: ModuloHash, passes: nat, row: seq<int>)
    requires 1 <= passes <= hashfn.bits
    requires |row| == AllPasses(hashfn, passes).buckets && Ends(row, s, AllPasses(hashfn, passes).f)
    ensures var c := AllPasses(hashfn, passes);
            c.buckets == Buckets(hashfn) && Ends(row, s, AsHash(hashfn).f) &&
            Partition(s, c.f, c.buckets) == Partition(s, AsHash(hashfn).f, Buckets(hashfn))
  {
    PassesAreOne(s, hashfn, passes, row);
  }

  /** The first half of split: fill the buffer, then partition it. */
  method FillAndPartition(pages: seq<Relation>, junk: Tuple, hashfn: ModuloHash, passes: nat, nthreads: nat)
    returns (out: array<Tuple>, offsets: array<int>, ghost input: Relation)
    requires nthreads >= 1 && passes >= 1 && 1 <= hashfn.bits && hashfn.skip + hashfn.bits < WIDTH
    ensures var c := AllPasses(hashfn, passes);
            multiset(input) == multiset(Flat(pages)) && out[..] == Partition(input, c.f, c.buckets) &&
            offsets.Length == c.buckets && Ends(offsets[..], input, c.f)
    ensures input == InOrder(pages, nthreads)
  {
    hide Partition, Ends, Combine, PassHash, Flat, Input, Dealt;
    var oldbuf, newbuf := Init(Flat(pages), junk);
    var lists := ShareOut(pages, nthreads);
    var dest := DestOffsets(lists);
    input := Input(lists);
    assert lists == seq(nthreads, t requires 0 <= t < nthreads => Dealt(pages, nthreads, t));
    assert |input| == |multiset(input)| == |multiset(Flat(pages))| == |Flat(pages)|;
    assert |oldbuf[..]| == |input| && |newbuf[..]| == |input|;
    CopyIn(lists, dest, oldbuf);
    var passhashes := Generate(hashfn, passes);
    assert passhashes == PassHashes(hashfn, passes);
    forall i | 0 <= i < passes ensures Proper(AsHashes(passhashes)[i]) { AsHashProper(passhashes[i]); }
    out, offsets := Run(oldbuf, newbuf, AsHashes(passhashes), nthreads);
  }

  /** What a table of the result holds. */
  ghost function Pointed(page: Relation, table: Option<Placement>): Relation {
    if table.Some? && 0 <= table.value.start && 0 <= table.value.items &&
       table.value.start + table.value.items <= |page|
    then page[table.value.start..table.value.start + table.value.items]
    else []
  }

  /** Table h of the result points to exactly the tuples with hash h. */
  ghost predicate TableOfHash(page: Relation, tables: seq<Option<Placement>>, all: Relation, f: Tuple -> int, h: nat) {
    && h < |tables| && tables[h].Some? && 0 <= tables[h].value.start && 0 <= tables[h].value.items
    && tables[h].value.start + tables[h].value.items <= |page|
    && multiset(Pointed(page, tables[h])) == multiset(Filter(all, f, h))
  }

  lemma PlacedTable(s: Relation, all: Relation, p: Relation, f: Tuple -> int, k: nat, row: seq<int>,
                    tables: seq<Option<Placement>>, h: nat)
    requires p == Partition(s, f, k) && h < k == |row| == |tables| && Ends(row, s, f)
    requires multiset(s) == multiset(all) && tables[h] == Some(Wanted(row, h))
    ensures TableOfHash(p, tables, all, f, h)
  {
    hide Partition, Filter, Ends;
    BucketAt(s, p, f, k, row, h);
    SameFilter(s, all, f, h);
  }

  /** The whole of split, for any number of threads and passes and any schedule. If there are
      more threads than tables, or more passes than the hash has bits, placing the tables goes
      outside the ends or the tables; and otherwise table h of the result holds exactly the
      tuples with hash h. */
  method Split(pages: seq<Relation>, junk: Tuple, hashfn: ModuloHash, passes: nat, nthreads: nat)
    returns (out: array<Tuple>, offsets: array<int>, outcome: Outcome, ghost input: Relation)
    requires nthreads >= 1 && passes >= 1 && 1 <= hashfn.bits && hashfn.skip + hashfn.bits < WIDTH
    ensures var c := AllPasses(hashfn, passes);
            multiset(input) == multiset(Flat(pages)) && out[..] == Partition(input, c.f, c.buckets) &&
            offsets.Length == c.buckets && Ends(offsets[..], input, c.f)
    ensures input == InOrder(pages, nthreads)
    ensures passes <= hashfn.bits ==>
              out[..] == Partition(input, AsHash(hashfn).f, Buckets(hashfn)) &&
              offsets.Length == Buckets(hashfn) && Ends(offsets[..], input, AsHash(hashfn).f)
    ensures outcome.OutOfRange? <==> nthreads > Buckets(hashfn) || passes > hashfn.bits
    ensures outcome.Placed? ==> |outcome.tables| == Buckets(hashfn)
    ensures outcome.Placed? ==>
              forall h: nat :: h < Buckets(hashfn) ==>
                TableOfHash(out[..], outcome.tables, Flat(pages), AsHash(hashfn).f, h)
  {
    hide Partition, Ends, AllPasses, Flat, TableOfHash, Buckets, Wanted, InOrder;
    out, offsets, input := FillAndPartition(pages, junk, hashfn, passes, nthreads);
    outcome := PlaceCursors(offsets[..], Buckets(hashfn), nthreads);
    if passes > hashfn.bits {
      TooManyClusters(hashfn, passes);
    } else {
      AllPassesAre(input, hashfn, passes, offsets[..]);
      if outcome.Placed? {
        forall h: nat | h < Buckets(hashfn)
          ensures TableOfHash(out[..], outcome.tables, Flat(pages), AsHash(hashfn).f, h)
        {
          PlacedTable(input, Flat(pages), out[..], AsHash(hashfn).f, Buckets(hashfn), offsets[..], outcome.tables, h);
        }
      }
    }
  }
}
