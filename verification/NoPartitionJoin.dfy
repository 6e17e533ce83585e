/** NPO of no_partitioning_join.c: build one shared hash table, then probe it. A probe stops at
    the first match, so the result counts the tuples of S that have a partner in R, not the
    pairs. rehash_payload moves a table's tuples to the chains of one of their payload fields. */
module NoPartitionJoin {
  import BucketChaining
  import opened Chunks
  import opened HashTable
  import opened JoinSpec
  import opened KeyBits
  import opened LatchedBuild
  import OverflowRelease
  import opened StablePartition

  /** allocate_hashtable: the mask keeps all but four bits of the number of buckets, so only a
      sixteenth of the heads is ever used. At least one bucket must be asked for. */
  function HashWidth(nbuckets: nat): (D: nat)
    requires nbuckets >= 1
    ensures Pow2(D) <= Pow2(BucketChaining.Log2Ceil(nbuckets))
  {
    var m := BucketChaining.Log2Ceil(nbuckets);
    if m < 4 then 0 else (Pow2Grows(m - 4, m); m - 4)
  }

  // ----- the count of tuples with a partner -----

  function SemiCount(R: Relation, S: Relation): nat {
    if S == [] then 0 else SemiCount(R, S[..|S|-1]) + if KeyCount(R, S[|S|-1].key) > 0 then 1 else 0
  }

  lemma {:induction false} SemiCountAppend(R: Relation, S: Relation, T: Relation)
    ensures SemiCount(R, S + T) == SemiCount(R, S) + SemiCount(R, T)
  {
    if T == [] {
      assert S + T == S;
    } else {
      SemiCountAppend(R, S, T[..|T|-1]);
      assert (S + T)[..|S + T|-1] == S + T[..|T|-1];
    }
  }

  /** The count falls short of the join exactly when some key of S occurs twice in R. */
  lemma {:induction false} SemiCountIsJoin(R: Relation, S: Relation)
    ensures SemiCount(R, S) <= Matches(R, S)
    ensures SemiCount(R, S) == Matches(R, S) <==> forall i :: 0 <= i < |S| ==> KeyCount(R, S[i].key) <= 1
  {
    if S != [] {
      var n := |S| - 1;
      SemiCountIsJoin(R, S[..n]);
      if SemiCount(R, S) == Matches(R, S) {
        forall i | 0 <= i < |S| ensures KeyCount(R, S[i].key) <= 1 {
          if i < n { assert S[..n][i] == S[i]; }
        }
      }
    }
  }

  lemma {:induction false} KeyCountHas(s: Relation, key: int)
    ensures KeyCount(s, key) > 0 <==> HasKey(multiset(s), key)
  {
    if s != [] {
      var n := |s| - 1;
      KeyCountHas(s[..n], key);
      assert s == s[..n] + [s[n]];
      HasKeySum(multiset(s[..n]), multiset{s[n]}, key);
      if s[n].key == key { assert s[n] in multiset{s[n]}; }
    }
  }

  /** Looking through the chain of a key's hash decides whether R has the key. */
  lemma ChainDecides(R: Relation, g: int -> int, key: int)
    ensures HasKey(multiset(Filter(R, ByKey(g), g(key))), key) <==> KeyCount(R, key) > 0
  {
    KeyCountFilter(R, g, key);
    KeyCountHas(Filter(R, ByKey(g), g(key)), key);
  }

  ghost predicate Built(table: Table, p: Plan, R: Relation, D: nat, num: nat) {
    && |table.heads| == num && TableOk(table, p)
    && forall idx :: 0 <= idx < num ==> Contents(table, p, idx) == multiset(Filter(R, ByKey(Bits(0, D)), idx))
  }

  /** The overflow buckets met by the probes of S, one probe after the other. */
  ghost function Trace(table: Table, p: Plan, S: Relation, D: nat, num: nat): seq<BucketChains.Ref>
    requires |table.heads| == num && TableOk(table, p) && Pow2(D) <= num
  {
    if S == [] then []
    else
      BitsRange(0, D, S[|S|-1].key);
      Trace(table, p, S[..|S|-1], D, num) + Walked(table, p, Bits(0, D)(S[|S|-1].key), S[|S|-1].key)
  }

  lemma {:induction false} TraceInside(table: Table, p: Plan, S: Relation, D: nat, num: nat)
    requires |table.heads| == num && TableOk(table, p) && Pow2(D) <= num
    ensures forall k :: 0 <= k < |Trace(table, p, S, D, num)| ==> Trace(table, p, S, D, num)[k] in table.mem
  {
    hide TableOk, Walked;
    if S != [] {
      var n := |S| - 1;
      BitsRange(0, D, S[n].key);
      TraceInside(table, p, S[..n], D, num);
      WalkedInside(table, p, Bits(0, D)(S[n].key), S[n].key);
    }
  }

  /** probe_hashtable, for one thread's share of S. */
  method ProbeHashtable(table: Table, S: Relation, D: nat, num: nat, ghost p: Plan, ghost R: Relation)
    returns (matches: nat, ghost read: seq<BucketChains.Ref>)
    requires Built(table, p, R, D, num) && Pow2(D) <= num
    ensures matches == SemiCount(R, S) && read == Trace(table, p, S, D, num)
  {
    hide TableOk, Contents, Filter, KeyCount, HasKey, Walked;
    matches := 0;
    read := [];
    var i := 0;
    assert S[..0] == [];
    while i < |S|
      invariant 0 <= i <= |S| && matches == SemiCount(R, S[..i]) && read == Trace(table, p, S[..i], D, num)
    {
      BitsRange(0, D, S[i].key);
      var idx := Bits(0, D)(S[i].key);
      var flag;
      ghost var more;
      flag, more := Lookup(table, idx, S[i].key, p);
      ChainDecides(R, Bits(0, D), S[i].key);
      assert S[..i + 1][..i] == S[..i];
      if flag { matches := matches + 1; }
      read := read + more;
      i := i + 1;
    }
    assert S[..i] == S;
  }

  /** Heads of the table NPO builds for n tuples, and bits of the key its hash keeps. */
  function NpoHeads(n: nat): nat
    requires n >= BucketChains.BUCKET_SIZE
  {
    Pow2(BucketChaining.Log2Ceil(n / BucketChains.BUCKET_SIZE))
  }

  function NpoBits(n: nat): (D: nat)
    requires n >= BucketChains.BUCKET_SIZE
    ensures Pow2(D) <= NpoHeads(n)
  {
    HashWidth(n / BucketChains.BUCKET_SIZE)
  }

  /** Thread t's share of S. */
  function Share(S: Relation, nthreads: nat, t: nat): Relation
    requires t < nthreads
  {
    S[ChunkStart(|S|, nthreads, t)..ChunkStart(|S|, nthreads, t) + ChunkLength(|S|, nthreads, t)]
  }

  /** What the threads read of the overflow buckets while they probe. */
  ghost function Traces(table: Table, p: Plan, S: Relation, D: nat, num: nat, nthreads: nat)
    : (trace: seq<seq<BucketChains.Ref>>)
    requires |table.heads| == num && TableOk(table, p) && Pow2(D) <= num
    ensures |trace| == nthreads
    ensures forall t :: 0 <= t < nthreads ==> trace[t] == Trace(table, p, Share(S, nthreads, t), D, num)
  {
    seq(nthreads, t requires 0 <= t < nthreads => Trace(table, p, Share(S, nthreads, t), D, num))
  }

  /** All threads probe, and their results are added up. */
  method ProbeAll(table: Table, S: Relation, D: nat, num: nat, nthreads: nat, ghost p: Plan, ghost R: Relation)
    returns (result: nat)
    requires Built(table, p, R, D, num) && Pow2(D) <= num && nthreads >= 1
    ensures result == SemiCount(R, S)
  {
    hide Built, Filter, SemiCount, ChunkStart, ChunkLength, Pow2, Trace;
    result := 0;
    var t := 0;
    NothingCounted(R, S, nthreads);
    while t < nthreads
      invariant 0 <= t <= nthreads && ChunkStart(|S|, nthreads, t) <= |S| &&
                result == SemiCount(R, S[..ChunkStart(|S|, nthreads, t)])
    {
      var start, items := ChunkStart(|S|, nthreads, t), ChunkLength(|S|, nthreads, t);
      var found, _ := ProbeHashtable(table, Share(S, nthreads, t), D, num, p, R);
      SemiCountAppend(R, S[..start], S[start..start + items]);
      assert S[..start + items] == S[..start] + S[start..start + items];
      result := result + found;
      t := t + 1;
    }
    AllCounted(S, nthreads);
  }

  /** When freeing the overflow buckets after the probe does no harm: always with the barrier in
      front of it, and otherwise exactly when every thread reads its own buckets only. */
  ghost predicate ReleaseRule(trace: seq<seq<BucketChains.Ref>>) {
    OverflowRelease.Safe(trace, true) && (OverflowRelease.Safe(trace, false) <==> OverflowRelease.OwnOnly(trace))
  }

  /** The whole join, for any number of threads and any schedule of the build. */
  method NPO(R: Relation, S: Relation, nthreads: nat) returns (result: nat, ghost table: Table, ghost p: Plan)
    requires |R| >= BucketChains.BUCKET_SIZE && nthreads >= 1
    ensures result == SemiCount(R, S) && Built(table, p, R, NpoBits(|R|), NpoHeads(|R|))
    ensures ReleaseRule(Traces(table, p, S, NpoBits(|R|), NpoHeads(|R|), nthreads))
  {
    hide TableOk, Contents, Filter, SemiCount, Pow2, Traces, NpoBits, NpoHeads, ReleaseRule;
    var num, D := NpoHeads(|R|), NpoBits(|R|);
    HashesInside(D, num);
    var built;
    built, p := Build(R, ByKey(Bits(0, D)), num, nthreads);
    table := built;
    Released(table, p, S, D, num, nthreads);
    result := ProbeAll(built, S, D, num, nthreads, p, R);
  }

  lemma Released(table: Table, p: Plan, S: Relation, D: nat, num: nat, nthreads: nat)
    requires |table.heads| == num && TableOk(table, p) && Pow2(D) <= num
    requires forall r :: r in table.mem ==> r.thread < nthreads
    ensures ReleaseRule(Traces(table, p, S, D, num, nthreads))
  {
    hide TableOk, Trace, Share, OverflowRelease.Safe, OverflowRelease.OwnOnly;
    var trace: seq<seq<BucketChains.Ref>> := Traces(table, p, S, D, num, nthreads);
    forall t | 0 <= t < nthreads
      ensures forall k :: 0 <= k < |trace[t]| ==> trace[t][k].thread < nthreads
    {
      TraceInside(table, p, Share(S, nthreads, t), D, num);
    }
    OverflowRelease.SafeWithBarrier(trace);
    OverflowRelease.SafeWithoutBarrier(trace);
  }

  lemma HashesInside(D: nat, num: nat)
    requires Pow2(D) <= num
    ensures Hashes(ByKey(Bits(0, D)), num)
  {
    forall x: Tuple ensures 0 <= ByKey(Bits(0, D))(x) < num { BitsRange(0, D, x.key); }
  }

  lemma NothingCounted(R: Relation, S: Relation, nthreads: nat)
    requires nthreads >= 1
    ensures SemiCount(R, S[..ChunkStart(|S|, nthreads, 0)]) == 0
  {
  }

  lemma AllCounted(S: Relation, nthreads: nat)
    requires nthreads >= 1
    ensures S[..ChunkStart(|S|, nthreads, nthreads)] == S
  {
  }

  // ----- moving a table to other chains -----

  /** The table holds exactly these tuples, each in the chain of its hash. */
  ghost predicate Holds(t: Table, p: Plan, f: Tuple -> int, all: multiset<Tuple>) {
    TableOk(t, p) &&
      forall k, x {:trigger Contents(t, p, k)[x]} ::
          0 <= k < |t.heads| ==> Contents(t, p, k)[x] == if f(x) == k then all[x] else 0
  }

  /** Single-threaded insertion, with a fresh overflow bucket where one is needed. */
  method Insert(t: Table, idx: nat, x: Tuple, buf: BucketChains.Buffers, ghost p: Plan, ghost f: Tuple -> int,
                ghost all: multiset<Tuple>)
    returns (t': Table, buf': BucketChains.Buffers, ghost p': Plan)
    requires Holds(t, p, f, all) && f(x) == idx < |t.heads| && OwnMemory(t, buf)
    ensures Holds(t', p', f, all + multiset{x}) && |t'.heads| == |t.heads| && OwnMemory(t', buf')
  {
    hide TableOk, Contents, First;
    BucketChains.NewBucketIsNew(0, buf);
    var (b, more) := BucketChains.GetNewBucket(0, buf);
    var head, first := t.heads[idx], First(t, idx);
    PlanFits(t, p);
    HashTable.StoreStep(t, p, idx, x, b);
    t', p' := Store(t, idx, head, first, x, b), PlanAfter(p, idx, head, first, b);
    buf' := if BucketChains.Room(head, first).InNew? then more else buf;
    HoldsMore(t, p, t', p', f, all, idx, x);
    OwnStays(t, idx, x, buf);
  }

  lemma OwnStays(t: Table, idx: nat, x: Tuple, buf: BucketChains.Buffers)
    requires idx < |t.heads| && OwnMemory(t, buf)
    ensures var (b, more) := BucketChains.GetNewBucket(0, buf);
            OwnMemory(Store(t, idx, t.heads[idx], First(t, idx), x, b),
              if BucketChains.Room(t.heads[idx], First(t, idx)).InNew? then more else buf)
  {
    BucketChains.NewBucketIsNew(0, buf);
  }

  lemma HoldsMore(t: Table, p: Plan, t': Table, p': Plan, f: Tuple -> int, all: multiset<Tuple>, idx: nat, x: Tuple)
    requires Holds(t, p, f, all) && TableOk(t', p') && |t'.heads| == |t.heads| && f(x) == idx
    requires forall k ::
               0 <= k < |t.heads| ==>
                 Contents(t', p', k) == Contents(t, p, k) + if k == idx then multiset{x} else multiset{}
    ensures Holds(t', p', f, all + multiset{x})
  {
    hide TableOk, Contents;
  }

  ghost predicate OwnMemory(t: Table, buf: BucketChains.Buffers) {
    buf.count <= BucketChains.OVERFLOW_BUF_SIZE &&
      forall r :: r in t.mem ==> r.thread == 0 && r.n < BucketChains.HandedOut(buf)
  }

  /** All tuples of the first n chains. */
  ghost function AllOf(t: Table, p: Plan, n: nat): multiset<Tuple>
    requires TableOk(t, p) && n <= |t.heads|
  {
    if n == 0 then multiset{} else AllOf(t, p, n - 1) + Contents(t, p, n - 1)
  }

  /** The hash of rehash_payload: a payload field in place of the key. */
  function PayloadHash(field: nat, D: nat): Tuple -> int {
    (x: Tuple) => if field < |x.payload| then Bits(0, D)(x.payload[field]) else 0
  }

  /** Every tuple that has the field is in the chain its value names, whatever its key. */
  ghost predicate PlacedByField(t: Table, p: Plan, field: nat, D: nat)
    requires TableOk(t, p)
  {
    forall k, x {:trigger Contents(t, p, k)[x]} ::
      0 <= k < |t.heads| && Contents(t, p, k)[x] > 0 && field < |x.payload| ==> x.payload[field] % Pow2(D) == k
  }

  lemma HeldByField(t: Table, p: Plan, field: nat, D: nat, all: multiset<Tuple>)
    requires Holds(t, p, PayloadHash(field, D), all)
    ensures TableOk(t, p) && PlacedByField(t, p, field, D)
  {
    hide TableOk, Contents;
    forall k, x {:trigger Contents(t, p, k)[x]} |
      0 <= k < |t.heads| && Contents(t, p, k)[x] > 0 && field < |x.payload|
      ensures x.payload[field] % Pow2(D) == k
    {
      var value := x.payload[field];
      assert PayloadHash(field, D)(x) == k;
      assert PayloadHash(field, D)(x) == Bits(0, D)(value) == value / Pow2(0) % Pow2(D) && value / Pow2(0) == value;
    }
  }

  /** Two tuples with the same value in the field are in one chain. */
  lemma SameValueSameChain(t: Table, p: Plan, field: nat, D: nat, j: nat, k: nat, x: Tuple, y: Tuple)
    requires TableOk(t, p) && PlacedByField(t, p, field, D) && j < |t.heads| && k < |t.heads|
    requires x in Contents(t, p, j) && y in Contents(t, p, k)
    requires field < |x.payload| && field < |y.payload| && x.payload[field] == y.payload[field]
    ensures j == k
  {
    hide TableOk, Contents;
  }

  lemma PayloadHashInside(field: nat, D: nat, num: nat)
    requires Pow2(D) <= num
    ensures Hashes(PayloadHash(field, D), num)
  {
    forall x: Tuple
      ensures 0 <= PayloadHash(field, D)(x) < num
    {
      if field < |x.payload| { BitsRange(0, D, x.payload[field]); }
    }
  }

  /** Insert all tuples of one bucket. */
  method MoveBucket(tuples: seq<Tuple>, t: Table, buf: BucketChains.Buffers, field: nat, D: nat, ghost p: Plan,
                    ghost all: multiset<Tuple>)
    returns (t': Table, buf': BucketChains.Buffers, ghost p': Plan)
    requires Holds(t, p, PayloadHash(field, D), all) && OwnMemory(t, buf) && Hashes(PayloadHash(field, D), |t.heads|)
    ensures Holds(t', p', PayloadHash(field, D), all + multiset(tuples)) && |t'.heads| == |t.heads| &&
            OwnMemory(t', buf')
  {
    hide Holds, OwnMemory;
    t', buf', p' := t, buf, p;
    var j := 0;
    assert tuples[..0] == [] && all + multiset([]) == all;
    while j < |tuples|
      invariant 0 <= j <= |tuples| && |t'.heads| == |t.heads| && OwnMemory(t', buf')
      invariant Holds(t', p', PayloadHash(field, D), all + multiset(tuples[..j]))
    {
      var x := tuples[j];
      assert PayloadHash(field, D)(x) < |t.heads|;
      t', buf', p' := Insert(t', PayloadHash(field, D)(x), x, buf', p', PayloadHash(field, D), all +
          multiset(tuples[..j]));
      assert tuples[..j + 1] == tuples[..j] + [x];
      assert all + multiset(tuples[..j + 1]) == all + multiset(tuples[..j]) + multiset{x};
      j := j + 1;
    }
    assert tuples[..j] == tuples;
  }

  /** Walk one chain of the old table and insert its tuples into the new one. */
  method MoveChain(old_: Table, idx: nat, t: Table, buf: BucketChains.Buffers, field: nat, D: nat,
                   ghost oldPlan: Plan, ghost p: Plan, ghost all: multiset<Tuple>)
    returns (t': Table, buf': BucketChains.Buffers, ghost p': Plan)
    requires TableOk(old_, oldPlan) && idx < |old_.heads|
    requires Holds(t, p, PayloadHash(field, D), all) && OwnMemory(t, buf) && Hashes(PayloadHash(field, D), |t.heads|)
    ensures Holds(t', p', PayloadHash(field, D), all + Contents(old_, oldPlan, idx)) && |t'.heads| == |t.heads| &&
            OwnMemory(t', buf')
  {
    hide Holds, OwnMemory, BucketChains.Behind;
    ghost var rest := oldPlan.chains[idx];
    t', buf', p' := MoveBucket(old_.heads[idx].tuples, t, buf, field, D, p, all);
    ghost var moved := all + multiset(old_.heads[idx].tuples);
    var c := old_.heads[idx].next;
    while c.Some?
      invariant Leads(old_.mem, c, rest) && |t'.heads| == |t.heads| && OwnMemory(t', buf') &&
                Holds(t', p', PayloadHash(field, D), moved)
      invariant moved + BucketChains.Behind(old_.mem, rest) == all + Contents(old_, oldPlan, idx)
      decreases |rest|
    {
      LeadsOn(old_.mem, c, rest);
      BehindFirst(old_.mem, rest);
      t', buf', p' := MoveBucket(old_.mem[c.value].tuples, t', buf', field, D, p', moved);
      moved := moved + multiset(old_.mem[c.value].tuples);
      c := old_.mem[c.value].next;
      rest := rest[1..];
    }
    BehindNothing(old_.mem, rest);
    assert moved == all + Contents(old_, oldPlan, idx);
  }

  lemma BehindFirst(mem: BucketChains.Memory, rest: seq<BucketChains.Ref>)
    requires rest != [] && forall i :: 0 <= i < |rest| ==> rest[i] in mem
    ensures BucketChains.Behind(mem, rest) == multiset(mem[rest[0]].tuples) + BucketChains.Behind(mem, rest[1..])
  {
  }

  lemma BehindNothing(mem: BucketChains.Memory, rest: seq<BucketChains.Ref>)
    ensures rest == [] ==> BucketChains.Behind(mem, rest) == multiset{}
  {
  }

  /** rehash_payload. The tuples are those of the old table, whole and unchanged, each in the
      chain of the hash of its payload field; the table keeps its size and its shape. */
  method RehashPayload(old_: Table, D: nat, field: nat, ghost oldPlan: Plan) returns (t: Table, ghost p: Plan)
    requires TableOk(old_, oldPlan) && Pow2(D) <= |old_.heads|
    ensures |t.heads| == |old_.heads| && Holds(t, p, PayloadHash(field, D), AllOf(old_, oldPlan, |old_.heads|))
    ensures TableOk(t, p) && AllOf(t, p, |t.heads|) == AllOf(old_, oldPlan, |old_.heads|)
    ensures PlacedByField(t, p, field, D)
  {
    hide Holds, OwnMemory, TableOk, Contents, Pow2, PlacedByField;
    var num := |old_.heads|;
    PayloadHashInside(field, D, num);
    t, p := Allocate(num);
    var buf := BucketChains.Buffers(0, 0);
    EmptyHolds(t, p, PayloadHash(field, D), buf);
    var i := 0;
    while i < num
      invariant 0 <= i <= num && |t.heads| == num && OwnMemory(t, buf) &&
                Holds(t, p, PayloadHash(field, D), AllOf(old_, oldPlan, i))
    {
      t, buf, p := MoveChain(old_, i, t, buf, field, D, oldPlan, p, AllOf(old_, oldPlan, i));
      i := i + 1;
    }
    NothingLost(t, p, field, D, AllOf(old_, oldPlan, num));
    HeldByField(t, p, field, D, AllOf(old_, oldPlan, num));
  }

  lemma EmptyHolds(t: Table, p: Plan, f: Tuple -> int, buf: BucketChains.Buffers)
    requires TableOk(t, p) && t.mem == map[] && buf == BucketChains.Buffers(0, 0) &&
             forall k :: 0 <= k < |t.heads| ==> Contents(t, p, k) == multiset{}
    ensures Holds(t, p, f, multiset{}) && OwnMemory(t, buf)
  {
    hide TableOk, Contents;
  }

  /** What a table holds, chain by chain, adds up to what it holds. */
  lemma {:induction false} HoldsAll(t: Table, p: Plan, f: Tuple -> int, all: multiset<Tuple>, n: nat)
    requires Holds(t, p, f, all) && n <= |t.heads|
    ensures forall x: Tuple :: AllOf(t, p, n)[x] == if 0 <= f(x) < n then all[x] else 0
  {
    hide TableOk, Contents;
    if n > 0 {
      HoldsAll(t, p, f, all, n - 1);
      forall x: Tuple
        ensures AllOf(t, p, n)[x] == if 0 <= f(x) < n then all[x] else 0
      {
        assert Contents(t, p, n - 1)[x] == if f(x) == n - 1 then all[x] else 0;
      }
    }
  }

  /** Rehashing by one field after another loses and adds nothing, and leaves every tuple in
      the chain of the last field. */
  method RehashAll(old_: Table, D: nat, fields: seq<nat>, ghost oldPlan: Plan) returns (t: Table, ghost p: Plan)
    requires TableOk(old_, oldPlan) && Pow2(D) <= |old_.heads| && fields != []
    ensures |t.heads| == |old_.heads| &&
            Holds(t, p, PayloadHash(fields[|fields|-1], D), AllOf(old_, oldPlan, |old_.heads|))
    ensures TableOk(t, p) && AllOf(t, p, |t.heads|) == AllOf(old_, oldPlan, |old_.heads|)
    ensures PlacedByField(t, p, fields[|fields|-1], D)
  {
    hide TableOk, Contents, Pow2, AllOf, Holds, PlacedByField;
    ghost var all := AllOf(old_, oldPlan, |old_.heads|);
    t, p := RehashPayload(old_, D, fields[0], oldPlan);
    var i := 1;
    while i < |fields|
      invariant 1 <= i <= |fields| && |t.heads| == |old_.heads| && Holds(t, p, PayloadHash(fields[i - 1], D), all)
      invariant TableOk(t, p) && AllOf(t, p, |t.heads|) == all && PlacedByField(t, p, fields[i - 1], D)
    {
      t, p := RehashPayload(t, D, fields[i], p);
      i := i + 1;
    }
  }

  lemma NothingLost(t: Table, p: Plan, field: nat, D: nat, all: multiset<Tuple>)
    requires Holds(t, p, PayloadHash(field, D), all) && Pow2(D) <= |t.heads|
    ensures TableOk(t, p) && AllOf(t, p, |t.heads|) == all
  {
    hide TableOk, Contents, Pow2, AllOf;
    HoldsAll(t, p, PayloadHash(field, D), all, |t.heads|);
    PayloadHashInside(field, D, |t.heads|);
    forall x: Tuple ensures AllOf(t, p, |t.heads|)[x] == all[x] {}
  }
}
