/** The hash table of no_partitioning_join.c: a row of buckets of BUCKET_SIZE tuples, each with
    a chain of overflow buckets behind it. A new overflow bucket is linked right behind the
    head, so only the head or the first overflow bucket ever has room. */
module BucketChains {
  import opened JoinSpec
  import opened Options

  const BUCKET_SIZE := 2
  const OVERFLOW_BUF_SIZE := 1024

  /** An overflow bucket: the n-th one that a thread has taken from its buffers. */
  datatype Ref = Ref(thread: nat, n: nat)

  datatype Bucket = Bucket(tuples: seq<Tuple>, next: Option<Ref>)

  type Memory = map<Ref, Bucket>

  /** A thread's overflow buffers: blocks of OVERFLOW_BUF_SIZE buckets, the newest with count
      of them in use. */
  datatype Buffers = Buffers(older: nat, count: nat)

  function HandedOut(b: Buffers): nat {
    b.older * OVERFLOW_BUF_SIZE + b.count
  }

  /** get_new_bucket: the next bucket of the newest block, or the first of a new one. */
  function GetNewBucket(thread: nat, buf: Buffers): (Ref, Buffers) {
    if buf.count < OVERFLOW_BUF_SIZE then
      (Ref(thread, buf.older * OVERFLOW_BUF_SIZE + buf.count), buf.(count := buf.count + 1))
    else
      (Ref(thread, (buf.older + 1) * OVERFLOW_BUF_SIZE), Buffers(buf.older + 1, 1))
  }

  /** Buckets come in the order of handing out, so none is ever handed out twice. */
  lemma NewBucketIsNew(thread: nat, buf: Buffers)
    requires buf.count <= OVERFLOW_BUF_SIZE
    ensures var (b, buf') := GetNewBucket(thread, buf);
            b == Ref(thread, HandedOut(buf)) && HandedOut(buf') == HandedOut(buf) + 1 && buf'.count <= OVERFLOW_BUF_SIZE
  {
  }

  // ----- one chain -----

  function NextOf(chain: seq<Ref>, i: nat): Option<Ref> {
    if i < |chain| then Some(chain[i]) else None
  }

  /** The overflow buckets behind a head, in order, each once; all but the first are full, and
      there are none unless the head is full. */
  ghost predicate Shape(head: Bucket, mem: Memory, chain: seq<Ref>) {
    && |head.tuples| <= BUCKET_SIZE && head.next == NextOf(chain, 0)
    && (chain != [] ==> |head.tuples| == BUCKET_SIZE)
    && (forall i :: 0 <= i < |chain| ==> chain[i] in mem && mem[chain[i]].next == NextOf(chain, i + 1))
    && (forall i ::
           0 <= i < |chain| ==>
             1 <= |mem[chain[i]].tuples| <= BUCKET_SIZE && (i > 0 ==> |mem[chain[i]].tuples| == BUCKET_SIZE))
    && (forall i, j :: 0 <= i < j < |chain| ==> chain[i] != chain[j])
  }

  /** All tuples of a chain, from the head on. */
  ghost function Chained(head: Bucket, mem: Memory, chain: seq<Ref>): multiset<Tuple>
    requires forall i :: 0 <= i < |chain| ==> chain[i] in mem
  {
    multiset(head.tuples) + Behind(mem, chain)
  }

  ghost function Behind(mem: Memory, chain: seq<Ref>): multiset<Tuple>
    requires forall i :: 0 <= i < |chain| ==> chain[i] in mem
  {
    if chain == [] then multiset{} else multiset(mem[chain[0]].tuples) + Behind(mem, chain[1..])
  }

  lemma {:induction false} BehindSame(mem: Memory, mem': Memory, chain: seq<Ref>)
    requires forall i ::
               0 <= i < |chain| ==>
                 chain[i] in mem && chain[i] in mem' && mem[chain[i]].tuples == mem'[chain[i]].tuples
    ensures Behind(mem, chain) == Behind(mem', chain)
  {
    if chain != [] { BehindSame(mem, mem', chain[1..]); }
  }

  /** A chain is as long as its tuples need: the number of buckets, counting the head, is the
      number of tuples divided by BUCKET_SIZE, rounded up, and at least one. */
  lemma {:induction false} FullBehind(mem: Memory, chain: seq<Ref>)
    requires forall i :: 0 <= i < |chain| ==> chain[i] in mem && |mem[chain[i]].tuples| == BUCKET_SIZE
    ensures |Behind(mem, chain)| == BUCKET_SIZE * |chain|
  {
    if chain != [] { FullBehind(mem, chain[1..]); }
  }

  lemma ChainLength(head: Bucket, mem: Memory, chain: seq<Ref>)
    requires Shape(head, mem, chain)
    ensures var k := |Chained(head, mem, chain)|;
            1 + |chain| == if k <= BUCKET_SIZE then 1 else (k + BUCKET_SIZE - 1) / BUCKET_SIZE
  {
    if chain != [] { FullBehind(mem, chain[1..]); }
  }

  // ----- inserting -----

  /** Where a tuple goes: into the head, into the first overflow bucket, or into a new one. */
  datatype Where = InHead | InFirst(first: Ref) | InNew

  function Room(head: Bucket, first: Option<Bucket>): Where {
    if |head.tuples| < BUCKET_SIZE then InHead
    else if head.next.Some? && first.Some? && |first.value.tuples| < BUCKET_SIZE then InFirst(head.next.value)
    else InNew
  }

  lemma InsertHead(head: Bucket, mem: Memory, chain: seq<Ref>, x: Tuple)
    requires Shape(head, mem, chain) && |head.tuples| < BUCKET_SIZE
    ensures var head' := head.(tuples := head.tuples + [x]);
            Shape(head', mem, chain) && Chained(head', mem, chain) == Chained(head, mem, chain) + multiset{x}
  {
  }

  lemma InsertFirst(head: Bucket, mem: Memory, chain: seq<Ref>, x: Tuple)
    requires Shape(head, mem, chain) && chain != [] && |mem[chain[0]].tuples| < BUCKET_SIZE
    ensures var mem' := mem[chain[0] := mem[chain[0]].(tuples := mem[chain[0]].tuples + [x])];
            Shape(head, mem', chain) && Chained(head, mem', chain) == Chained(head, mem, chain) + multiset{x}
  {
    var mem' := mem[chain[0] := mem[chain[0]].(tuples := mem[chain[0]].tuples + [x])];
    forall i | 0 <= i < |chain| ensures mem'[chain[i]].next == NextOf(chain, i + 1) {}
    var rest := chain[1..];
    forall i | 0 <= i < |rest| ensures rest[i] == chain[i + 1] && rest[i] in mem && mem'[rest[i]] == mem[rest[i]] {}
    BehindSame(mem, mem', rest);
  }

  lemma InsertNew(head: Bucket, mem: Memory, chain: seq<Ref>, x: Tuple, b: Ref)
    requires Shape(head, mem, chain) && |head.tuples| == BUCKET_SIZE && b !in mem
    requires chain != [] ==> |mem[chain[0]].tuples| == BUCKET_SIZE
    ensures var mem', head' := mem[b := Bucket([x], head.next)], head.(next := Some(b));
            Shape(head', mem', [b] + chain) &&
              Chained(head', mem', [b] + chain) == Chained(head, mem, chain) + multiset{x}
  {
    NewShape(head, mem, chain, x, b);
    var mem', chain' := mem[b := Bucket([x], head.next)], [b] + chain;
    assert chain'[1..] == chain;
    BehindSame(mem, mem', chain);
  }

  lemma NewShape(head: Bucket, mem: Memory, chain: seq<Ref>, x: Tuple, b: Ref)
    requires Shape(head, mem, chain) && |head.tuples| == BUCKET_SIZE && b !in mem
    requires chain != [] ==> |mem[chain[0]].tuples| == BUCKET_SIZE
    ensures Shape(head.(next := Some(b)), mem[b := Bucket([x], head.next)], [b] + chain)
  {
    var mem', chain' := mem[b := Bucket([x], head.next)], [b] + chain;
    forall i | 0 <= i < |chain'|
      ensures chain'[i] in mem' && mem'[chain'[i]].next == NextOf(chain', i + 1)
      ensures |mem'[chain'[i]].tuples| == if i > 0 then BUCKET_SIZE else 1
    {
      if i > 0 {
        assert chain'[i] == chain[i - 1] && mem'[chain'[i]] == mem[chain[i - 1]] &&
            NextOf(chain', i + 1) == NextOf(chain, i);
      }
    }
  }

  /** Chains that share no bucket with what is written keep their shape and contents. */
  lemma Untouched(head: Bucket, mem: Memory, mem': Memory, chain: seq<Ref>)
    requires Shape(head, mem, chain) &&
             forall i :: 0 <= i < |chain| ==> chain[i] in mem' && mem'[chain[i]] == mem[chain[i]]
    ensures Shape(head, mem', chain) && Chained(head, mem', chain) == Chained(head, mem, chain)
  {
    BehindSame(mem, mem', chain);
  }
}
