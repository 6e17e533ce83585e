# Verified models of the join engines and of the bundled bzip2 core

This project models, in Dafny, the two parts of the repository that carry hard properties, and
proves them.

**The join engines.** Every engine is a fast form of one specification: count, or emit, the pairs
of tuples with equal keys (`JoinSpec.Matches`, `FlatMemoryJoin.NestedLoop`). The models cover the
parallel radix join with its histograms, barriers, scatter and task queues; the serial radix join;
bucket chaining and the histogram join; the latched hash table of the no-partitioning join, its
probe and its rehashing; the multi-pass radix partitioner with its hash functions and the
flat-memory join that consumes its offsets; the lock-free page hand-out with the two splits that
use it; and the locked shuffle of the data generator.

**The compressor.** A block is run-length coded, sorted by rotations, turned into move-to-front
symbols, and all of that undone. The models cover both block sorters in full (the budgeted main
sort with its cached quadrants and its synthesis of small buckets, and the prefix-doubling fallback
sort), the in-place move-to-front coder, the decoder's two-level list, both inverses of the rotation
sort, the resumable compressor and both resumable decoders. `StreamRoundTrip.RoundTrip` puts them
together.

## How it is modelled

Code that changes arrays, fields and counters in place is modelled by methods with loops over
arrays and classes, each proved against a specification function; the properties of the
specification are lemmas. Threads are modelled by methods whose loop picks, at every step, any
thread that can move. What is proved of such a method holds for every schedule. A step is one
queue operation, one compare-and-swap, one lock, one latched update, or one tuple written to memory
the threads share; only work on memory that no other thread writes at the time is put into one step.
Reaching a barrier is the end of such a loop. For the locked protocols (the latched build, the
shuffle) and the compare-and-swap loop the steps are functions on a state, the invariant is proved
step by step, and absence of deadlock is a lemma about every state that satisfies it. An access
outside an array, or an append that finds no room, ends a run with a result that says so.

Constants of the source are kept (bucket size, overflow buffers, thresholds, stack sizes,
overshoot, list sizes). Padding is a parameter, zero included. Word width is written out where it
matters: the mark in bit 21 of the frequency table, the sixteen bits of a quadrant, the halves of a
word the codes are written over, the wrap-around of `getlogarithm(0)`, the 32-bit checksums.
Masks of modulo hashes are stretches of bits that are not cut off at bit 31. `Generate` needs
`skip + bits < 32`, and then none of them reaches that far (`HashFunctions.MasksFitWord`,
`HashFunctions.ValueFitsWord`).

## The files

| file | content |
|---|---|
| Counting, Rearrangement, SortingByParts, Sums, KeyBits, Chunks, Options | histograms, permutations, sorted stretches, sums over tasks, bits of keys, shares of threads, optional values |
| Rotations, ThreeWayPartition, BoundedStack, FallbackQuickSort, FallbackSort | the order of rotations and the fallback sort |
| MainCompare, MainSimpleSort, MainQuickSort | the comparator with cached order, the shell sort, the three-way quicksort |
| BytePairs, PredecessorScan, BucketSynthesis, SmallBuckets, SmallSorting, BucketScan, Quadrants, RunningOrder, InitialRadixSort, MainSort | the main sort |
| RunLength, Compressor, Decompressor | run-length code, compressor state machine, resumable decoders |
| MoveToFront, DecoderLists, BlockDecoder, InverseBwt, BlockCoder, StreamRoundTrip | the block coder, its inverse, and the whole way |
| StablePartition, TwoPasses, JoinSpec, RadixCluster, BucketChaining, HistogramJoin, SerialRadixJoin | stable partitioning, the joins of one partition, the serial radix join |
| ThreadedScatter, ParallelPartition, ClusterLayout, TaskQueue, RadixTasks, SerialPartition, SecondPass, JoinPhase, ParallelRadixJoin | the parallel radix join |
| HashFunctions, BlockCount, BlockScatter, RealSplit, FlatMemoryJoin, RadixBuffers, CursorPlacement, RadixSplit, PageHandout | hash functions, the radix partitioner, the flat-memory join, the partitioner's buffers, the tables of its result, the page hand-out |
| BucketChains, HashTable, LatchedBuild, OverflowRelease, NoPartitionJoin | the no-partitioning join |
| MaskedHashes | the masks and shifts of all the hashes, on the words of the keys |
| LockedShuffle, ShuffleShares | the parallel shuffle and the shares of its threads |

## Where the code differs from what is said about it

- The flat-memory join does not join its build side. `init` copies the tuples into both buffers and
  then overwrites both; only `split` would fill them again, and `build` calls `realsplit` instead. So
  junk is partitioned and probed. The result is the join if and only if the junk happens to have the
  same partners (`RadixBuffers.CustomInitAndJoin`, `RadixBuffers.JoinsOnlyJunk`, with a lost pair in
  `RadixBuffers.PairLost`). When the buffer is filled first, as `RadixPartitioner::split` does,
  partitioning is correct (`RadixSplit.Split`, `RealSplit.Run`).
- `placecursors` reads the entry before the first when there are more threads than buckets, and the
  first table is placed by two threads; with more passes than the hash has bits there are more
  cluster ends than tables. Nothing rules out either. Otherwise every table is placed once
  (`CursorPlacement.PlacedOnce`, `CursorPlacement.PlaceCursors`, `CursorPlacement.TwoForThree`,
  `RadixSplit.Split`).
- `IndependentPartitioner` gives its temporary tables pages of `pagesize / nthreads` bytes. If a tuple
  is larger, even a new page has no room for it (`PageHandout.IndependentSplit`).
- The barrier behind the probe of the no-partitioning join is described as there for the timing, but
  without it a thread may free overflow buckets others are walking along
  (`OverflowRelease.SafeWithoutBarrier`).
- The parallel generator gives a thread an empty share when there are more threads than tuples, and,
  for tuples that fill a page exactly, also when the pages come out even. The loop of such a thread
  starts below zero (`ShuffleShares.SharesNotEmpty`, `ShuffleShares.ThreeForFour`,
  `ShuffleShares.LastGetsNothing`).
- A hash function for one bucket has two: the constructor stores 1 as the number of bits
  (`HashFunctions.Make`).
- Splitting a modulo hash into passes works if and only if there are no more passes than bits; with
  more, `bitsperpass` is 0 and the constructor still gives every pass one bit
  (`HashFunctions.MasksSplit`, `HashFunctions.HashSplit`, with a value that is hashed differently in
  `HashFunctions.TooManyPassesDiffer`).
- `probe_hashtable` stops at the first match, so the no-partitioning join counts tuples of S that
  have a partner. That is the size of the join if and only if no key of S occurs twice in R
  (`NoPartitionJoin.SemiCountIsJoin`).
- `rehash_payload` writes the key of the destination and then overwrites the whole tuple, so keys do
  not change (`NoPartitionJoin.RehashPayload`).
- The two run-length decoders report a truncated block at different moments: the small one when the
  output has come out with room to spare, the fast one already when it fits exactly
  (`Decompressor.DState.Small`, `Decompressor.DState.Fast`).
- A finishing call that makes no progress returns BZ_SEQUENCE_ERROR and stays in the finishing mode
  (`Compressor.EState.Compress`).

## Model

| member | source | states |
|---|---|---|
| Rotations.CmpIsLexicographic | dynamic_hashjoin/wisconsin-src/bzip2-1.0.5/blocksort.c:964-985 | the byte-by-byte comparison of two rotations, for one full turn, is the lexicographic order of the rotated strings |
| FallbackSort.FallbackSort | dynamic_hashjoin/wisconsin-src/bzip2-1.0.5/blocksort.c:211-329 | for every non-empty block, fmap ends as a permutation of 0..nblock-1 with the rotations in non-decreasing lexicographic order, and the block bytes are back unchanged; the doubling loop ends |
| FallbackSort.MarkStarts | dynamic_hashjoin/wisconsin-src/bzip2-1.0.5/blocksort.c:243-257 | after the radix sort a header bit is set exactly where a new first byte begins, and the sentinel bits behind the block alternate |
| FallbackSort.AssignClasses | dynamic_hashjoin/wisconsin-src/bzip2-1.0.5/blocksort.c:266-271 | the class of a rotation is the bucket of the rotation H places further on, so classes order the rotations exactly as the H bytes behind the first H do |
| FallbackSort.CmpDoubled | dynamic_hashjoin/wisconsin-src/bzip2-1.0.5/blocksort.c:266-304 | comparing 2H bytes is comparing H bytes and, on a tie, comparing classes: below, equal and above all agree |
| FallbackSort.Round | dynamic_hashjoin/wisconsin-src/bzip2-1.0.5/blocksort.c:261-313 | a round with step H turns an order and header bits exact for H bytes into ones exact for 2H bytes; if it reports nothing left to do, every bucket has one rotation |
| FallbackSort.RefineBucket | dynamic_hashjoin/wisconsin-src/bzip2-1.0.5/blocksort.c:294-305 | sorting one bucket by class and setting its new header bits makes the order exact for 2H bytes up to the end of that bucket and leaves the rest alone |
| FallbackSort.DoublingLoop | dynamic_hashjoin/wisconsin-src/bzip2-1.0.5/blocksort.c:259-313 | starting from an order exact for one byte, the loop ends with the rotations ordered on all bytes |
| FallbackSort.Rebuild | dynamic_hashjoin/wisconsin-src/bzip2-1.0.5/blocksort.c:322-328 | walking the sorted rotations and the byte counts writes every byte of the block back |
| FallbackQuickSort.SimpleSort | dynamic_hashjoin/wisconsin-src/bzip2-1.0.5/blocksort.c:32-75 | the stretch ends sorted by class and everything outside it is untouched |
| ThreeWayPartition.Partition | dynamic_hashjoin/wisconsin-src/bzip2-1.0.5/blocksort.c:126-170 | smaller, equal and larger classes end in three adjoining zones that hold the old elements; if all are equal the stretch is already sorted |
| FallbackQuickSort.QSort3 | dynamic_hashjoin/wisconsin-src/bzip2-1.0.5/blocksort.c:92-180 | the stretch ends sorted by class, nothing outside it moves, and the assertion on the stack pointer never fails |
| FallbackQuickSort.DepthBound | dynamic_hashjoin/wisconsin-src/bzip2-1.0.5/blocksort.c:109-178 | because the smaller part is processed first, no stretch an Int32 can index needs more than 33 of the 100 stack entries |
| MainCompare.GtU | dynamic_hashjoin/wisconsin-src/bzip2-1.0.5/blocksort.c:345-475 | true implies the first rotation is not before the second, false that it is not after it; every table read stays below nblock + BZ_N_OVERSHOOT; if the budget has paid n > 0, the rotations tie on their first 12 + 8n bytes, n is never more than nblock/8 + 2, and while no quadrant is set it is no less than the rounds that tie |
| MainCompare.CostBound | dynamic_hashjoin/wisconsin-src/bzip2-1.0.5/blocksort.c:413-474 | so two rotations that differ within their first 20 + 8m bytes cost at most m, for every m |
| MainSimpleSort.SimpleSort | dynamic_hashjoin/wisconsin-src/bzip2-1.0.5/blocksort.c:485-555 | the stretch is rearranged in any case, and sorted by rotation unless the budget ran out; on n different pointers the budget pays for at most 13 n^2 comparisons, each at the price of the dearest comparison of two different rotations |
| MainSimpleSort.ComparedAtDepth | dynamic_hashjoin/wisconsin-src/bzip2-1.0.5/blocksort.c:512-523 | for rotations that share their first d bytes, comparing from byte d on decides their order |
| MainSimpleSort.RankOrder | dynamic_hashjoin/wisconsin-src/bzip2-1.0.5/blocksort.c:345-475 | the number of smaller rotations is a key that orders pointers exactly as their rotations |
| MainQuickSort.Median3 | dynamic_hashjoin/wisconsin-src/bzip2-1.0.5/blocksort.c:581-591 | the result is one of the three bytes and lies between the other two |
| MainQuickSort.QSort3 | dynamic_hashjoin/wisconsin-src/bzip2-1.0.5/blocksort.c:620-717 | unless the budget runs out the stretch ends sorted by whole rotations; it is rearranged in any case and nothing outside it moves; the assertion on the stack pointer never fails; all its simple sorts together cost no more than one simple sort of the whole stretch may |
| MainQuickSort.DepthBound | dynamic_hashjoin/wisconsin-src/bzip2-1.0.5/blocksort.c:644-712 | because the largest part is pushed first, every stack reachable from an Int32 stretch stays below MAIN_QSORT_STACK_SIZE - 2 |
| InitialRadixSort.CountPairs | dynamic_hashjoin/wisconsin-src/bzip2-1.0.5/blocksort.c:769-792 | the table ends with the number of rotations that begin with each pair of bytes, and every quadrant is cleared |
| InitialRadixSort.RadixSort | dynamic_hashjoin/wisconsin-src/bzip2-1.0.5/blocksort.c:802-830 | every rotation ends in the small bucket of its first two bytes, once, and every table entry is the beginning of its small bucket |
| RunningOrder.SmallestFirst | dynamic_hashjoin/wisconsin-src/bzip2-1.0.5/blocksort.c:837-860 | the shell sort lists every byte value once, smaller big buckets before larger ones |
| MainSort.FreqCounts | dynamic_hashjoin/wisconsin-src/bzip2-1.0.5/blocksort.c:837-858 | the size the order goes by is the number of times the byte occurs in the block |
| SmallSorting.SortOne | dynamic_hashjoin/wisconsin-src/bzip2-1.0.5/blocksort.c:888-904 | quicksorting a small bucket keeps the grouping and the order of all finished buckets, and unless the budget ran out puts the bucket in order; the budget pays for no more than the comparisons a stretch of its size may take |
| SmallSorting.CompleteBig | dynamic_hashjoin/wisconsin-src/bzip2-1.0.5/blocksort.c:878-908 | step 1: unless the budget runs out, every small bucket of the big bucket but [ss, ss] ends sorted and marked |
| PredecessorScan.ScanStep | dynamic_hashjoin/wisconsin-src/bzip2-1.0.5/blocksort.c:923-929 | the list being read grows while it is read and stays sorted, free of repetitions, and on one side of the run of ss: the predecessor of the entry read next belongs at its end |
| PredecessorScan.PredsInRow | dynamic_hashjoin/wisconsin-src/bzip2-1.0.5/blocksort.c:911-935 | the predecessors, with one first byte, of rotations in order are in order |
| PredecessorScan.BothFit | dynamic_hashjoin/wisconsin-src/bzip2-1.0.5/blocksort.c:923-935 | what the forward and the backward scan put into a small bucket together never exceeds it, so neither scan overwrites what has been placed |
| PredecessorScan.CompleteOrSame | dynamic_hashjoin/wisconsin-src/bzip2-1.0.5/blocksort.c:937-944 | the two scans meet every rotation that begins with ss, unless the whole block consists of ss |
| BytePairs.LowBeforeHigh | dynamic_hashjoin/wisconsin-src/bzip2-1.0.5/blocksort.c:911-935 | a run of ss that ends in a smaller byte comes before one that ends in a larger byte, and the two are never the same rotation |
| BucketScan.ScanUp | dynamic_hashjoin/wisconsin-src/bzip2-1.0.5/blocksort.c:923-928 | the forward loop reads every entry of the growing list and places exactly its predecessors |
| BucketScan.ScanDown | dynamic_hashjoin/wisconsin-src/bzip2-1.0.5/blocksort.c:929-935 | the backward loop does the same from the end |
| SmallBuckets.CursorsMeet | dynamic_hashjoin/wisconsin-src/bzip2-1.0.5/blocksort.c:937-944 | assertion 1007 holds: the two cursors of [ss, ss] meet, or they span a block of one byte |
| SmallBuckets.SynthesisKeeps | dynamic_hashjoin/wisconsin-src/bzip2-1.0.5/blocksort.c:911-946 | after step 2 the pointers are still a grouped permutation, and every small bucket that ends in ss is in order although none of them was compared |
| BucketScan.SynthesiseBuckets | dynamic_hashjoin/wisconsin-src/bzip2-1.0.5/blocksort.c:911-946 | step 2 as a method: all small buckets [t, ss] end in order and marked, the others stay as they were |
| Quadrants.CachedMeans | dynamic_hashjoin/wisconsin-src/bzip2-1.0.5/blocksort.c:964-985 | the quadrant table has the meaning its comment gives it (taken weakly for equal rotations), which is what the comparator relies on |
| Quadrants.UpdateQuadrants | dynamic_hashjoin/wisconsin-src/bzip2-1.0.5/blocksort.c:987-1003 | step 3 keeps that meaning and extends it to the finished big bucket: every rotation of it gets its place in the bucket, shifted down no further than needed, again in the overshoot, everything else stays, and no value is above 65535 |
| MainSort.NextIsNew | dynamic_hashjoin/wisconsin-src/bzip2-1.0.5/blocksort.c:909 | assertion 1006 holds: the big bucket taken next has not been done |
| MainSort.TakeBig | dynamic_hashjoin/wisconsin-src/bzip2-1.0.5/blocksort.c:868-1006 | steps 1 to 3 keep, for every finished bucket, the order of the pointers, the marks of the table and the meaning of the quadrants, at the cost of sorting one big bucket at most; the places in the bucket are cached unless it is the last |
| MainSort.MainSort | dynamic_hashjoin/wisconsin-src/bzip2-1.0.5/blocksort.c:750-1009 | for every block longer than the overshoot: the pointers end as a permutation, in rotation order unless the budget is exhausted, and the block is unchanged; if any two different rotations differ within their first 20 + 8m bytes, at most m * 13 nblock^2 of the budget is spent, so with m = 0 none at all and the order is complete |
| BlockCoder.TryMainSort | dynamic_hashjoin/wisconsin-src/bzip2-1.0.5/blocksort.c:1058-1067 | the budget is nblock times a third of the work factor kept between 1 and 100, and it is only spent as above |
| BlockCoder.BlockSort | dynamic_hashjoin/wisconsin-src/bzip2-1.0.5/blocksort.c:1031-1092 | whatever the work factor and whichever sorter runs, including the change to the fallback sort when the budget is exhausted, the rotations end sorted and origPtr is where the block itself stands; assertion 1003 holds |
| MoveToFront.MakeMaps | dynamic_hashjoin/wisconsin-src/bzip2-1.0.5/compress.c:105-115 | a byte in use gets the number of used bytes below it, so numbers are consecutive and ascending |
| MoveToFront.NumbersTell | dynamic_hashjoin/wisconsin-src/bzip2-1.0.5/compress.c:105-115 | two last columns have the same numbers if and only if they are the same |
| MoveToFront.BringToFront | dynamic_hashjoin/wisconsin-src/bzip2-1.0.5/compress.c:189-206 | the search returns the position of the byte and leaves the list with that entry moved to the front and all others in order |
| MoveToFront.FlushRun | dynamic_hashjoin/wisconsin-src/bzip2-1.0.5/compress.c:174-188 | the digits written for a pending run have exactly its length as their value in bijective base two, and are no more than the run is long |
| MoveToFront.EncodeOne | dynamic_hashjoin/wisconsin-src/bzip2-1.0.5/compress.c:163-210 | after each byte the codes written, read back by the reference decoder, and the pending run are exactly the bytes seen; nothing is written behind the word just read |
| MoveToFront.GenerateMTFValues | dynamic_hashjoin/wisconsin-src/bzip2-1.0.5/compress.c:119-231 | the codes written over the sorted order read back as the whole last column; each word of the order is intact when it is read; there are at most nblock + 1 codes, ended by one that occurs nowhere else; the frequencies are those of the codes |
| DecoderLists.Init | dynamic_hashjoin/wisconsin-src/bzip2-1.0.5/decompress.c:358-370 | the sixteen lists begin as the identity |
| DecoderLists.TakeFromFirst | dynamic_hashjoin/wisconsin-src/bzip2-1.0.5/decompress.c:422-437 | an entry of the first list is returned and the sixteen lists become the one list with that entry moved to the front |
| DecoderLists.PassOn | dynamic_hashjoin/wisconsin-src/bzip2-1.0.5/decompress.c:448-453 | each list before hands its last entry on as the first of the next, and the rest stays where it is |
| DecoderLists.TakeFromLater | dynamic_hashjoin/wisconsin-src/bzip2-1.0.5/decompress.c:438-455 | the general case does the same to the one list by shifting within one list and moving one entry per earlier list |
| DecoderLists.Rebuild | dynamic_hashjoin/wisconsin-src/bzip2-1.0.5/decompress.c:456-465 | moving all lists back to the end of the arena, within the arena, changes none of them |
| DecoderLists.Take | dynamic_hashjoin/wisconsin-src/bzip2-1.0.5/decompress.c:416-468 | over any number of symbols the two-level list is the plain move-to-front list, and there is always room for the next entry |
| BlockDecoder.ReadRun | dynamic_hashjoin/wisconsin-src/bzip2-1.0.5/decompress.c:379-391 | the digits are summed to the run length of the reference decoder |
| BlockDecoder.DecodeSymbols | dynamic_hashjoin/wisconsin-src/bzip2-1.0.5/decompress.c:372-479 | the block holds the bytes of what the reference decoder puts out, with their counts, and a data error comes if and only if that is more than the block may hold |
| BlockDecoder.MakeMapsD | dynamic_hashjoin/wisconsin-src/bzip2-1.0.5/decompress.c:26-37 | the table undoes the numbering of the bytes in use |
| BlockCoder.ColumnsTold | dynamic_hashjoin/wisconsin-src/bzip2-1.0.5/compress.c:105-231 | one list of symbols stands for one last column only |
| InverseBwt.MakeCftab | dynamic_hashjoin/wisconsin-src/bzip2-1.0.5/decompress.c:487-496 | every entry is the number of smaller bytes in the last column, so none is outside 0..nblock |
| InverseBwt.LinkIsNext | dynamic_hashjoin/wisconsin-src/bzip2-1.0.5/decompress.c:539-544 | a link leads from a rotation to the next one, or to one equal to it |
| InverseBwt.BuildLinks | dynamic_hashjoin/wisconsin-src/bzip2-1.0.5/decompress.c:539-544 | every byte of the last column is linked to its place in the sorted column, above the byte stored there |
| InverseBwt.TurnRound | dynamic_hashjoin/wisconsin-src/bzip2-1.0.5/decompress.c:516-525 | the pointers along the cycle of the original rotation are all turned round; the loop ends |
| InverseBwt.Walk | dynamic_hashjoin/wisconsin-src/bzip2-1.0.5/bzlib_private.h:444-449 | nblock steps from the original rotation give the block |
| InverseBwt.WalkSmall | dynamic_hashjoin/wisconsin-src/bzip2-1.0.5/bzlib_private.h:475-479 | so do nblock steps along the turned pointers, each byte found by bisection of the cumulative table |
| InverseBwt.Invert | dynamic_hashjoin/wisconsin-src/bzip2-1.0.5/decompress.c:487-556 | with either representation the block comes out, also if some of its rotations are equal |
| BlockCoder.EncodeBlock | dynamic_hashjoin/wisconsin-src/bzip2-1.0.5/compress.c:602-652 | the symbols of a block, at most one more than it has bytes, stand for the last column of its sorted rotations |
| BlockCoder.DecodeColumn | dynamic_hashjoin/wisconsin-src/bzip2-1.0.5/decompress.c:351-496 | for any symbols: an error if and only if no byte is in use, the block is too long, or origPtr lies outside it |
| BlockCoder.DecodeBlock | dynamic_hashjoin/wisconsin-src/bzip2-1.0.5/decompress.c:351-558 | a block the encoder has made is refused if and only if it is too long for the stream, and otherwise comes out unchanged, by either decoder |
| RunLength.DecodePair | dynamic_hashjoin/wisconsin-src/bzip2-1.0.5/bzlib.c:215-247 | the bytes written for a run decode to the run, behind anything they may follow |
| Compressor.EState.AddPairToBlock | dynamic_hashjoin/wisconsin-src/bzip2-1.0.5/bzlib.c:215-247 | the block grows by the code of the pending run, its bytes are marked and the checksum covers the run |
| Compressor.EState.AddChar | dynamic_hashjoin/wisconsin-src/bzip2-1.0.5/bzlib.c:260-284 | block and pending run together decode to everything taken in; exactly the bytes of the block are marked; the checksum covers exactly its decoded bytes; a run is broken off exactly when another byte comes or 255 are pending, whichever branch is taken |
| Compressor.EState.FlushRL | dynamic_hashjoin/wisconsin-src/bzip2-1.0.5/bzlib.c:250-256 | afterwards the block alone decodes to everything taken in, and has grown by the code of the pending run |
| Compressor.EState.CopyInputUntilStop | dynamic_hashjoin/wisconsin-src/bzip2-1.0.5/bzlib.c:288-329 | input is taken until the block is full or there is none left; progress is reported if and only if a byte was taken; nblock stays within nblockMAX + 4 |
| Compressor.EState.CopyOutputUntilStop | dynamic_hashjoin/wisconsin-src/bzip2-1.0.5/bzlib.c:333-356 | output is delivered in order until there is no room or none left |
| Compressor.EState.constructor | dynamic_hashjoin/wisconsin-src/bzip2-1.0.5/bzlib.c:148-210 | the stream starts running with nothing consumed and a block limit of 100000 times the block size less 19 |
| Compressor.EState.CompressBlock | dynamic_hashjoin/wisconsin-src/bzip2-1.0.5/compress.c:602-620 | only complete, exactly marked blocks with the right checksum are handed over, within nblockMAX + 9 bytes; an empty block leaves the combined checksum alone, and for any other the new one, exclusive-ored with that of the block, is as a number twice the old one, less 2^32 - 1 if the old one was 2^31 or more |
| Compressor.MixRotates | dynamic_hashjoin/wisconsin-src/bzip2-1.0.5/compress.c:607-608 | rotating left by one and mixing in a checksum, as arithmetic on the 32-bit number |
| Compressor.EState.HandleCompress | dynamic_hashjoin/wisconsin-src/bzip2-1.0.5/bzlib.c:360-403 | the alternation of input and output always ends, stuck for room or for input; no byte of input or output is lost; progress is reported truthfully; every block handed over is full, except the last one when a flush or finish is carried out |
| Compressor.EState.Compress | dynamic_hashjoin/wisconsin-src/bzip2-1.0.5/bzlib.c:407-464 | for every mode and action: what is consumed, what is delivered, when a call is out of sequence, the next mode and the input expected then; FlushOk and FinishOk come only with a full output buffer and output still waiting, so a flush in sequence that leaves room answers RunOk and is running again, and a finish that moves something and leaves room answers StreamEnd; the end is reported only when everything has been taken and delivered; a block is cut before it is full only by a flush or finish that has taken all input |
| Compressor.Session | dynamic_hashjoin/wisconsin-src/bzip2-1.0.5/bzlib.c:360-464 | over every sequence of calls, legal or not: each is made in the mode the answers so far have led to and answered as that mode requires; blocks handed over, block in progress and pending run hold the input; a stream that has ended has blocks that decode to the input, each sound, exactly the last one marked as last |
| Compressor.FinishEnds | dynamic_hashjoin/wisconsin-src/bzip2-1.0.5/bzlib.c:452-461 | in every such session a finishing call in sequence that moves something and leaves room puts StreamEnd among the answers |
| Decompressor.RestIsDecode | dynamic_hashjoin/wisconsin-src/bzip2-1.0.5/bzlib.c:606-670 | decoding on from any boundary between runs gives the rest of what the whole block decodes to |
| Decompressor.FromStart | dynamic_hashjoin/wisconsin-src/bzip2-1.0.5/bzlib.c:535-682 | the decoder emits what the block decodes to, and calls it corrupt if and only if it ends with four equal bytes and no count |
| Decompressor.DState.Small | dynamic_hashjoin/wisconsin-src/bzip2-1.0.5/bzlib.c:705-804 | each call emits the next bytes of the output, as many as there is room for, and can be resumed anywhere, also inside a run; corruption is reported if and only if a truncated block's output fits with room to spare |
| Decompressor.DState.Fast | dynamic_hashjoin/wisconsin-src/bzip2-1.0.5/bzlib.c:535-682 | the same, from local copies that are written back; corruption is reported already when the output fits exactly, and then nothing is written back |
| Decompressor.Drain | dynamic_hashjoin/wisconsin-src/bzip2-1.0.5/bzlib.c:808-840 | however the room is divided among calls, the output is the same, and so is the checksum |
| Decompressor.IndexIntoF | dynamic_hashjoin/wisconsin-src/bzip2-1.0.5/bzlib.c:687-698 | the bisection finds the byte whose stretch of the cumulative table holds the index |
| StreamRoundTrip.Carry | dynamic_hashjoin/wisconsin-src/bzip2-1.0.5/compress.c:602-652 | every block the compressor hands over survives sorting, move-to-front coding and their inverses |
| StreamRoundTrip.RoundTrip | dynamic_hashjoin/wisconsin-src/bzip2-1.0.5/bzlib.c:407-464 | compress by any calls, then decompress by either decoder with the room divided in any way: if the stream has ended, the input comes back, and every checksum and the combined one agree; and it ends as said of a session |
| StablePartition.ScatterIsPartition | dynamic_hashjoin/src/parallel_radix_join.c:630-641 | writing every tuple to its slot gives the stable partition |
| TwoPasses.StableSortIsPartition | dynamic_hashjoin/src/parallel_radix_join.c:584-647 | a sequence is the stable partition if and only if it is sorted by digit and keeps the elements of every digit in the order they had |
| TwoPasses.LsdIsPartition | dynamic_hashjoin/src/parallel_radix_join.c:1682-1697 | partitioning by the low digit and then by the high digit is partitioning by both at once |
| TwoPasses.MsdIsPartition | dynamic_hashjoin/wisconsin-src/partitioner.cpp:454-570 | partitioning by the high digit and then every cluster by the low digit is partitioning by both at once |
| JoinSpec.PartitionedJoin | dynamic_hashjoin/src/parallel_radix_join.c:1733-1755 | joining matching clusters only loses no pair and counts none twice |
| RadixCluster.Cluster | dynamic_hashjoin/src/parallel_radix_join.c:544-582 | every tuple ends at the place of its cluster with gaps of any width, in input order; the histogram holds the cluster sizes; nothing outside the output region is written |
| RadixCluster.ClusterNoPadding | dynamic_hashjoin/src/parallel_radix_join.c:594-647 | the output is the stable partition of the input |
| BucketChaining.Build | dynamic_hashjoin/src/parallel_radix_join.c:257-270 | the links of every chain strictly decrease and cover exactly the positions of one hash value |
| BucketChaining.BucketChainingJoin | dynamic_hashjoin/src/parallel_radix_join.c:242-307 | the count is the number of pairs with equal keys, for every non-empty R |
| MaskedHashes.HashBitModulo | dynamic_hashjoin/src/parallel_radix_join.c:64 | masking the word of a key, negative or not, and shifting it down gives the number of its bits R to R + D - 1 |
| MaskedHashes.ChainHashIsMasked | dynamic_hashjoin/src/parallel_radix_join.c:252-263 | the hash of the chains is the key masked with (N-1) << NUM_RADIX_BITS as a 32-bit word, bits that do not fit lost |
| MaskedHashes.HistHashIsMasked | dynamic_hashjoin/src/parallel_radix_join.c:312-346 | the histogram has a quarter of the next power of two entries, at least four, and its hash is the key masked accordingly |
| HistogramJoin.ReorderStep | dynamic_hashjoin/src/parallel_radix_join.c:359-366 | a tuple goes to the next free place of its hash, inside the own stretch of tmpR, and the cursor in the shifted histogram moves on |
| HistogramJoin.Reorder | dynamic_hashjoin/src/parallel_radix_join.c:357-366 | after reordering, entries h and h + 1 of the shifted histogram delimit exactly the tuples of hash h |
| HistogramJoin.Join | dynamic_hashjoin/src/parallel_radix_join.c:330-394 | the count is the number of pairs with equal keys; only the own stretch of tmpR is written |
| SerialRadixJoin.ClusterCut | dynamic_hashjoin/src/parallel_radix_join.c:1733-1755 | the running offsets cut out exactly the clusters of the sorted relations |
| SerialRadixJoin.ClusterRelation | dynamic_hashjoin/src/parallel_radix_join.c:1682-1717 | after one pass or two the relation is sorted by all radix bits, and tuples with equal bits are in input order |
| SerialRadixJoin.RJ | dynamic_hashjoin/src/parallel_radix_join.c:1634-1755 | with one pass or two the result is the number of pairs with equal keys |
| Chunks.OwnerOf | dynamic_hashjoin/src/parallel_radix_join.c:1424-1556 | with the last thread taking the rest, every tuple belongs to some thread |
| Chunks.OneOwner | dynamic_hashjoin/src/parallel_radix_join.c:1424-1556 | and to one thread only |
| Chunks.FairShares | dynamic_hashjoin/src/parallel_radix_join.c:1502-1525 | all threads but the last get equally many, and the last as many and at most nthreads - 1 more |
| ThreadedScatter.NoCollision | dynamic_hashjoin/src/parallel_radix_join.c:776-781 | the place a thread writes next has not been written by any thread |
| ThreadedScatter.ThreadsDone | dynamic_hashjoin/src/parallel_radix_join.c:776-781 | whatever the schedule, when all threads are through every tuple stands at its own place |
| ParallelPartition.MixedSum | dynamic_hashjoin/src/parallel_radix_join.c:758-766 | inclusive prefixes of earlier threads plus shifted prefixes of this and later threads are exactly the first free slot of the thread in the cluster |
| ParallelPartition.PartitionAll | dynamic_hashjoin/src/parallel_radix_join.c:714-782 | for any number of threads and any schedule on both sides of the barrier, the output is the stable clustering with padding, and thread 0's row holds the cluster starts |
| ParallelRadixJoin.BoundaryDifference | dynamic_hashjoin/src/parallel_radix_join.c:1082-1084 | output[i+1] - output[i] - padding is the size of cluster i |
| ClusterLayout.RegionsDisjoint | dynamic_hashjoin/src/prj_params.h:88-92 | for every padding, zero included, no two clusters of the second pass overlap, within one first-pass cluster or across two |
| ClusterLayout.PartsApart | dynamic_hashjoin/src/prj_params.h:88-92 | the first-pass regions with their gaps follow one another inside the padded relation |
| TaskQueue.Queue.GetSlot | dynamic_hashjoin/src/task_queue.h:240-260 | a slot is never handed out twice and is not in the list |
| TaskQueue.Queue.Fill | dynamic_hashjoin/src/parallel_radix_join.c:680-692 | filling a slot changes neither the list nor any other slot |
| TaskQueue.Queue.Add | dynamic_hashjoin/src/task_queue.h:139-149 | the task that has been filled in is put in front of the others, and no other cell changes |
| TaskQueue.Queue.Get | dynamic_hashjoin/src/task_queue.h:123-137 | the first task is taken; none is returned if and only if there is none |
| SerialPartition.ScatteringStep | dynamic_hashjoin/src/parallel_radix_join.c:577-581 | copying one tuple of a region puts it where the stable clustering with gaps wants it, moves one cursor, and changes nothing outside the region |
| SerialPartition.ScatteringStays | dynamic_hashjoin/src/parallel_radix_join.c:577-581 | copying a tuple of one cluster leaves a half-finished scatter of any other cluster as it was |
| SerialPartition.CountRegion | dynamic_hashjoin/src/parallel_radix_join.c:561-574 | the histogram holds the sizes of the clusters of the region and every cursor stands at the beginning of its cluster |
| SerialPartition.MakeTasks | dynamic_hashjoin/src/parallel_radix_join.c:676-701 | the join tasks are exactly the pairs of clusters neither of which is empty, with their places and sizes |
| SecondPass.OtherCluster | dynamic_hashjoin/src/parallel_radix_join.c:1173-1177 | two threads that have taken partition tasks never work on the same cluster |
| SecondPass.WroteR | dynamic_hashjoin/src/parallel_radix_join.c:658-674 | a tuple copied by one thread leaves every finished cluster in place and every other thread exactly where it was in its own scatter |
| SecondPass.SlotGot | dynamic_hashjoin/src/parallel_radix_join.c:679 | a slot a thread gets is none of those the others are filling or adding |
| SecondPass.SlotFilled | dynamic_hashjoin/src/parallel_radix_join.c:680-692 | filling it leaves what the others have filled in as it was |
| SecondPass.PartitionTasks | dynamic_hashjoin/src/parallel_radix_join.c:1173-1177 | with taking, copying tuples, getting slots, filling and adding them by all threads in any order: each partition task is taken once, the queue of join tasks ends with exactly the join tasks of all partition tasks, and what they are to join is in place |
| RadixTasks.JoinTasksValue | dynamic_hashjoin/src/parallel_radix_join.c:1082-1143 | in whatever order they were queued, the join tasks together stand for the whole join |
| JoinPhase.Wrote | dynamic_hashjoin/src/parallel_radix_join.c:359-366 | a tuple one thread reorders into the scratch array leaves the reordering and the probing of every other thread as they were |
| JoinPhase.JoinTasks | dynamic_hashjoin/src/parallel_radix_join.c:1341-1350 | if no two tasks share scratch space, then with queue operations, reordered tuples and probed tuples of all threads in any order the thread results add up to the joins of all queued tasks, each taken once |
| ParallelRadixJoin.PartTasksApart | dynamic_hashjoin/src/parallel_radix_join.c:1082-1143 | the tasks of the first pass do not share scratch space |
| ParallelRadixJoin.JoinTasksApart | dynamic_hashjoin/src/parallel_radix_join.c:676-701 | neither do those of the second, in whatever order they were queued: none is queued twice and their regions do not overlap |
| ParallelRadixJoin.Join | dynamic_hashjoin/src/parallel_radix_join.c:963-1350 | for any number of threads, one pass or two, either join function, any padding and any schedule, the result is the number of pairs with equal keys |
| HashFunctions.GetLogarithm | dynamic_hashjoin/wisconsin-src/hash.cpp:28-39 | the exponent of the next power of two; 32 for k = 0, where k - 1 wraps around |
| MaskedHashes.HashedIsMasked | dynamic_hashjoin/wisconsin-src/hash.h:66-81 | the hash of a value is the word of value - min masked with its mask and shifted down, that is (value - min) / 2^skip mod 2^bits |
| HashFunctions.Make | dynamic_hashjoin/wisconsin-src/hash.cpp:41-46 | the least power of two that is at least k buckets, but two buckets for k = 1 |
| HashFunctions.Generate | dynamic_hashjoin/wisconsin-src/hash.cpp:76-106 | the loop produces one mask per pass, the first from the top of the original mask, the last taking what division leaves over |
| HashFunctions.MasksSplit | dynamic_hashjoin/wisconsin-src/hash.cpp:94-103 | the masks are pairwise disjoint and make up the original mask if and only if there are no more passes than bits |
| HashFunctions.HashSplit | dynamic_hashjoin/wisconsin-src/hash.h:72-85 | the pass hashes combined, first pass most significant, are the original hash of every value if and only if there are no more passes than bits |
| HashFunctions.TooManyPassesDiffer | dynamic_hashjoin/wisconsin-src/hash.cpp:76-106 | with more passes than bits a value just above the mask is hashed differently |
| HashFunctions.MasksFitWord | dynamic_hashjoin/wisconsin-src/hash.h:72-85 | as long as skipped bits and mask leave a bit of the 32-bit word free, neither the mask nor any pass mask leaves the word, for any number of passes |
| HashFunctions.ValueFitsWord | dynamic_hashjoin/wisconsin-src/hash.h:72-85 | and neither does the value that is hashed differently |
| BlockCount.CreateHistograms | dynamic_hashjoin/wisconsin-src/partitioner.cpp:336-347 | in any interleaving, histogram t+1 counts the share of thread t and the global row that of the last thread |
| BlockCount.CombineHistograms | dynamic_hashjoin/wisconsin-src/partitioner.cpp:416-441 | in any interleaving, histogram t ends as the counts of all threads before t, and the global row as the totals |
| BlockCount.PrefixSums | dynamic_hashjoin/wisconsin-src/partitioner.cpp:518-526 | the row ends as the ends of the clusters |
| BlockScatter.ScatterBlock | dynamic_hashjoin/wisconsin-src/partitioner.cpp:528-550 | in any interleaving every tuple is written to its own slot, once, and each thread blanks its own histogram |
| BlockScatter.SplitBlock | dynamic_hashjoin/wisconsin-src/partitioner.cpp:458-552 | one iteration stably partitions the block, leaves the rest of the buffer alone, and fills its part of the offsets row with cluster ends |
| RealSplit.SplitPass | dynamic_hashjoin/wisconsin-src/partitioner.cpp:454-570 | one pass over all blocks turns the partition by the earlier hashes into the partition by one hash more |
| RealSplit.Run | dynamic_hashjoin/wisconsin-src/partitioner.cpp:443-573 | for any number of threads, passes and schedules, the output is the stable partition of the input by the combined hash, that is, sorted by it with tuples of equal hash in input order, and the last offsets row holds the cluster ends |
| FlatMemoryJoin.PartnersInBucket | dynamic_hashjoin/wisconsin-src/algo/flatmem.cpp:134-149 | all partners of a tuple are in the bucket of its hash, in input order |
| FlatMemoryJoin.Probe | dynamic_hashjoin/wisconsin-src/algo/flatmem.cpp:112-174 | each thread meets every matching pair of its share exactly once, in nested-loop order |
| FlatMemoryJoin.Join | dynamic_hashjoin/wisconsin-src/algo/flatmem.cpp:104-174 | for whatever tuples the buffer holds, the threads' results, one after the other, are the nested-loop join of those tuples with the probe side |
| RadixBuffers.Init | dynamic_hashjoin/wisconsin-src/partitioner.cpp:688-695 | after copying and overwriting, both buffers hold nothing but junk |
| RadixBuffers.CustomInitAndJoin | dynamic_hashjoin/wisconsin-src/algo/flatmem.cpp:91-174 | initialised as the joiner initialises it, the join is that of as many junk tuples as the build side has with the probe side |
| RadixBuffers.SameResult | dynamic_hashjoin/wisconsin-src/algo/flatmem.cpp:112-174 | two build sides give the same result if and only if every probe tuple has the same partners in both |
| RadixBuffers.JoinsOnlyJunk | dynamic_hashjoin/wisconsin-src/algo/flatmem.cpp:91-174 | that is the join of the two relations if and only if no probe key but the junk's occurs in the build side, and the build side is all junk if the junk's key is probed for |
| RadixBuffers.PairLost | dynamic_hashjoin/wisconsin-src/partitioner.cpp:692-695 | one tuple on each side with the same key: the pair is in the join, but not in the result |
| RadixSplit.ShareOut | dynamic_hashjoin/wisconsin-src/table.cpp:239-272 | dealing the pages out to the threads loses no tuple and adds none; thread t gets every nthreads-th page from number t on, the latest in front |
| RadixSplit.DealtEvenly | dynamic_hashjoin/wisconsin-src/table.cpp:239-262 | so the threads get equally many pages, up to one |
| RadixSplit.CopyIn | dynamic_hashjoin/wisconsin-src/partitioner.cpp:580-598 | tuple by tuple and in any order, the threads fill the buffer with all tuples, thread after thread |
| RadixSplit.FillAndPartition | dynamic_hashjoin/wisconsin-src/partitioner.cpp:600-606 | after filling, thread after thread, and partitioning, the buffer is the stable partition of the table by all pass hashes, and the offsets are its cluster ends |
| CursorPlacement.EntryBeforeFirst | dynamic_hashjoin/wisconsin-src/partitioner.cpp:354-408 | some thread reads entry -1 of the ends if and only if there are more threads than ends |
| CursorPlacement.PlacedOnce | dynamic_hashjoin/wisconsin-src/partitioner.cpp:354-408 | no access is outside the ends or the tables, and every table is placed, by one thread only, if and only if there are no more threads than ends and as many tables as ends |
| CursorPlacement.TwoForThree | dynamic_hashjoin/wisconsin-src/partitioner.cpp:354-408 | two clusters and three threads: the last thread reads entry -1 and places both tables, the first of which thread 0 places too |
| CursorPlacement.PlaceCursors | dynamic_hashjoin/wisconsin-src/partitioner.cpp:354-408 | in every schedule an access goes outside if and only if there are more threads than ends or fewer tables than ends; otherwise table h points to what lies between ends h - 1 and h |
| RadixSplit.TooManyClusters | dynamic_hashjoin/wisconsin-src/partitioner.cpp:727-736 | with more passes than bits there are more cluster ends than tables |
| RadixSplit.Split | dynamic_hashjoin/wisconsin-src/partitioner.cpp:600-614 | for any number of threads and passes and any schedule: placing the tables goes outside if and only if there are more threads than buckets or more passes than bits, and otherwise table h of the result points to exactly the tuples of the table with hash h |
| PageHandout.SwapKeeps | dynamic_hashjoin/wisconsin-src/table.h:117-136 | a compare-and-swap, successful or not, keeps every page in exactly one place |
| PageHandout.SlotFilled | dynamic_hashjoin/wisconsin-src/table.cpp:148-164 | filling a slot keeps it so that exactly the slots somebody is about to fill are reserved, each for that one thread |
| PageHandout.CopyKeeps | dynamic_hashjoin/wisconsin-src/table.cpp:160-164 | copying a tuple into its slot, after the lock was released, keeps every tuple in exactly one of three places: on a page nobody has, in one thread's hands, in one table |
| PageHandout.TakeAll | dynamic_hashjoin/wisconsin-src/table.h:117-136 | for every interleaving: an append finds no room if and only if a tuple does not fit a page and there is one; otherwise the log of successful swaps has every page once and in order, every reserved slot ends filled, and the tables hold exactly the tuples of their hash |
| PageHandout.ParallelSplit | dynamic_hashjoin/wisconsin-src/partitioner.cpp:132-156 | if a tuple fits a page of pagesize bytes, or there is none, bucket h ends with exactly the multiset of input tuples of hash h; otherwise an append fails |
| PageHandout.Concatenate | dynamic_hashjoin/wisconsin-src/table.cpp:126-136 | linking the tables of all threads loses no tuple and adds none |
| PageHandout.IndependentSplit | dynamic_hashjoin/wisconsin-src/partitioner.cpp:185-233 | so does bucket h when every thread fills its own tables and each bucket is then linked by one thread, if a tuple fits a page of pagesize / nthreads bytes, or there is none; otherwise an append fails |
| BucketChains.NewBucketIsNew | dynamic_hashjoin/src/no_partitioning_join.c:148-164 | no overflow bucket is handed out twice |
| BucketChains.ChainLength | dynamic_hashjoin/src/no_partitioning_join.c:834-857 | a chain with k tuples has max(1, ceil(k / BUCKET_SIZE)) buckets |
| BucketChains.InsertNew | dynamic_hashjoin/src/no_partitioning_join.c:838-847 | a new bucket behind a full head keeps the shape of the chain and adds exactly one tuple |
| HashTable.StoreStep | dynamic_hashjoin/src/no_partitioning_join.c:834-859 | one insert keeps the shape of every chain and adds the tuple to the chain of its hash only |
| HashTable.Lookup | dynamic_hashjoin/src/no_partitioning_join.c:530-547 | the search says whether the key occurs in the chain, and reads the overflow buckets up to the first that has it, and no others |
| LatchedBuild.LockKeeps | dynamic_hashjoin/src/no_partitioning_join.c:835-836 | taking a free latch keeps the invariant |
| LatchedBuild.StoreKeeps | dynamic_hashjoin/src/no_partitioning_join.c:838-860 | storing and releasing keeps it, under any interleaving with the other threads |
| LatchedBuild.SomeoneCanMove | dynamic_hashjoin/src/no_partitioning_join.c:835-860 | no reachable state is a deadlock |
| LatchedBuild.Build | dynamic_hashjoin/src/no_partitioning_join.c:807-863 | for every schedule each chain ends with the right shape and exactly the tuples of its hash |
| NoPartitionJoin.ProbeHashtable | dynamic_hashjoin/src/no_partitioning_join.c:514-550 | the count is the number of probe tuples whose key occurs in R |
| MaskedHashes.TableHashIsMasked | dynamic_hashjoin/src/no_partitioning_join.c:195-217 | the mask of the table is one less than the number of buckets shifted down by four, and the hash is the key masked with it |
| MaskedHashes.TableOf | dynamic_hashjoin/src/no_partitioning_join.c:985-995 | the heads are the least power of two that is at least half the tuples, and the hash names a sixteenth of them |
| NoPartitionJoin.SemiCountIsJoin | dynamic_hashjoin/src/no_partitioning_join.c:535-544 | that count is the join cardinality if and only if no key of S occurs twice in R, and never more |
| OverflowRelease.SafeWithBarrier | dynamic_hashjoin/src/no_partitioning_join.c:944-966 | with the barrier behind the probe, no thread reads an overflow bucket another has freed, in any run |
| OverflowRelease.SafeWithoutBarrier | dynamic_hashjoin/src/no_partitioning_join.c:944-966 | without it no run goes wrong if and only if every thread reads its own overflow buckets only |
| NoPartitionJoin.NPO | dynamic_hashjoin/src/no_partitioning_join.c:973-1059 | for any number of threads and any schedule of the build, the summed result is the number of S tuples whose key occurs in R; for the buckets the threads read while probing, freeing them afterwards is safe with the barrier, and without it exactly when every thread reads its own |
| NoPartitionJoin.RehashPayload | dynamic_hashjoin/src/no_partitioning_join.c:462-512 | the new table has the old size and shape and holds the old tuples, whole and unchanged; a tuple with value v in the payload field is in chain v modulo the number of hash values, whatever its key |
| NoPartitionJoin.RehashAll | dynamic_hashjoin/src/no_partitioning_join.c:752-754 | over any sequence of payload indices nothing is lost or added, and every tuple ends in the chain its value in the last field names |
| NoPartitionJoin.SameValueSameChain | dynamic_hashjoin/src/no_partitioning_join.c:480-484 | two tuples with equal values in the field share a chain, whatever their keys |
| LockedShuffle.ExchangeKeeps | dynamic_hashjoin/src/generator.c:204-209 | an exchange under two locks keeps the multiset of keys and the lock ownership |
| LockedShuffle.SomeoneCanMove | dynamic_hashjoin/src/generator.c:199-210 | since every thread takes lock k and then a smaller lock j, no reachable state is a deadlock |
| LockedShuffle.Shuffle | dynamic_hashjoin/src/generator.c:193-210 | with shares that are not empty, every schedule ends; the keys are the old ones after a list of exchanges of the keys at two positions, in which the positions of each thread go down from the last of its share to the second, each once, every one exchanged with a smaller position; so the keys are the old ones in another order |
| ShuffleShares.SharesTile | dynamic_hashjoin/src/generator.c:332-340 | the shares follow one another and the last ends where the relation ends; what is left for the last thread is never negative |
| ShuffleShares.SharesNotEmpty | dynamic_hashjoin/src/generator.c:332-340 | every thread has something to shuffle if and only if there are no more threads than tuples, and the tuples are not exactly one full page for all threads but one |
| ShuffleShares.SharesInUse | dynamic_hashjoin/src/generator.c:332-340 | for pages of 4096 and tuples of 204 bytes: if and only if there are no more threads than tuples |
| ShuffleShares.ThreeForFour | dynamic_hashjoin/src/generator.c:337-338 | three tuples and four threads: three shares are empty, and their loops start at a wrapped-around index |
| ShuffleShares.LastGetsNothing | dynamic_hashjoin/src/generator.c:332-340 | with tuples of 8 bytes, three full pages and four threads leave nothing for the last |
| ShuffleShares.ShuffleRelation | dynamic_hashjoin/src/generator.c:332-382 | with the shares computed as there, and none of them empty, the keys end as the old ones after such exchanges, each thread going down its own share |

## Left out

- Huffman coding and the bitstream with its headers: the symbols of a block, its origPtr, its byte map and its checksum are taken to reach the decoder unchanged. The bytes the entropy coder would deliver are left open in the compressor's state machine.
- The check value is an abstract 32-bit step function; the CRC table is not part of this model.
- Randomised blocks: the decoder's second copy of the run-length loop differs only in a mask on each byte.
- Byte-level aliasing (block bytes inside `eclass`, the bit vector inside `ftab`, packed links of the small decoder) is modelled by separate arrays, except that the move-to-front codes are written over the very array the order is read from.
- Compressor.EState.CompressBlock: the bytes it writes are arbitrary; what is stated is which blocks it is given.
- BlockDecoder.ReadRun: run lengths are unbounded integers, so an overflow of `N` on symbols no encoder writes is not modelled.
- InverseBwt.Invert: stated for last columns of sorted rotations; what the walk yields for other data is not described. The bound checks on `tPos` never fail there and are omitted.
- FallbackSort.FallbackSort: the exit at `r >= nblock` is not a separate case, since the sentinel bits rule it out.
- BlockCoder.BlockSort: the transition between the two sorters is modelled, the memory they share is not.
- NUMA routing of tasks: one queue per phase. The address lookup of the source is a placeholder.
- SKEW_HANDLING, the software-buffered partitioning and the SIMD histogram join: off by default, or tied to other tuple sizes.
- ParallelPartition.PartitionAll: the copying of R and the histograms of S, which may overlap in the source, touch different arrays and are modelled one after the other.
- JoinPhase.JoinTasks: bucket chaining, which works on private memory and on tuples nobody writes, is one step, and so is the probe with one tuple of S.
- BucketChaining.BucketChainingJoin: needs a non-empty R, as the source does (NEXT_POW_2 of 0 is 0); the callers check it.
- BucketChaining.Build: a mask that would leave the 32-bit word is modelled by the number of key bits it still selects, which is the same (`MaskedHashes.ChainHashIsMasked`).
- HistogramJoin.Reorder: the same.
- Materialised join results of the radix joins and of the no-partitioning join: only counts are modelled.
- NoPartitionJoin.NPO: needs at least BUCKET_SIZE tuples in R, since the table must have a bucket; prefetching, thread creation and affinity are left out. The probes of the threads are modelled one after the other, since they only read the table; OverflowRelease describes their reads in any order.
- build_hashtable_st and build_hashtable_st_payload: the serial inserts do what the latched insert does; group_by_hashtable has an empty body.
- CursorPlacement.PlaceCursors: a run is followed up to the first access outside; what the code reads there, and the pages and schemas behind the tables, are not described.
- RadixBuffers.Init: what the overwritten bytes mean as a tuple is a parameter.
- RealSplit.Run: one call on fresh offsets; a second call would add to offsets that are not cleared, and is not modelled.
- The range and the magic hash functions are not part of this model.
- PageHandout.TakeAll: the pages of a list are numbered, and linking pages inside one table is abstracted to appending to a sequence; of the page size only whether a tuple fits matters, and a run is followed up to the first append that fails.
- ShuffleShares.ShuffleRelation: the wrapped-around loop of an empty share is not followed further; the random positions are arbitrary; the keys and payloads written before the shuffle are not described.
- Barriers are primitives: nobody leaves before all have arrived. Their condition-variable version is not part of this model.
- File handling, command lines, configuration, loaders, random data generation, performance counters, timers and simulator hooks.
