/** Compressor and decompressor together: every block is sorted, turned into move-to-front
    symbols, read back and unsorted, and what comes out of the blocks of an ended stream is what
    went in, and every checksum agrees. The entropy coder in between is taken to hand the symbols
    over unchanged. */
module StreamRoundTrip {
  import opened BlockCoder
  import opened Compressor
  import opened Decompressor
  import opened RunLength

  /** The bytes of a block in order, and whatever comes behind them. */
  function Source(b: seq<Byte>, behind: nat -> Byte): nat -> Byte {
    (i: nat) => if i < |b| then b[i] else behind(i)
  }

  lemma SourceHas(b: seq<Byte>, behind: nat -> Byte)
    ensures BlockBytes(Source(b, behind), |b|) == b
  {
  }

  /** Room enough for the whole block, divided among the calls in any way. */
  predicate Enough(rooms: seq<nat>, b: Block) {
    Total(rooms) >= |Decode(b.bytes).out|
  }

  /** One block through the block coder and back. A block as the compressor hands it over is
      never too long for the decompressor. */
  method Carry(step: (bv32, Byte) -> bv32, b: Block, small: bool, blockSize100k: nat, workFactor: int)
    returns (bytes: seq<Byte>)
    requires 1 <= blockSize100k <= 9 && Sound(step, b, 100000 * blockSize100k - 10) && b.bytes != []
    ensures bytes == b.bytes
  {
    hide Decode, Crc, Complete;
    var codes, origPtr, order := EncodeBlock(b.bytes, b.inUse, workFactor);
    var ok, out := DecodeBlock(codes, b.inUse, origPtr, 100000 * blockSize100k, small, b.bytes, order);
    bytes := out;
  }

  /** One block, by either decoder. Its checksum is the one the compressor computed. */
  method DecompressBlock(step: (bv32, Byte) -> bv32, b: Block, behind: nat -> Byte, small: bool, rooms: seq<nat>,
                         blockSize100k: nat, workFactor: int)
    returns (out: seq<Byte>, crc: bv32)
    requires 1 <= blockSize100k <= 9 && Sound(step, b, 100000 * blockSize100k - 10) && b.bytes != [] && Enough(rooms, b)
    ensures out == Decode(b.bytes).out && crc == b.crc
  {
    hide Decode, Crc, Rest, EndsAt, RunAt;
    var bytes := Carry(step, b, small, blockSize100k, workFactor);
    var d := new DState(Source(bytes, behind), |bytes|, step);
    SourceHas(bytes, behind);
    FromStart(d.src, |bytes|);
    ghost var rem := d.Remaining();
    out := Drain(d, small, rooms);
    Whole(out, d.Remaining(), rem, Total(rooms));
    crc := !d.calculatedBlockCRC;
  }

  lemma Whole(out: seq<Byte>, rest: seq<Byte>, rem: seq<Byte>, room: nat)
    requires out + rest == rem && |out| == Min(room, |rem|) && room >= |rem|
    ensures out == rem
  {
    assert rest == [];
  }

  /** All blocks of a stream; blocks without bytes have not been written. */
  method DecompressAll(step: (bv32, Byte) -> bv32, done: seq<Block>, behind: nat -> Byte, small: bool,
                       rooms: seq<seq<nat>>, blockSize100k: nat, workFactor: int)
    returns (out: seq<Byte>, combined: bv32, ok: bool)
    requires 1 <= blockSize100k <= 9 &&
             forall i :: 0 <= i < |done| ==> Sound(step, done[i], 100000 * blockSize100k - 10)
    requires |rooms| == |done| && forall i :: 0 <= i < |done| ==> Enough(rooms[i], done[i])
    ensures ok && out == Decoded(done) && combined == Combined(done)
  {
    hide Decode, Crc, Sound, Mix, Enough;
    out, combined, ok := [], 0, true;
    var i := 0;
    while i < |done|
      invariant 0 <= i <= |done| && ok && out == Decoded(done[..i]) && combined == Combined(done[..i])
    {
      assert done[..i + 1][..i] == done[..i];
      if done[i].bytes != [] {
        var bytes, crc := DecompressBlock(step, done[i], behind, small, rooms[i], blockSize100k, workFactor);
        if crc != done[i].crc { ok := false; }
        out, combined := out + bytes, Mix(combined, crc);
      } else {
        NothingInside(done[i].bytes);
      }
      i := i + 1;
    }
    assert done[..i] == done;
  }

  lemma NothingInside(b: seq<Byte>)
    requires b == []
    ensures Decode(b).out == []
  {
  }

  lemma EndedBlocks(s: EState)
    requires s.Valid()
    ensures forall i :: 0 <= i < |s.done| ==> Sound(s.crcStep, s.done[i], s.nblockMAX + 9)
    ensures s.combinedCRC == Combined(s.done)
  {
  }

  /** Compress with any calls: if the stream ends, decompressing its blocks, by either decoder
      and with the room divided in any way, gives back the input, every checksum agrees, and
      so does the combined one. It does end as soon as a finishing call in sequence moves
      something and leaves room for more output. */
  method RoundTrip(blockSize100k: nat, workFactor: int, step: (bv32, Byte) -> bv32, calls: seq<Call>,
                   behind: nat -> Byte, small: bool, chop: Block -> seq<nat>)
    returns (codes: seq<Code>, taken: seq<Byte>, out: seq<Byte>, ok: bool, turns: seq<Turn>)
    requires 1 <= blockSize100k <= 9 && forall b: Block :: Enough(chop(b), b)
    ensures |codes| == |turns| == |calls| && Conversation(calls, turns, codes)
    ensures Within(calls, turns) && taken == TakenBy(calls, turns)
    ensures StreamEnd in codes ==> ok && out == taken
  {
    hide Decode, Crc, Sound, Enough, Combined, Decoded, Conversation;
    var s := new EState(blockSize100k, step);
    var given;
    codes, taken, given, turns := Session(s, calls);
    EndedBlocks(s);
    var rooms := seq(|s.done|, i requires 0 <= i < |s.done| reads s => chop(s.done[i]));
    var combined;
    out, combined, ok := DecompressAll(step, s.done, behind, small, rooms, blockSize100k, workFactor);
    ok := ok && combined == s.combinedCRC;
  }
}
