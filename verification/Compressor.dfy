/** The compressing state machine of bzlib.c: input bytes are run-length coded into blocks,
    full or flushed blocks go to the block coder, and its output is handed out as room
    permits. What the block coder writes is left open: every result below holds whatever it
    produces. */
module Compressor {
  import opened RunLength

  datatype Mode = Idle | Running | Flushing | Finishing
  datatype Phase = Output | Input
  datatype Action = Run | Flush | Finish
  datatype Code = RunOk | FlushOk | FinishOk | StreamEnd | SequenceError | ParamError

  /** A block handed to the block coder, with its final checksum and the map of used bytes. */
  datatype Block = Block(bytes: seq<Byte>, crc: bv32, inUse: seq<bool>, last: bool)

  /** No byte is pending. */
  const NONE := 256

  // ----- run-length coding of the input -----

  ghost predicate UsedIn(inUse: seq<bool>, cur: seq<Byte>) {
    |inUse| == 256 && forall x: Byte :: inUse[x] <==> x in cur
  }

  /** The block so far: complete, its bytes marked, its checksum that of the decoded bytes. */
  ghost predicate BlockOk(step: (bv32, Byte) -> bv32, cur: seq<Byte>, inUse: seq<bool>, crc: bv32) {
    Complete(cur) && UsedIn(inUse, cur) && crc == Crc(step, CRC_START, Decode(cur).out)
  }

  /** The pending run: none, only before the first byte of a block, or up to 255 copies of a byte
      that does not continue a run at the end of the block. */
  ghost predicate PendingOk(cur: seq<Byte>, ch: int, len: nat) {
    if ch == NONE then len == 0 && cur == []
      else 0 <= ch < 256 && 1 <= len <= 255 && (Decode(cur).run == 0 || Decode(cur).last != ch)
  }

  ghost function Pending(ch: int, len: nat): seq<Byte> {
    if 0 <= ch < 256 then Rep(ch, len) else []
  }

  function Marked(inUse: seq<bool>, ch: Byte, len: nat): seq<bool>
    requires |inUse| == 256 && len <= 255
  {
    if len < 4 then inUse[ch := true] else inUse[ch := true][len - 4 := true]
  }

  lemma BlockPair(step: (bv32, Byte) -> bv32, cur: seq<Byte>, inUse: seq<bool>, crc: bv32, ch: Byte, len: nat)
    requires BlockOk(step, cur, inUse, crc) && PendingOk(cur, ch, len)
    ensures BlockOk(step, cur + PairBytes(ch, len), Marked(inUse, ch, len), Crc(step, crc, Rep(ch, len)))
    ensures Decode(cur + PairBytes(ch, len)) == Decoder(Decode(cur).out + Rep(ch, len), if len < 4 then len else 0, ch)
  {
    hide Crc, Decode;
    DecodePair(cur, ch, len);
    CrcAppend(step, CRC_START, Decode(cur).out, Rep(ch, len));
    MarkPair(cur, inUse, ch, len);
  }

  lemma MarkPair(cur: seq<Byte>, inUse: seq<bool>, ch: Byte, len: nat)
    requires UsedIn(inUse, cur) && 1 <= len <= 255
    ensures UsedIn(Marked(inUse, ch, len), cur + PairBytes(ch, len))
  {
    var used, cur' := Marked(inUse, ch, len), cur + PairBytes(ch, len);
    assert PairBytes(ch, len)[0] == ch;
    if len >= 4 { assert PairBytes(ch, len)[4] == len - 4; }
    forall x: Byte ensures used[x] <==> x in cur' {
      if x in cur { assert x in cur'; }
    }
  }

  // ----- what has been handed over -----

  ghost function Decoded(done: seq<Block>): seq<Byte> {
    if done == [] then [] else Decoded(done[..|done|-1]) + Decode(done[|done|-1].bytes).out
  }

  /** The combined checksum is rotated by one and mixed with each non-empty block's. */
  function Mix(combined: bv32, crc: bv32): bv32 {
    ((combined << 1) | (combined >> 31)) ^ crc
  }

  /** Rotating by one bit, as a number. */
  function Rotated(x: int): int {
    if x < 0x8000_0000 then 2 * x else 2 * x + 1 - 0x1_0000_0000
  }

  ghost predicate RotatedInto(combined: bv32, combined': bv32, crc: bv32) {
    (combined' ^ crc) as int == Rotated(combined as int)
  }

  lemma MixRotates(combined: bv32, crc: bv32)
    ensures RotatedInto(combined, Mix(combined, crc), crc)
  {
    MixTwice(combined, crc);
    RotateOne(combined);
  }

  lemma MixTwice(combined: bv32, crc: bv32)
    ensures Mix(combined, crc) ^ crc == (combined << 1) | (combined >> 31)
  {
  }

  lemma RotateOne(combined: bv32)
    ensures ((combined << 1) | (combined >> 31)) as int == Rotated(combined as int)
  {
  }

  ghost function Combined(done: seq<Block>): bv32 {
    if done == [] then 0
    else if done[|done|-1].bytes == [] then Combined(done[..|done|-1])
    else Mix(Combined(done[..|done|-1]), done[|done|-1].crc)
  }

  /** A block as the block coder must get it: no longer than its buffer allows, with exactly
      its bytes marked and the checksum of what it decodes to. */
  ghost predicate Sound(step: (bv32, Byte) -> bv32, b: Block, limit: nat) {
    && |b.bytes| <= limit && Complete(b.bytes) && UsedIn(b.inUse, b.bytes)
    && (b.bytes != [] ==> b.crc == !Crc(step, CRC_START, Decode(b.bytes).out))
  }

  ghost predicate LastSeen(done: seq<Block>) {
    |done| > 0 && done[|done|-1].last
  }

  /** All blocks are sound, and only the newest can be the last of the stream. */
  ghost predicate HistoryOk(step: (bv32, Byte) -> bv32, done: seq<Block>, limit: nat, combined: bv32) {
    && (forall i :: 0 <= i < |done| ==> Sound(step, done[i], limit))
    && (forall i :: 0 <= i < |done| - 1 ==> !done[i].last)
    && combined == Combined(done)
  }

  lemma HandOver(step: (bv32, Byte) -> bv32, done: seq<Block>, limit: nat, combined: bv32, b: Block)
    requires HistoryOk(step, done, limit, combined) && Sound(step, b, limit) && !LastSeen(done)
    ensures HistoryOk(step, done + [b], limit, if b.bytes == [] then combined else Mix(combined, b.crc))
    ensures Decoded(done + [b]) == Decoded(done) + Decode(b.bytes).out && LastSeen(done + [b]) == b.last
  {
    hide Sound, Mix, Decode, Combined, Decoded;
    CombinedSnoc(done, b);
    DecodedSnoc(done, b);
  }

  lemma CombinedSnoc(done: seq<Block>, b: Block)
    ensures Combined(done + [b]) == if b.bytes == [] then Combined(done) else Mix(Combined(done), b.crc)
  {
    hide Mix;
    assert (done + [b])[..|done|] == done;
  }

  lemma DecodedSnoc(done: seq<Block>, b: Block)
    ensures Decoded(done + [b]) == Decoded(done) + Decode(b.bytes).out
  {
    hide Decode;
    assert (done + [b])[..|done|] == done;
  }

  /** Every block handed over since is full, except perhaps the last one, if a flush or finish
      has been carried out. */
  ghost predicate CutFull(done0: seq<Block>, done: seq<Block>, full: nat, asked: bool) {
    && done0 <= done
    && forall i :: |done0| <= i < |done| ==> |done[i].bytes| >= full || (asked && i == |done| - 1)
  }

  lemma CutNothing(done: seq<Block>, full: nat, asked: bool)
    ensures CutFull(done, done, full, asked)
  {
  }

  lemma CutAsked(done0: seq<Block>, done: seq<Block>, full: nat, asked: bool, asked': bool)
    requires CutFull(done0, done, full, asked) && (asked ==> asked')
    ensures CutFull(done0, done, full, asked')
  {
  }

  lemma CutOneMore(done0: seq<Block>, done: seq<Block>, done': seq<Block>, full: nat, asked: bool)
    requires CutFull(done0, done, full, false) && CutFull(done, done', full, asked)
    ensures CutFull(done0, done', full, asked)
  {
    assert forall i :: 0 <= i < |done| ==> done'[i] == done[i];
  }

  class EState {
    const nblockMAX: nat
    const crcStep: (bv32, Byte) -> bv32
    const block: array<Byte>
    const inUse: array<bool>
    var mode: Mode
    var state: Phase
    var availInExpect: nat
    var stateInCh: int
    var stateInLen: nat
    var nblock: nat
    var blockNo: nat
    var blockCRC: bv32
    var combinedCRC: bv32
    var zbits: seq<Byte>
    var stateOutPos: nat
    /** The blocks handed to the block coder: what its output stands for. */
    var done: seq<Block>
    /** All input taken so far, all output of the block coder, and what of it has been
        delivered. */
    ghost var consumed: seq<Byte>
    ghost var produced: seq<Byte>
    ghost var delivered: seq<Byte>

    /** Append a byte to the block. */
    method Put(x: Byte)
      requires nblock < block.Length
      modifies block, this`nblock
      ensures nblock == old(nblock) + 1 && block[..nblock] == old(block[..nblock]) + [x]
    {
      block[nblock] := x;
      nblock := nblock + 1;
    }

    /** Four bytes and a count, or fewer. */
    method PutPair(ch: Byte, len: nat)
      requires 1 <= len <= 255 && nblock + 5 <= block.Length
      modifies block, this`nblock
      ensures old(nblock) <= nblock <= old(nblock) + 5 && block[..nblock] == old(block[..nblock]) + PairBytes(ch, len)
    {
      ghost var b := block[..nblock];
      SmallReps(ch);
      match len
      case 1 =>
        Put(ch);
      case 2 =>
        Put(ch);
        Put(ch);
      case 3 =>
        Put(ch);
        Put(ch);
        Put(ch);
      case _ =>
        Put(ch);
        Put(ch);
        Put(ch);
        Put(ch);
        Put(len - 4);
      assert block[..nblock] == b + PairBytes(ch, len);
    }

    /** The checksum of the pending run. */
    method UpdateCrc(ch: Byte, len: nat)
      modifies this`blockCRC
      ensures blockCRC == Crc(crcStep, old(blockCRC), Rep(ch, len))
    {
      ghost var crc := blockCRC;
      var i := 0;
      while i < len
        invariant 0 <= i <= len && blockCRC == Crc(crcStep, crc, Rep(ch, i))
      {
        RepSnoc(ch, i);
        assert Rep(ch, i + 1)[..i] == Rep(ch, i);
        blockCRC := crcStep(blockCRC, ch);
        i := i + 1;
      }
    }

    /** Move the pending run into the block. */
    method AddPairToBlock()
      requires 0 <= stateInCh < 256 && 1 <= stateInLen <= 255 && nblock + 5 <= block.Length && inUse.Length == 256
      modifies block, inUse, this`nblock, this`blockCRC
      ensures old(nblock) <= nblock <= old(nblock) + 5
      ensures block[..nblock] == old(block[..nblock]) + PairBytes(stateInCh, stateInLen)
      ensures inUse[..] == Marked(old(inUse[..]), stateInCh, stateInLen) &&
              blockCRC == Crc(crcStep, old(blockCRC), Rep(stateInCh, stateInLen))
    {
      UpdateCrc(stateInCh, stateInLen);
      inUse[stateInCh] := true;
      if stateInLen >= 4 { inUse[stateInLen - 4] := true; }
      PutPair(stateInCh, stateInLen);
    }

    /** The block and the pending run together decode to everything taken in that no earlier
        block holds. */
    ghost predicate Front(before: seq<Byte>, input: seq<Byte>)
      reads this`nblock, this`blockCRC, this`stateInCh, this`stateInLen, block, inUse
    {
      && nblock <= block.Length && inUse.Length == 256
      && BlockOk(crcStep, block[..nblock], inUse[..], blockCRC) && PendingOk(block[..nblock], stateInCh, stateInLen)
      && input == before + Decode(block[..nblock]).out + Pending(stateInCh, stateInLen)
    }

    /** ADD_CHAR_TO_BLOCK. */
    method AddChar(zchh: Byte, ghost before: seq<Byte>, ghost input: seq<Byte>)
      requires Front(before, input) && nblock + 5 <= block.Length
      modifies block, inUse, this`nblock, this`blockCRC, this`stateInCh, this`stateInLen
      ensures Front(before, input + [zchh]) && stateInCh != NONE && old(nblock) <= nblock <= old(nblock) + 5
      ensures stateInCh == zchh
      ensures var longer := zchh == old(stateInCh) && old(stateInLen) < 255;
              && stateInLen == (if longer then old(stateInLen) + 1 else 1)
              && block[..nblock] == old(block[..nblock]) +
                   if longer || old(stateInCh) == NONE then [] else PairBytes(old(stateInCh), old(stateInLen))
    {
      hide Decode, Crc, BlockOk;
      ghost var cur, used, crc, ch, len := block[..nblock], inUse[..], blockCRC, stateInCh, stateInLen;
      if zchh != stateInCh && stateInLen == 1 {
        BlockPair(crcStep, cur, used, crc, stateInCh, 1);
        AppendPending(before, Decode(cur).out, ch, 1, zchh);
        blockCRC := crcStep(blockCRC, stateInCh);
        CrcOne(crcStep, crc, ch);
        inUse[stateInCh] := true;
        SmallReps(ch);
        Put(stateInCh);
        stateInCh := zchh;
      } else if zchh != stateInCh || stateInLen == 255 {
        if stateInCh < 256 {
          BlockPair(crcStep, cur, used, crc, stateInCh, stateInLen);
          AppendPending(before, Decode(cur).out, ch, len, zchh);
          AddPairToBlock();
        } else {
          NothingPending(before, ch, len, zchh);
        }
        stateInCh := zchh;
        stateInLen := 1;
      } else {
        stateInLen := stateInLen + 1;
      }
    }

    // ----- streams of input and output -----

    /** The caller's buffers during a call: input not yet taken, output so far and the room
        that is left. */
    var nextIn: seq<Byte>
    var nextOut: seq<Byte>
    var availOut: nat

    predicate IsEmptyRL()
      reads this
    {
      !(stateInCh < 256 && stateInLen > 0)
    }

    /** Move the last pending run into the block. */
    method FlushRL(ghost before: seq<Byte>, ghost input: seq<Byte>)
      requires Front(before, input) && nblock + 5 <= block.Length
      modifies block, inUse, this`nblock, this`blockCRC, this`stateInCh, this`stateInLen
      ensures nblock <= old(nblock) + 5 && nblock <= block.Length && stateInCh == NONE && stateInLen == 0
      ensures BlockOk(crcStep, block[..nblock], inUse[..], blockCRC) && input == before + Decode(block[..nblock]).out
      ensures block[..nblock] == old(block[..nblock]) +
                if old(stateInCh) == NONE then [] else PairBytes(old(stateInCh), old(stateInLen))
    {
      hide Decode, Crc, BlockOk;
      if stateInCh < 256 {
        BlockPair(crcStep, block[..nblock], inUse[..], blockCRC, stateInCh, stateInLen);
        AddPairToBlock();
      }
      stateInCh := 256;
      stateInLen := 0;
    }

    /** Take one byte of input. */
    method TakeOne(ghost before: seq<Byte>)
      requires Front(before, consumed) && nblock + 5 <= block.Length && |nextIn| > 0
      modifies block, inUse, this`nblock, this`blockCRC, this`stateInCh, this`stateInLen, this`nextIn, this`consumed
      ensures Front(before, consumed) && stateInCh != NONE && old(nblock) <= nblock <= old(nblock) + 5
      ensures consumed + nextIn == old(consumed) + old(nextIn) && |nextIn| == old(|nextIn|) - 1
    {
      hide *;
      AddChar(nextIn[0], before, consumed);
      consumed := consumed + [nextIn[0]];
      nextIn := nextIn[1..];
    }

    /** Take input until the block is full or the input ends. */
    method CopyInputRunning(ghost before: seq<Byte>) returns (progressIn: bool)
      requires Front(before, consumed) && nblock < nblockMAX && nblockMAX + 19 == block.Length
      modifies block, inUse, this`nblock, this`blockCRC, this`stateInCh, this`stateInLen, this`nextIn, this`consumed
      ensures Front(before, consumed) && consumed + nextIn == old(consumed) + old(nextIn)
      ensures nblock <= nblockMAX + 4 && (nblock >= nblockMAX ==> stateInCh != NONE && |nextIn| < old(|nextIn|))
      ensures nblock >= nblockMAX || |nextIn| == 0
      ensures |nextIn| <= old(|nextIn|) && progressIn == (|nextIn| < old(|nextIn|))
    {
      hide *;
      progressIn := false;
      while true
        invariant Front(before, consumed) && consumed + nextIn == old(consumed) + old(nextIn) && nblock <= nblockMAX + 4
        invariant |nextIn| <= old(|nextIn|) && progressIn == (|nextIn| < old(|nextIn|))
        invariant (progressIn ==> stateInCh != NONE) && (nblock >= nblockMAX ==> progressIn)
        decreases |nextIn|
      {
        if nblock >= nblockMAX { break; }
        if |nextIn| == 0 { break; }
        progressIn := true;
        TakeOne(before);
      }
    }

    /** The same while flushing or finishing: no more than what was there when that was asked
        for. */
    method CopyInputExpected(ghost before: seq<Byte>) returns (progressIn: bool)
      requires Front(before, consumed) && nblock < nblockMAX && nblockMAX + 19 == block.Length &&
               availInExpect == |nextIn|
      modifies block, inUse, this`nblock, this`blockCRC, this`stateInCh, this`stateInLen, this`nextIn, this`consumed,
               this`availInExpect
      ensures Front(before, consumed) && consumed + nextIn == old(consumed) + old(nextIn)
      ensures nblock <= nblockMAX + 4 && (nblock >= nblockMAX ==> stateInCh != NONE && |nextIn| < old(|nextIn|))
      ensures (nblock >= nblockMAX || |nextIn| == 0) && availInExpect == |nextIn|
      ensures |nextIn| <= old(|nextIn|) && progressIn == (|nextIn| < old(|nextIn|))
    {
      hide *;
      progressIn := false;
      while true
        invariant Front(before, consumed) && consumed + nextIn == old(consumed) + old(nextIn) && nblock <= nblockMAX + 4
        invariant |nextIn| <= old(|nextIn|) && progressIn == (|nextIn| < old(|nextIn|)) && availInExpect == |nextIn|
        invariant (progressIn ==> stateInCh != NONE) && (nblock >= nblockMAX ==> progressIn)
        decreases |nextIn|
      {
        if nblock >= nblockMAX { break; }
        if |nextIn| == 0 { break; }
        if availInExpect == 0 { break; }
        progressIn := true;
        TakeOne(before);
        availInExpect := availInExpect - 1;
      }
    }

    method CopyInputUntilStop(ghost before: seq<Byte>) returns (progressIn: bool)
      requires Front(before, consumed) && nblock < nblockMAX && nblockMAX + 19 == block.Length
      requires mode != Running ==> availInExpect == |nextIn|
      modifies block, inUse, this`nblock, this`blockCRC, this`stateInCh, this`stateInLen, this`nextIn, this`consumed,
               this`availInExpect
      ensures Front(before, consumed) && consumed + nextIn == old(consumed) + old(nextIn)
      ensures nblock <= nblockMAX + 4 && (nblock >= nblockMAX ==> stateInCh != NONE && |nextIn| < old(|nextIn|))
      ensures nblock >= nblockMAX || |nextIn| == 0
      ensures mode != Running ==> availInExpect == |nextIn|
      ensures |nextIn| <= old(|nextIn|) && progressIn == (|nextIn| < old(|nextIn|))
    {
      hide *;
      if mode == Running {
        progressIn := CopyInputRunning(before);
      } else {
        progressIn := CopyInputExpected(before);
      }
    }

    /** What has been delivered and what waits in zbits is all the block coder has produced. */
    ghost predicate Delivering()
      reads this`stateOutPos, this`zbits, this`delivered, this`produced
    {
      stateOutPos <= |zbits| && delivered + zbits[stateOutPos..] == produced
    }

    /** Deliver output until the room or the output ends. */
    method CopyOutputUntilStop(ghost base: seq<Byte>, ghost room: nat) returns (progressOut: bool)
      requires Delivering() && delivered == base + nextOut && |nextOut| + availOut == room
      modifies this`nextOut, this`availOut, this`stateOutPos, this`delivered
      ensures Delivering() && delivered == base + nextOut && |nextOut| + availOut == room
      ensures availOut == 0 || stateOutPos == |zbits|
      ensures availOut <= old(availOut) && progressOut == (availOut < old(availOut))
    {
      progressOut := false;
      while true
        invariant Delivering() && delivered == base + nextOut && |nextOut| + availOut == room
        invariant availOut <= old(availOut) && progressOut == (availOut < old(availOut))
        decreases availOut
      {
        if availOut == 0 { break; }
        if stateOutPos >= |zbits| { break; }
        progressOut := true;
        nextOut := nextOut + [zbits[stateOutPos]];
        delivered := delivered + [zbits[stateOutPos]];
        stateOutPos := stateOutPos + 1;
        availOut := availOut - 1;
      }
    }

    // ----- what holds between any two steps -----

    ghost predicate Sized() {
      nblockMAX >= 1 && block.Length == nblockMAX + 19 && inUse.Length == 256
    }

    ghost predicate History()
      reads this`done, this`combinedCRC
    {
      HistoryOk(crcStep, done, nblockMAX + 9, combinedCRC)
    }

    /** While taking input, the blocks handed over, the current one and the pending run hold
        all input taken so far. */
    ghost predicate Inputting()
      reads this`nblock, this`blockCRC, this`stateInCh, this`stateInLen, this`done, this`consumed, block, inUse
    {
      nblock < nblockMAX && Front(Decoded(done), consumed) && !LastSeen(done)
    }

    /** While delivering output, the blocks handed over and the pending run do; nothing is
        pending only when a flush has been carried out, and after the last block. */
    ghost predicate Outputting()
      reads this`stateInCh, this`stateInLen, this`done, this`consumed, this`mode, this`availInExpect
    {
      && consumed == Decoded(done) + Pending(stateInCh, stateInLen) && |done| > 0
      && (if stateInCh == NONE then
            stateInLen == 0 && availInExpect == 0 && mode != Running && (LastSeen(done) <==> mode != Flushing)
          else
            0 <= stateInCh < 256 && 1 <= stateInLen <= 255 && mode != Idle && !LastSeen(done))
    }

    ghost predicate Valid()
      reads this, block, inUse
    {
      && Sized() && History() && Delivering()
      && (state == Input ==> Inputting() && zbits == [] && mode != Idle)
      && (state == Output ==> Outputting())
      && (mode == Idle ==> stateOutPos == |zbits|)
    }

    /** BZ2_bzCompressInit. */
    constructor (blockSize100k: nat, crcStep: (bv32, Byte) -> bv32)
      requires 1 <= blockSize100k <= 9
      ensures Valid() && mode == Running && consumed == [] && done == [] && delivered == [] &&
              nblockMAX == 100000 * blockSize100k - 19
      ensures fresh(block) && fresh(inUse) && this.crcStep == crcStep
    {
      this.crcStep := crcStep;
      nblockMAX := 100000 * blockSize100k - 19;
      block := new Byte[100000 * blockSize100k];
      inUse := new bool[256](_ => false);
      mode, state, availInExpect := Running, Input, 0;
      stateInCh, stateInLen := 256, 0;
      nblock, blockNo, blockCRC, combinedCRC := 0, 1, CRC_START, 0;
      zbits, stateOutPos := [], 0;
      consumed, done, produced, delivered := [], [], [], [];
      nextIn, nextOut, availOut := [], [], 0;
      new;
      EmptyBlock(crcStep, block[..nblock], inUse[..]);
    }

    method ClearInUse()
      requires inUse.Length == 256
      modifies inUse
      ensures forall j :: 0 <= j < 256 ==> !inUse[j]
    {
      var i := 0;
      while i < 256
        invariant 0 <= i <= 256 && forall j :: 0 <= j < i ==> !inUse[j]
      {
        inUse[i] := false;
        i := i + 1;
      }
    }

    /** Start the next block. */
    method PrepareNewBlock()
      requires Sized() && state == Output && Outputting() && !LastSeen(done) && Delivering() && stateOutPos == |zbits|
      modifies inUse, this`nblock, this`zbits, this`stateOutPos, this`blockCRC, this`blockNo
      ensures nblock == 0 && stateOutPos == 0 && Inputting() && Delivering() && zbits == []
    {
      nblock := 0;
      zbits := [];
      stateOutPos := 0;
      blockCRC := CRC_START;
      ClearInUse();
      blockNo := blockNo + 1;
      EmptyBlock(crcStep, block[..nblock], inUse[..]);
    }

    /** Hand the block to the block coder. The output it writes is left open. */
    method CompressBlock(isLast: bool)
      requires Sized() && nblock <= nblockMAX + 9 && BlockOk(crcStep, block[..nblock], inUse[..], blockCRC) &&
               History() && !LastSeen(done)
      requires zbits == [] && Delivering()
      modifies this`blockCRC, this`combinedCRC, this`zbits, this`done, this`produced
      ensures History() && LastSeen(done) == isLast && |done| > 0 &&
              Decoded(done) == Decoded(old(done)) + Decode(block[..nblock]).out
      ensures Delivering() && stateOutPos == 0
      ensures |done| == |old(done)| + 1 && done[..|old(done)|] == old(done)
      ensures done[|old(done)|].bytes == block[..nblock]
      ensures nblock == 0 ==> combinedCRC == old(combinedCRC)
      ensures nblock > 0 ==> RotatedInto(old(combinedCRC), combinedCRC, done[|old(done)|].crc)
    {
      hide Decode, Crc, Decoded, Combined, Mix, RotatedInto;
      if nblock > 0 {
        blockCRC := !blockCRC;
        combinedCRC := Mix(combinedCRC, blockCRC);
        MixRotates(old(combinedCRC), blockCRC);
      }
      var b := Block(block[..nblock], blockCRC, inUse[..], isLast);
      HandOver(crcStep, done, nblockMAX + 9, old(combinedCRC), b);
      done := done + [b];
      var written: seq<Byte> := *;
      zbits := written;
      produced := produced + written;
    }

    // ----- handle_compress -----

    /** The caller still offers what it offered when a flush or finish was asked for. */
    ghost predicate Expecting()
      reads this`mode, this`availInExpect, this`nextIn
    {
      mode != Idle && (mode != Running ==> availInExpect == |nextIn|)
    }

    /** Where handle_compress may stop. */
    ghost predicate Stopped()
      reads this
    {
      || (state == Output && stateOutPos < |zbits| && availOut == 0)
      || (state == Output && mode == Finishing && stateOutPos == |zbits| && stateInCh == NONE && availInExpect == 0)
      || (state == Input && mode == Flushing && stateInCh == NONE && availInExpect == 0 && nblock == 0)
      || (state == Input && mode == Running && nextIn == [])
    }

    /** The part of an iteration that delivers output. */
    method OutputStep(ghost base: seq<Byte>, ghost room: nat) returns (progressOut: bool, stop: bool)
      requires Valid() && Expecting() && state == Output && delivered == base + nextOut && |nextOut| + availOut == room
      modifies inUse, this`nextOut, this`availOut, this`stateOutPos, this`delivered, this`nblock, this`zbits,
               this`blockCRC, this`blockNo, this`state
      ensures Valid() && Expecting() && delivered == base + nextOut && |nextOut| + availOut == room
      ensures availOut <= old(availOut) && progressOut == (availOut < old(availOut))
      ensures if stop then Stopped()
              else state == Input && (mode != Running && availInExpect == 0 ==> stateInCh != NONE)
    {
      hide Decode, Crc, Decoded, BlockOk, HistoryOk, LastSeen, Inputting, Outputting, Delivering;
      progressOut := CopyOutputUntilStop(base, room);
      if stateOutPos < |zbits| { return progressOut, true; }
      PendingShape();
      if mode == Finishing && availInExpect == 0 && IsEmptyRL() { return progressOut, true; }
      NextBlock();
      stop := mode == Flushing && availInExpect == 0 && IsEmptyRL();
    }

    method NextBlock()
      requires Valid() && state == Output && stateOutPos == |zbits| && !LastSeen(done) && mode != Idle
      modifies inUse, this`stateOutPos, this`nblock, this`zbits, this`blockCRC, this`blockNo, this`state
      ensures Valid() && state == Input && nblock == 0
    {
      hide Decode, Crc, Decoded, BlockOk, HistoryOk, LastSeen, Inputting, Outputting, Delivering;
      PrepareNewBlock();
      state := Input;
    }

    lemma PendingShape()
      requires Outputting() && mode != Idle && Delivering()
      ensures stateOutPos <= |zbits|
      ensures IsEmptyRL() <==> stateInCh == NONE
      ensures LastSeen(done) ==> mode == Finishing && availInExpect == 0 && IsEmptyRL()
    {
    }

    /** The part that takes input. */
    method InputStep() returns (progressIn: bool, stop: bool)
      requires Valid() && Expecting() && state == Input
      modifies this, block, inUse
      ensures Valid() && Expecting() && mode == old(mode) && consumed + nextIn == old(consumed) + old(nextIn)
      ensures delivered == old(delivered) && nextOut == old(nextOut) && availOut == old(availOut)
      ensures |nextIn| <= old(|nextIn|) && progressIn == (|nextIn| < old(|nextIn|))
      ensures CutFull(old(done), done, nblockMAX, mode != Running && availInExpect == 0 && stateInCh == NONE)
      ensures if stop then Stopped() else
                state == Output &&
                  (|nextIn| < old(|nextIn|) || (stateInCh == NONE && mode != Running && availInExpect == 0))
    {
      hide Decode, Crc, Decoded, BlockOk, HistoryOk, LastSeen, Outputting, Front, Delivering, CutFull;
      CutNothing(done, nblockMAX, mode != Running && availInExpect == 0 && stateInCh == NONE);
      progressIn := CopyInputUntilStop(Decoded(done));
      stop := false;
      if mode != Running && availInExpect == 0 {
        EndFlushed();
        state := Output;
      } else if nblock >= nblockMAX {
        EndFull();
        state := Output;
      } else if |nextIn| == 0 {
        stop := true;
      }
    }

    /** Everything taken in goes into this block. */
    method EndFlushed()
      requires Sized() && History() && Delivering() && zbits == [] && !LastSeen(done) && nblock <= nblockMAX + 4
      requires Front(Decoded(done), consumed) && mode != Running && availInExpect == 0
      modifies block, inUse, this`nblock, this`blockCRC, this`stateInCh, this`stateInLen, this`combinedCRC,
               this`zbits, this`done, this`produced
      ensures Sized() && History() && Delivering() && stateOutPos == 0 && stateInCh == NONE &&
              (mode != Idle ==> Outputting())
      ensures CutFull(old(done), done, nblockMAX, true)
    {
      hide Decode, Crc, Decoded, BlockOk, HistoryOk, Front, Delivering;
      FlushRL(Decoded(done), consumed);
      CompressBlock(mode == Finishing);
    }

    /** A full block; the byte that filled it stays pending. */
    method EndFull()
      requires Sized() && History() && Delivering() && zbits == [] && !LastSeen(done) && nblock <= nblockMAX + 4
      requires Front(Decoded(done), consumed) && stateInCh != NONE && mode != Idle && nblock >= nblockMAX
      modifies this`blockCRC, this`combinedCRC, this`zbits, this`done, this`produced
      ensures Sized() && History() && Delivering() && stateOutPos == 0 && Outputting()
      ensures CutFull(old(done), done, nblockMAX, false)
    {
      hide Decode, Crc, Decoded, BlockOk, HistoryOk, Front, Delivering;
      FrontHas(Decoded(done));
      CompressBlock(false);
    }

    lemma FrontHas(before: seq<Byte>)
      requires Front(before, consumed)
      ensures BlockOk(crcStep, block[..nblock], inUse[..], blockCRC)
      ensures consumed == before + Decode(block[..nblock]).out + Pending(stateInCh, stateInLen)
      ensures stateInCh != NONE ==> 0 <= stateInCh < 256 && 1 <= stateInLen <= 255
    {
    }

    /** Alternates between taking input and delivering output until one of them is stuck. It
        always ends. */
    method HandleCompress(ghost base: seq<Byte>, ghost room: nat) returns (progress: bool)
      requires Valid() && Expecting() && delivered == base + nextOut && |nextOut| + availOut == room
      modifies this, block, inUse
      ensures Valid() && Expecting() && Stopped() && mode == old(mode)
      ensures consumed + nextIn == old(consumed) + old(nextIn) && delivered == base + nextOut &&
              |nextOut| + availOut == room
      ensures |nextIn| <= old(|nextIn|) && availOut <= old(availOut) &&
              progress == (|nextIn| < old(|nextIn|) || availOut < old(availOut))
      ensures CutFull(old(done), done, nblockMAX, mode != Running && availInExpect == 0)
    {
      hide Valid, Stopped, CutFull;
      ghost var done0 := done;
      CutNothing(done0, nblockMAX, mode != Running && availInExpect == 0 && stateInCh == NONE && state == Output);
      var progressIn, progressOut := false, false;
      while true
        invariant Valid() && Expecting() && mode == old(mode)
        invariant consumed + nextIn == old(consumed) + old(nextIn) && delivered == base + nextOut &&
                  |nextOut| + availOut == room
        invariant |nextIn| <= old(|nextIn|) && availOut <= old(availOut)
        invariant progressIn == (|nextIn| < old(|nextIn|)) && progressOut == (availOut < old(availOut))
        invariant CutFull(done0, done, nblockMAX,
                    mode != Running && availInExpect == 0 && stateInCh == NONE && state == Output)
        decreases |nextIn|, if stateInCh != NONE then 1 else 0, if state == Input then 1 else 0
      {
        var p, stop;
        ghost var asked := mode != Running && availInExpect == 0 && stateInCh == NONE && state == Output;
        if state == Output {
          p, stop := OutputStep(base, room);
          progressOut := progressOut || p;
          if stop {
            CutAsked(done0, done, nblockMAX, asked, mode != Running && availInExpect == 0);
            break;
          }
        }
        if state == Input {
          ghost var done1 := done;
          p, stop := InputStep();
          progressIn := progressIn || p;
          ghost var asked' := mode != Running && availInExpect == 0 && stateInCh == NONE;
          CutOneMore(done0, done1, done, nblockMAX, asked');
          if stop {
            CutAsked(done0, done, nblockMAX, asked', mode != Running && availInExpect == 0);
            break;
          }
        }
      }
      progress := progressIn || progressOut;
    }

    // ----- BZ2_bzCompress -----

    /** Everything taken in has been handed over in blocks, and everything the block coder has
        written has been delivered. */
    ghost predicate Caught()
      reads this`consumed, this`done, this`delivered, this`produced
    {
      consumed == Decoded(done) && delivered == produced
    }

    /** What a call has taken and given, whatever it was asked to do. */
    ghost predicate Moved(con0: seq<Byte>, del0: seq<Byte>, inp: seq<Byte>, room: nat)
      reads this`consumed, this`delivered, this`nextIn, this`nextOut
    {
      consumed + nextIn == con0 + inp && delivered == del0 + nextOut && |nextIn| <= |inp| && |nextOut| <= room
    }

    /** Make the caller's buffers those of this call. */
    method Offer(inp: seq<Byte>, room: nat)
      requires Valid()
      modifies this`nextIn, this`nextOut, this`availOut
      ensures Valid() && Moved(consumed, delivered, inp, room) && nextIn == inp && nextOut == [] && availOut == room
    {
      hide History, Inputting, Outputting, Delivering;
      nextIn, nextOut, availOut := inp, [], room;
    }

    /** RUN: take input and deliver output. */
    method RunCall(inp: seq<Byte>, room: nat) returns (ret: Code)
      requires Valid() && mode == Running && nextIn == inp && nextOut == [] && availOut == room
      modifies this, block, inUse
      ensures Valid() && mode == Running && Moved(old(consumed), old(delivered), inp, room)
      ensures ret == if |nextIn| < |inp| || nextOut != [] then RunOk else ParamError
      ensures CutFull(old(done), done, nblockMAX, false)
      ensures nextIn == [] || |nextOut| == room
    {
      hide Valid, CutFull;
      assert delivered == delivered + nextOut;
      var progress := HandleCompress(delivered, room);
      RunStopped();
      ret := if progress then RunOk else ParamError;
    }

    lemma RunStopped()
      requires Valid() && Stopped() && mode == Running
      ensures nextIn == [] || availOut == 0
    {
    }

    /** FLUSH: until everything offered is in blocks and delivered. */
    method FlushCall(inp: seq<Byte>, room: nat) returns (ret: Code)
      requires Valid() && mode == Flushing && nextIn == inp && nextOut == [] && availOut == room
      modifies this, block, inUse
      ensures Valid() && Moved(old(consumed), old(delivered), inp, room)
      ensures ret == SequenceError ==> old(availInExpect) != |inp| && mode == Flushing && nextIn == inp && nextOut == []
      ensures old(availInExpect) != |inp| ==> ret == SequenceError
      ensures ret == FlushOk ==> mode == Flushing && |nextOut| == room && delivered != produced
      ensures availInExpect == if old(availInExpect) == |inp| then |nextIn| else old(availInExpect)
      ensures ret == RunOk ==> mode == Running && Caught() && nextIn == []
      ensures CutFull(old(done), done, nblockMAX, nextIn == [])
      ensures ret == SequenceError || ret == FlushOk || ret == RunOk
    {
      hide Inputting, Outputting, History, Delivering, Caught, CutFull;
      if availInExpect != |nextIn| {
        CutNothing(done, nblockMAX, nextIn == []);
        return SequenceError;
      }
      assert delivered == delivered + nextOut;
      var progress := HandleCompress(delivered, room);
      if availInExpect > 0 || !IsEmptyRL() || stateOutPos < |zbits| {
        RoomUsedUp();
        return FlushOk;
      }
      FlushStopped();
      mode := Running;
      ret := RunOk;
    }

    /** If something is left to do, it is because there is no room for more output. */
    lemma RoomUsedUp()
      requires Valid() && Stopped() && (mode == Flushing || mode == Finishing)
      requires availInExpect > 0 || !IsEmptyRL() || stateOutPos < |zbits|
      ensures availOut == 0 && delivered != produced
    {
      hide History, Front;
      if state == Output && stateOutPos < |zbits| {
        assert |delivered + zbits[stateOutPos..]| > |delivered|;
      }
    }

    lemma FlushStopped()
      requires Valid() && Stopped() && Expecting() && mode == Flushing && availInExpect == 0 && IsEmptyRL() &&
               stateOutPos >= |zbits|
      ensures state == Input && Inputting() && Caught()
    {
      hide Crc, Decoded, HistoryOk;
      EmptyDecodes();
    }

    lemma EmptyDecodes()
      ensures Decode([]).out == []
    {
    }

    /** FINISH: the same, and the last of the blocks is the last of the stream. A call that
        moves nothing is an error, even if it has handed a block over. */
    method FinishCall(inp: seq<Byte>, room: nat) returns (ret: Code)
      requires Valid() && mode == Finishing && nextIn == inp && nextOut == [] && availOut == room
      modifies this, block, inUse
      ensures Valid() && Moved(old(consumed), old(delivered), inp, room)
      ensures ret == SequenceError ==> mode == Finishing && nextIn == inp && nextOut == []
      ensures old(availInExpect) != |inp| ==> ret == SequenceError
      ensures old(availInExpect) == |inp| ==> (ret == SequenceError <==> |nextIn| == |inp| && nextOut == [])
      ensures ret == FinishOk ==> mode == Finishing && |nextOut| == room && delivered != produced
      ensures availInExpect == if old(availInExpect) == |inp| then |nextIn| else old(availInExpect)
      ensures ret == StreamEnd ==> mode == Idle && Caught() && LastSeen(done) && nextIn == []
      ensures CutFull(old(done), done, nblockMAX, nextIn == [])
      ensures ret == SequenceError || ret == FinishOk || ret == StreamEnd
    {
      hide Inputting, Outputting, History, Delivering, Caught, LastSeen, CutFull;
      if availInExpect != |nextIn| {
        CutNothing(done, nblockMAX, nextIn == []);
        return SequenceError;
      }
      assert delivered == delivered + nextOut;
      var progress := HandleCompress(delivered, room);
      if !progress {
        SameRest(old(consumed), inp);
        return SequenceError;
      }
      if availInExpect > 0 || !IsEmptyRL() || stateOutPos < |zbits| {
        RoomUsedUp();
        return FinishOk;
      }
      FinishStopped();
      Close();
      ret := StreamEnd;
    }

    method Close()
      requires Valid() && state == Output && mode == Finishing && stateInCh == NONE && stateOutPos >= |zbits|
      modifies this`mode
      ensures Valid() && mode == Idle
    {
      hide History;
      mode := Idle;
    }

    lemma SameRest(con0: seq<Byte>, inp: seq<Byte>)
      requires consumed + nextIn == con0 + inp && |nextIn| == |inp|
      ensures nextIn == inp
    {
      assert (consumed + nextIn)[|consumed|..] == nextIn && (con0 + inp)[|con0|..] == inp;
    }

    lemma FinishStopped()
      requires Valid() && Stopped() && Expecting() && mode == Finishing && availInExpect == 0 && IsEmptyRL() &&
               stateOutPos >= |zbits|
      ensures state == Output && stateInCh == NONE && LastSeen(done) && Caught()
    {
      hide Crc, Decoded, HistoryOk;
    }

    /** BZ2_bzCompress. The caller offers inp and room for output; used bytes of inp have been
        taken and out has been given. */
    method Compress(action: Action, inp: seq<Byte>, room: nat) returns (ret: Code, used: nat, out: seq<Byte>)
      requires Valid()
      modifies this, block, inUse
      ensures Valid() && used <= |inp| && |out| <= room
      ensures consumed == old(consumed) + inp[..used] && delivered == old(delivered) + out
      ensures OutOfSequence(old(mode), action) || (old(mode) != Running && old(availInExpect) != |inp|) ==>
                ret == SequenceError && used == 0 && out == [] && mode == old(mode)
      ensures old(mode) == Running && action == Run ==>
                mode == Running && ret == (if used > 0 || out != [] then RunOk else ParamError) &&
                  (used == |inp| || |out| == room)
      ensures ret == RunOk && action == Flush ==> mode == Running && Caught() && used == |inp|
      ensures ret == StreamEnd ==> mode == Idle && Caught() && LastSeen(done) && used == |inp|
      ensures mode == Idle ==> old(mode) == Idle || ret == StreamEnd
      ensures ret == FlushOk || ret == FinishOk ==> |out| == room && delivered != produced
      ensures mode == ModeAfter(old(mode), action, ret)
      ensures CutFull(old(done), done, nblockMAX, action != Run && used == |inp|)
      ensures Answered(Turn(old(mode), old(availInExpect), used, out), Call(action, inp, room), ret)
      ensures mode != Running ==>
                availInExpect == ExpectedAfter(Turn(old(mode), old(availInExpect), used, out), Call(action, inp, room))
    {
      hide Valid, Caught, LastSeen, CutFull;
      Offer(inp, room);
      CutNothing(done, nblockMAX, false);
      CutNothing(done, nblockMAX, true);
      ghost var con0, del0 := old(consumed), old(delivered);
      ret := SequenceError;
      if mode == Running && action != Run { AskFor(action); }
      match mode {
        case Idle =>
        case Running =>
          ret := RunCall(inp, room);
        case Flushing =>
          if action == Flush { ret := FlushCall(inp, room); }
        case Finishing =>
          if action == Finish { ret := FinishCall(inp, room); }
      }
      used, out := |inp| - |nextIn|, nextOut;
      Parts(con0, inp);
    }

    /** A flush or finish is asked for while running: remember how much input there is. */
    method AskFor(action: Action)
      requires Valid() && mode == Running && action != Run
      modifies this`availInExpect, this`mode
      ensures Valid() && mode == (if action == Flush then Flushing else Finishing) && availInExpect == |nextIn|
    {
      hide History, Inputting, Delivering;
      availInExpect := |nextIn|;
      mode := if action == Flush then Flushing else Finishing;
    }

    lemma Parts(con0: seq<Byte>, inp: seq<Byte>)
      requires consumed + nextIn == con0 + inp && |nextIn| <= |inp|
      ensures consumed == con0 + inp[..|inp| - |nextIn|]
    {
      assert (consumed + nextIn)[..|consumed|] == consumed;
      assert (con0 + inp)[..|consumed|] == con0 + inp[..|inp| - |nextIn|];
    }
  }

  /** Actions that a mode does not allow. */
  predicate OutOfSequence(mode: Mode, action: Action) {
    mode == Idle || (mode == Flushing && action != Flush) || (mode == Finishing && action != Finish)
  }

  datatype Call = Call(action: Action, inp: seq<Byte>, room: nat)

  /** One call as seen by the caller: the mode before it, how much input a flush or finish under
      way still expects, how much was taken and what was given. */
  datatype Turn = Turn(mode: Mode, expected: nat, used: nat, out: seq<Byte>)

  /** An action that the mode allows, with the input that is expected. */
  predicate InSequence(t: Turn, c: Call) {
    !OutOfSequence(t.mode, c.action) && (t.mode == Running || t.expected == |c.inp|)
  }

  function ModeAfter(mode: Mode, action: Action, ret: Code): Mode {
    match ret
    case StreamEnd => Idle
    case RunOk => Running
    case FlushOk => Flushing
    case FinishOk => Finishing
    case _ => if mode == Running && action == Finish then Finishing else mode
  }

  function ExpectedAfter(t: Turn, c: Call): int {
    if InSequence(t, c) then |c.inp| - t.used else t.expected
  }

  /** What a call must answer. An answer that asks for more calls comes only with a full output
      buffer. */
  predicate Answered(t: Turn, c: Call, ret: Code) {
    var moved := t.used > 0 || t.out != [];
    && t.used <= |c.inp| && |t.out| <= c.room
    && if !InSequence(t, c) then ret == SequenceError && !moved
       else match c.action
         case Run => ret == (if moved then RunOk else ParamError) && (t.used == |c.inp| || |t.out| == c.room)
         case Flush => if |t.out| < c.room then ret == RunOk && t.used == |c.inp| else ret == RunOk || ret == FlushOk
         case Finish =>
           if !moved then ret == SequenceError
           else if |t.out| < c.room then ret == StreamEnd && t.used == |c.inp|
           else ret == StreamEnd || ret == FinishOk
  }

  /** A call is made in the mode the one before has led to, and answered as that mode requires. */
  predicate TurnAt(calls: seq<Call>, turns: seq<Turn>, codes: seq<Code>, i: nat)
    requires i < |turns| == |codes| <= |calls|
  {
    && Answered(turns[i], calls[i], codes[i])
    && if i == 0 then turns[i].mode == Running
       else
         && turns[i].mode == ModeAfter(turns[i-1].mode, calls[i-1].action, codes[i-1])
         && (turns[i].mode != Running ==> turns[i].expected == ExpectedAfter(turns[i-1], calls[i-1]))
  }

  /** The answers of a whole session. */
  predicate Conversation(calls: seq<Call>, turns: seq<Turn>, codes: seq<Code>)
    requires |turns| == |codes| <= |calls|
  {
    forall i {:trigger TurnAt(calls, turns, codes, i)} :: 0 <= i < |turns| ==> TurnAt(calls, turns, codes, i)
  }

  /** No call has taken more than it was offered. */
  predicate Within(calls: seq<Call>, turns: seq<Turn>) {
    |turns| <= |calls| && forall i :: 0 <= i < |turns| ==> turns[i].used <= |calls[i].inp|
  }

  function TakenBy(calls: seq<Call>, turns: seq<Turn>): seq<Byte>
    requires Within(calls, turns)
  {
    if turns == [] then []
    else TakenBy(calls, turns[..|turns|-1]) + calls[|turns|-1].inp[..turns[|turns|-1].used]
  }

  function GivenBy(turns: seq<Turn>): seq<Byte> {
    if turns == [] then [] else GivenBy(turns[..|turns|-1]) + turns[|turns|-1].out
  }

  /** A session so far, with the mode and the input expected that it has led to. */
  ghost predicate Told(calls: seq<Call>, turns: seq<Turn>, codes: seq<Code>, taken: seq<Byte>, given: seq<Byte>,
                       mode: Mode, expected: nat)
  {
    && |turns| == |codes| <= |calls| && Conversation(calls, turns, codes)
    && Within(calls, turns) && taken == TakenBy(calls, turns) && given == GivenBy(turns)
    && if turns == [] then mode == Running
       else
         var n := |turns| - 1;
         && mode == ModeAfter(turns[n].mode, calls[n].action, codes[n])
         && (mode != Running ==> expected == ExpectedAfter(turns[n], calls[n]))
  }

  lemma ToldMore(calls: seq<Call>, turns: seq<Turn>, codes: seq<Code>, taken: seq<Byte>, given: seq<Byte>, t: Turn,
                 ret: Code, mode: Mode, expected: nat)
    requires Told(calls, turns, codes, taken, given, t.mode, t.expected) && |turns| < |calls|
    requires t.used <= |calls[|turns|].inp| && Answered(t, calls[|turns|], ret)
    requires mode == ModeAfter(t.mode, calls[|turns|].action, ret)
    requires mode != Running ==> expected == ExpectedAfter(t, calls[|turns|])
    ensures Told(calls, turns + [t], codes + [ret], taken + calls[|turns|].inp[..t.used], given + t.out, mode, expected)
  {
    hide ModeAfter, ExpectedAfter, Answered;
    var turns', codes' := turns + [t], codes + [ret];
    assert turns'[..|turns|] == turns;
    forall i {:trigger TurnAt(calls, turns', codes', i)} | 0 <= i < |turns'| ensures TurnAt(calls, turns', codes', i) {
      if i < |turns| { assert TurnAt(calls, turns, codes, i); }
    }
  }

  lemma NothingTold(calls: seq<Call>, expected: nat)
    ensures Told(calls, [], [], [], [], Running, expected)
  {
  }

  lemma AllTold(calls: seq<Call>, turns: seq<Turn>, codes: seq<Code>, taken: seq<Byte>, given: seq<Byte>, mode: Mode,
                expected: nat)
    requires Told(calls, turns, codes, taken, given, mode, expected)
    ensures |turns| == |codes| <= |calls| && Conversation(calls, turns, codes)
    ensures Within(calls, turns) && taken == TakenBy(calls, turns) && given == GivenBy(turns)
  {
    hide ModeAfter, ExpectedAfter, Answered;
  }

  /** A finishing call in sequence that moves something and leaves room ends the stream. */
  lemma FinishEnds(calls: seq<Call>, turns: seq<Turn>, codes: seq<Code>, i: nat)
    requires i < |turns| == |codes| <= |calls| && Conversation(calls, turns, codes)
    requires calls[i].action == Finish && InSequence(turns[i], calls[i])
    requires (turns[i].used > 0 || turns[i].out != []) && |turns[i].out| < calls[i].room
    ensures StreamEnd in codes
  {
    assert TurnAt(calls, turns, codes, i) && codes[i] == StreamEnd;
  }

  /** Any sequence of calls, legal or not. At all times the blocks handed over, the block being
      filled and the pending run hold the input taken; every call is answered as the mode
      requires; and when the stream has ended, its blocks decode to the input, exactly the last
      one is marked as last, and everything written has been delivered. */
  method Session(s: EState, calls: seq<Call>)
    returns (codes: seq<Code>, taken: seq<Byte>, given: seq<Byte>, turns: seq<Turn>)
    requires s.Valid() && s.mode == Running && s.consumed == [] && s.delivered == []
    modifies s, s.block, s.inUse
    ensures s.Valid() && |codes| == |calls| && s.consumed == taken && s.delivered == given
    ensures |turns| == |calls| && Conversation(calls, turns, codes)
    ensures Within(calls, turns) && taken == TakenBy(calls, turns) && given == GivenBy(turns)
    ensures s.mode == Idle <==> StreamEnd in codes
    ensures StreamEnd in codes ==>
              Decoded(s.done) == taken && given == s.produced &&
              forall i ::
                0 <= i < |s.done| ==>
                  Sound(s.crcStep, s.done[i], s.nblockMAX + 9) && (s.done[i].last <==> i == |s.done| - 1)
  {
    hide Decode, Crc, Decoded, Combined, Answered, ModeAfter, ExpectedAfter, Told, Conversation, TakenBy, GivenBy;
    codes, taken, given, turns := [], [], [], [];
    var i := 0;
    NothingTold(calls, s.availInExpect);
    while i < |calls|
      invariant 0 <= i <= |calls| && |codes| == i && s.Valid() && s.consumed == taken && s.delivered == given
      invariant |turns| == i && Told(calls, turns, codes, taken, given, s.mode, s.availInExpect)
      invariant s.mode == Idle <==> StreamEnd in codes
      invariant s.mode == Idle ==> s.Caught() && LastSeen(s.done)
    {
      var mode, expected := s.mode, s.availInExpect;
      var ret, used, out := s.Compress(calls[i].action, calls[i].inp, calls[i].room);
      ToldMore(calls, turns, codes, taken, given, Turn(mode, expected, used, out), ret, s.mode, s.availInExpect);
      turns := turns + [Turn(mode, expected, used, out)];
      codes, taken, given := codes + [ret], taken + calls[i].inp[..used], given + out;
      i := i + 1;
    }
    AllTold(calls, turns, codes, taken, given, s.mode, s.availInExpect);
  }

  lemma EmptyBlock(step: (bv32, Byte) -> bv32, cur: seq<Byte>, inUse: seq<bool>)
    requires cur == [] && |inUse| == 256 && forall j :: 0 <= j < 256 ==> !inUse[j]
    ensures BlockOk(step, cur, inUse, CRC_START) && Decode(cur).out == [] && Decode(cur).run == 0
  {
  }

  lemma SmallReps(ch: Byte)
    ensures Rep(ch, 1) == [ch] && Rep(ch, 2) == [ch, ch] && Rep(ch, 3) == [ch, ch, ch] && Rep(ch, 4) == [ch, ch, ch, ch]
  {
  }

  lemma CrcOne(step: (bv32, Byte) -> bv32, from: bv32, ch: Byte)
    ensures Crc(step, from, Rep(ch, 1)) == step(from, ch)
  {
    SmallReps(ch);
    assert Rep(ch, 1)[..0] == [];
  }

  lemma NothingPending(before: seq<Byte>, ch: int, len: nat, x: Byte)
    requires ch == NONE
    ensures Decode([]).run == 0
    ensures (before + Decode([]).out + Pending(ch, len)) + [x] == before + Decode([]).out + Rep(x, 1)
  {
  }

  lemma AppendPending(before: seq<Byte>, out: seq<Byte>, ch: Byte, len: nat, x: Byte)
    ensures (before + out + Rep(ch, len)) + [x] == before + (out + Rep(ch, len)) + Rep(x, 1)
  {
  }
}
