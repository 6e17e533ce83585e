/** The run-length decoder of bzlib.c, in its fast and its small form. Both can stop after any
    output byte, even inside a run, and go on later. The bytes of the block come from a source
    that goes on with arbitrary bytes behind the end of the block. */
module Decompressor {
  import opened RunLength

  // ----- what is still to come -----

  /** The length of the run that begins with the byte before position u of an n-byte block, and
      the position after it. A run of four takes a count and the byte behind it, even where the
      block has already ended. */
  function RunAt(src: nat -> Byte, n: nat, u: nat): (r: (nat, nat))
    requires 1 <= u <= n
    ensures r.0 >= 1 && u < r.1 <= n + 2
  {
    if u == n || src(u) != src(u - 1) then (1, u + 1)
    else if u + 1 == n || src(u + 1) != src(u - 1) then (2, u + 2)
    else if u + 2 == n || src(u + 2) != src(u - 1) then (3, u + 3)
    else (4 + src(u + 3), u + 5)
  }

  /** Everything that comes out from position u on. */
  function Rest(src: nat -> Byte, n: nat, u: nat): seq<Byte>
    requires 1 <= u
    decreases n + 1 - u
  {
    if u > n then [] else Rep(src(u - 1), RunAt(src, n, u).0) + Rest(src, n, RunAt(src, n, u).1)
  }

  /** Where decoding ends: at n + 1, or at n + 2 if the last count was missing. */
  function EndsAt(src: nat -> Byte, n: nat, u: nat): (e: nat)
    requires 1 <= u
    ensures u <= n + 2 ==> n + 1 <= e <= n + 2
    decreases n + 1 - u
  {
    if u > n then u else EndsAt(src, n, RunAt(src, n, u).1)
  }

  predicate Truncated(src: nat -> Byte, n: nat, u: nat)
    requires 1 <= u
  {
    EndsAt(src, n, u) > n + 1
  }

  function BlockBytes(src: nat -> Byte, n: nat): (b: seq<Byte>)
    ensures |b| == n && forall i :: 0 <= i < n ==> b[i] == src(i)
  {
    seq(n, i requires 0 <= i => src(i))
  }

  /** A new run begins behind the first m bytes. */
  ghost predicate Boundary(b: seq<Byte>, m: nat) {
    m <= |b| && Complete(b[..m]) && (m < |b| ==> Decode(b[..m]).run == 0 || Decode(b[..m]).last != b[m])
  }

  /** Decoding forwards from a boundary is decoding the whole. */
  lemma {:induction false} RestIsDecode(src: nat -> Byte, n: nat, u: nat)
    requires 1 <= u <= n + 1 && Boundary(BlockBytes(src, n), u - 1)
    ensures Truncated(src, n, u) <==> !Complete(BlockBytes(src, n))
    ensures Complete(BlockBytes(src, n)) ==>
            Decode(BlockBytes(src, n)).out == Decode(BlockBytes(src, n)[..u - 1]).out + Rest(src, n, u)
    decreases n + 1 - u
  {
    hide Decode;
    var b := BlockBytes(src, n);
    if u == n + 1 {
      assert b[..n] == b;
    } else {
      var (r, v) := RunAt(src, n, u);
      if v <= n + 1 {
        RunDecodes(src, n, u);
        RestIsDecode(src, n, v);
        assert (Decode(b[..u - 1]).out + Rep(b[u - 1], r)) + Rest(src, n, v) ==
            Decode(b[..u - 1]).out + (Rep(b[u - 1], r) + Rest(src, n, v));
      } else {
        MissingCount(src, n, u);
      }
    }
  }

  /** A run that lies within the block. */
  lemma RunDecodes(src: nat -> Byte, n: nat, u: nat)
    requires 1 <= u <= n && Boundary(BlockBytes(src, n), u - 1) && RunAt(src, n, u).1 <= n + 1
    ensures var b := BlockBytes(src, n);
            var (r, v) := RunAt(src, n, u);
            Boundary(b, v - 1) && Decode(b[..v - 1]).out == Decode(b[..u - 1]).out + Rep(b[u - 1], r)
  {
    hide Decode;
    var b := BlockBytes(src, n);
    var (r, v) := RunAt(src, n, u);
    var p, ch := b[..u - 1], b[u - 1];
    if r < 4 {
      assert b[..v - 1] == p + Rep(ch, r);
      DecodeRun(p, ch, r);
    } else {
      assert b[..v - 1] == p + PairBytes(ch, r);
      DecodePair(p, ch, r);
    }
  }

  lemma MissingCount(src: nat -> Byte, n: nat, u: nat)
    requires 1 <= u <= n && Boundary(BlockBytes(src, n), u - 1) && RunAt(src, n, u).1 > n + 1
    ensures !Complete(BlockBytes(src, n)) && Truncated(src, n, u)
  {
    var b := BlockBytes(src, n);
    var p, ch := b[..u - 1], b[u - 1];
    assert b == p + Rep(ch, 4);
    DecodeRun(p, ch, 4);
  }

  /** From the start: the output is what the block decodes to, and the decoder reports
      corruption exactly for a block that ends with four equal bytes and no count. */
  lemma FromStart(src: nat -> Byte, n: nat)
    ensures Truncated(src, n, 1) <==> !Complete(BlockBytes(src, n))
    ensures Complete(BlockBytes(src, n)) ==> Rest(src, n, 1) == Decode(BlockBytes(src, n)).out
  {
    assert BlockBytes(src, n)[..0] == [];
    assert Decode([]).out + Rest(src, n, 1) == Rest(src, n, 1);
    RestIsDecode(src, n, 1);
  }

  // ----- the decoders -----

  class DState {
    /** The block's bytes in order, then whatever the table walk yields; the block's length. */
    const src: nat -> Byte
    const saveNblock: nat
    const crcStep: (bv32, Byte) -> bv32
    var stateOutCh: Byte
    var stateOutLen: nat
    var nblockUsed: nat
    var k0: Byte
    var calculatedBlockCRC: bv32
    var nextOut: seq<Byte>
    var availOut: nat

    /** k0 is the byte in front of the next one to be fetched. */
    ghost predicate Valid()
      reads this
    {
      1 <= nblockUsed <= saveNblock + 2 && (nblockUsed <= saveNblock ==> k0 == src(nblockUsed - 1))
    }

    /** Everything this decoder will still put out. */
    ghost function Remaining(): seq<Byte>
      requires Valid()
      reads this
    {
      Rep(stateOutCh, stateOutLen) + Rest(src, saveNblock, nblockUsed)
    }

    /** A block is ready: its first byte has been fetched. */
    constructor (src: nat -> Byte, saveNblock: nat, crcStep: (bv32, Byte) -> bv32)
      ensures Valid() && nextOut == [] && Remaining() == Rest(src, saveNblock, 1) && calculatedBlockCRC == CRC_START
      ensures nblockUsed == 1 && this.src == src && this.saveNblock == saveNblock && this.crcStep == crcStep &&
              stateOutLen == 0
    {
      this.src, this.saveNblock, this.crcStep := src, saveNblock, crcStep;
      stateOutCh, stateOutLen, nblockUsed, k0 := 0, 0, 1, src(0);
      calculatedBlockCRC, nextOut, availOut := CRC_START, [], 0;
    }

    /** The next byte from the source. */
    method Get() returns (k1: Byte)
      modifies this`nblockUsed
      ensures nblockUsed == old(nblockUsed) + 1 && k1 == src(old(nblockUsed))
    {
      k1 := src(nblockUsed);
      nblockUsed := nblockUsed + 1;
    }

    method EmitOne()
      requires availOut > 0
      modifies this`nextOut, this`calculatedBlockCRC, this`availOut
      ensures nextOut == old(nextOut) + [stateOutCh] &&
              calculatedBlockCRC == crcStep(old(calculatedBlockCRC), stateOutCh) && availOut == old(availOut) - 1
    {
      nextOut := nextOut + [stateOutCh];
      calculatedBlockCRC := crcStep(calculatedBlockCRC, stateOutCh);
      availOut := availOut - 1;
    }

    /** Fetch one more byte; the run goes on if it equals the one before. */
    method RunGoesOn() returns (more: bool)
      requires 1 <= nblockUsed <= saveNblock
      modifies this`nblockUsed, this`k0
      ensures nblockUsed == old(nblockUsed) + 1
      ensures more <==> old(nblockUsed) < saveNblock && src(old(nblockUsed)) == old(k0)
      ensures if more then k0 == old(k0) else nblockUsed <= saveNblock ==> k0 == src(nblockUsed - 1)
    {
      var k1 := Get();
      if nblockUsed == saveNblock + 1 { return false; }
      if k1 != k0 { k0 := k1; return false; }
      return true;
    }

    /** The fourth equal byte is followed by a count and by the first byte of the next run. */
    method GetCount()
      modifies this`stateOutLen, this`nblockUsed, this`k0
      ensures stateOutLen == 4 + src(old(nblockUsed)) && nblockUsed == old(nblockUsed) + 2 && k0 == src(nblockUsed - 1)
    {
      var k1 := Get();
      var count: int := k1;
      stateOutLen := count + 4;
      k0 := Get();
    }

    /** Fetch the next run. */
    method StartRunSmall()
      requires Valid() && nblockUsed <= saveNblock
      modifies this`stateOutCh, this`stateOutLen, this`nblockUsed, this`k0
      ensures Valid() && stateOutCh == src(old(nblockUsed) - 1)
      ensures (stateOutLen, nblockUsed) == RunAt(src, saveNblock, old(nblockUsed))
    {
      hide Rest, EndsAt, Crc;
      stateOutLen := 1;
      stateOutCh := k0;
      var more := RunGoesOn();
      if !more { return; }
      stateOutLen := 2;
      more := RunGoesOn();
      if !more { return; }
      stateOutLen := 3;
      more := RunGoesOn();
      if !more { return; }
      GetCount();
    }

    /** What the output of a call, its checksum and the room left come to. */
    ghost predicate Given(out0: seq<Byte>, crc0: bv32, room: nat, rem: seq<Byte>)
      requires Valid()
      reads this
    {
      && |out0| <= |nextOut| && nextOut[..|out0|] == out0 && |nextOut| - |out0| + availOut == room
      && nextOut[|out0|..] + Remaining() == rem && calculatedBlockCRC == Crc(crcStep, crc0, nextOut[|out0|..])
    }

    lemma EmitStep(out0: seq<Byte>, crc0: bv32, room: nat, rem: seq<Byte>, nextOut': seq<Byte>, crc': bv32)
      requires Valid() && Given(out0, crc0, room, rem) && stateOutLen > 0
      requires nextOut' == nextOut + [stateOutCh] && crc' == crcStep(calculatedBlockCRC, stateOutCh)
      ensures |out0| <= |nextOut'| && nextOut'[..|out0|] == out0
      ensures nextOut'[|out0|..] + (Rep(stateOutCh, stateOutLen - 1) + Rest(src, saveNblock, nblockUsed)) == rem
      ensures crc' == Crc(crcStep, crc0, nextOut'[|out0|..])
    {
      hide Rest;
      var more := nextOut[|out0|..];
      assert nextOut'[|out0|..] == more + [stateOutCh];
      assert (more + [stateOutCh])[..|more|] == more;
      assert Rep(stateOutCh, stateOutLen) == [stateOutCh] + Rep(stateOutCh, stateOutLen - 1);
    }

    lemma RunStep(u: nat, ch: Byte)
      requires Valid() && 1 <= u <= saveNblock && stateOutCh == src(u - 1) &&
               (stateOutLen, nblockUsed) == RunAt(src, saveNblock, u)
      ensures Remaining() == Rep(ch, 0) + Rest(src, saveNblock, u) &&
              EndsAt(src, saveNblock, nblockUsed) == EndsAt(src, saveNblock, u)
    {
    }

    /** Put out the current run until it or the room ends. */
    method FinishRunSmall(ghost out0: seq<Byte>, ghost crc0: bv32, ghost room: nat, ghost rem: seq<Byte>)
      requires Valid() && Given(out0, crc0, room, rem)
      modifies this`stateOutLen, this`nextOut, this`availOut, this`calculatedBlockCRC
      ensures Valid() && Given(out0, crc0, room, rem) && (availOut == 0 || stateOutLen == 0)
    {
      hide Rest, Crc, RunAt;
      while true
        invariant Valid() && Given(out0, crc0, room, rem)
        decreases availOut
      {
        if availOut == 0 { break; }
        if stateOutLen == 0 { break; }
        EmitStep(out0, crc0, room, rem, nextOut + [stateOutCh], crcStep(calculatedBlockCRC, stateOutCh));
        EmitOne();
        stateOutLen := stateOutLen - 1;
      }
    }

    lemma NoChecksum(crc0: bv32)
      ensures Crc(crcStep, crc0, []) == crc0
    {
    }

    lemma AtEnd()
      requires Valid()
      ensures nblockUsed > saveNblock ==>
              EndsAt(src, saveNblock, nblockUsed) == nblockUsed && (stateOutLen == 0 ==> Remaining() == [])
    {
    }

    /** unRLE_obuf_to_output_SMALL. The output is the next stretch of what remains, as much as
        there is room for, and the rest still remains. Corruption is reported exactly when the
        block is truncated and all output has come out with room to spare. */
    method Small(room: nat) returns (corrupt: bool)
      requires Valid() && availOut == room
      modifies this`stateOutCh, this`stateOutLen, this`nblockUsed, this`k0, this`nextOut, this`availOut,
               this`calculatedBlockCRC
      ensures Valid() && Given(old(nextOut), old(calculatedBlockCRC), room, old(Remaining()))
      ensures availOut == 0 || Remaining() == []
      ensures Truncated(src, saveNblock, nblockUsed) == Truncated(src, saveNblock, old(nblockUsed))
      ensures corrupt <==> Truncated(src, saveNblock, old(nblockUsed)) && |old(Remaining())| < room
    {
      hide Rest, EndsAt, RunAt, Crc;
      ghost var out0, crc0, rem := nextOut, calculatedBlockCRC, Remaining();
      assert nextOut[|out0|..] == [] && [] + rem == rem;
      NoChecksum(crc0);
      while true
        invariant Valid() && Given(out0, crc0, room, rem)
        invariant EndsAt(src, saveNblock, nblockUsed) == EndsAt(src, saveNblock, old(nblockUsed))
        decreases saveNblock + 2 - nblockUsed, availOut
      {
        FinishRunSmall(out0, crc0, room, rem);
        if availOut == 0 { return false; }
        AtEnd();
        if nblockUsed == saveNblock + 1 { return false; }
        if nblockUsed > saveNblock + 1 { return true; }
        ghost var u, ch := nblockUsed, stateOutCh;
        StartRunSmall();
        RunStep(u, ch);
      }
    }

    /** The fast form compares before it looks whether the block has ended. */
    method RunGoesOnFast() returns (more: bool)
      requires 1 <= nblockUsed <= saveNblock
      modifies this`nblockUsed, this`k0
      ensures nblockUsed == old(nblockUsed) + 1
      ensures more <==> old(nblockUsed) < saveNblock && src(old(nblockUsed)) == old(k0)
      ensures if more then k0 == old(k0) else nblockUsed <= saveNblock ==> k0 == src(nblockUsed - 1)
    {
      var k1 := Get();
      if k1 != k0 { k0 := k1; return false; }
      if nblockUsed == saveNblock + 1 { return false; }
      return true;
    }

    /** Fetch the next run. A run of one is put out at once; that is what the top of the loop
        does with a length of one. */
    method StartRunFast()
      requires Valid() && nblockUsed <= saveNblock
      modifies this`stateOutCh, this`stateOutLen, this`nblockUsed, this`k0
      ensures Valid() && stateOutCh == src(old(nblockUsed) - 1)
      ensures (stateOutLen, nblockUsed) == RunAt(src, saveNblock, old(nblockUsed))
    {
      hide Rest, EndsAt, Crc;
      stateOutCh := k0;
      var more := RunGoesOnFast();
      if !more {
        stateOutLen := 1;
        return;
      }
      stateOutLen := 2;
      more := RunGoesOn();
      if !more { return; }
      stateOutLen := 3;
      more := RunGoesOn();
      if !more { return; }
      GetCount();
    }

    /** Put out the current run. When there is no room for its last byte, one remains. */
    method FinishRunFast(ghost out0: seq<Byte>, ghost crc0: bv32, ghost room: nat, ghost rem: seq<Byte>)
      returns (full: bool)
      requires Valid() && Given(out0, crc0, room, rem) && stateOutLen > 0
      modifies this`stateOutLen, this`nextOut, this`availOut, this`calculatedBlockCRC
      ensures Valid() && Given(out0, crc0, room, rem) &&
              if full then availOut == 0 && stateOutLen > 0 else stateOutLen == 0
    {
      hide Rest, Crc, RunAt;
      while true
        invariant Valid() && Given(out0, crc0, room, rem) && stateOutLen > 0
        decreases availOut
      {
        if availOut == 0 { return true; }
        if stateOutLen == 1 { break; }
        EmitStep(out0, crc0, room, rem, nextOut + [stateOutCh], crcStep(calculatedBlockCRC, stateOutCh));
        EmitOne();
        stateOutLen := stateOutLen - 1;
      }
      EmitStep(out0, crc0, room, rem, nextOut + [stateOutCh], crcStep(calculatedBlockCRC, stateOutCh));
      EmitOne();
      stateOutLen := 0;
      full := false;
    }

    /** The loop of the fast form, on the state itself. */
    method FastLoop(room: nat) returns (corrupt: bool)
      requires Valid() && availOut == room
      modifies this`stateOutCh, this`stateOutLen, this`nblockUsed, this`k0, this`nextOut, this`availOut,
               this`calculatedBlockCRC
      ensures Valid() && Given(old(nextOut), old(calculatedBlockCRC), room, old(Remaining()))
      ensures availOut == 0 || Remaining() == []
      ensures Truncated(src, saveNblock, nblockUsed) == Truncated(src, saveNblock, old(nblockUsed))
      ensures corrupt <==> Truncated(src, saveNblock, old(nblockUsed)) && |old(Remaining())| <= room
    {
      hide Rest, EndsAt, RunAt, Crc;
      ghost var out0, crc0, rem := nextOut, calculatedBlockCRC, Remaining();
      assert nextOut[|out0|..] == [] && [] + rem == rem;
      NoChecksum(crc0);
      while true
        invariant Valid() && Given(out0, crc0, room, rem)
        invariant EndsAt(src, saveNblock, nblockUsed) == EndsAt(src, saveNblock, old(nblockUsed))
        decreases saveNblock + 2 - nblockUsed
      {
        if stateOutLen > 0 {
          var full := FinishRunFast(out0, crc0, room, rem);
          if full { return false; }
        }
        AtEnd();
        if nblockUsed > saveNblock + 1 { return true; }
        if nblockUsed == saveNblock + 1 { return false; }
        ghost var u, ch := nblockUsed, stateOutCh;
        StartRunFast();
        RunStep(u, ch);
      }
    }

    /** unRLE_obuf_to_output_FAST: works on copies and saves them unless the data is corrupt.
        It reports corruption when the output of a truncated block fits, even exactly. */
    method Fast(room: nat) returns (corrupt: bool)
      requires Valid() && availOut == room
      modifies this`stateOutCh, this`stateOutLen, this`nblockUsed, this`k0, this`nextOut, this`availOut,
               this`calculatedBlockCRC
      ensures Valid()
      ensures corrupt <==> Truncated(src, saveNblock, old(nblockUsed)) && |old(Remaining())| <= room
      ensures !corrupt ==>
              Given(old(nextOut), old(calculatedBlockCRC), room, old(Remaining())) &&
                (availOut == 0 || Remaining() == [])
      ensures !corrupt ==> Truncated(src, saveNblock, nblockUsed) == Truncated(src, saveNblock, old(nblockUsed))
      ensures corrupt ==> nextOut == old(nextOut) && availOut == old(availOut) && Remaining() == old(Remaining())
    {
      hide Rest, EndsAt, RunAt, Crc;
      var ch, len, used, k, crc, out, avail := stateOutCh, stateOutLen, nblockUsed, k0, calculatedBlockCRC, nextOut,
          availOut;
      corrupt := FastLoop(room);
      if corrupt {
        stateOutCh, stateOutLen, nblockUsed, k0, calculatedBlockCRC, nextOut, availOut := ch, len, used, k, crc, out,
            avail;
      }
    }
  }

  /** BZ2_indexIntoF: the byte whose stretch of the cumulative table holds an index. */
  method IndexIntoF(indx: int, cftab: seq<int>) returns (nb: nat)
    requires |cftab| == 257 && cftab[0] <= indx < cftab[256]
    ensures nb < 256 && cftab[nb] <= indx < cftab[nb + 1]
  {
    nb := 0;
    var na := 256;
    while true
      invariant 0 <= nb < na <= 256 && cftab[nb] <= indx < cftab[na]
      decreases na - nb
    {
      if na - nb == 1 { break; }
      var mid := (nb + na) / 2;
      if indx >= cftab[mid] { nb := mid; } else { na := mid; }
    }
  }

  function Total(rooms: seq<nat>): nat {
    if rooms == [] then 0 else Total(rooms[..|rooms|-1]) + rooms[|rooms|-1]
  }

  function Min(a: nat, b: nat): nat {
    if a < b then a else b
  }

  lemma ChopStep(given: seq<Byte>, more: seq<Byte>, rem0: seq<Byte>, rem1: seq<Byte>, rem2: seq<Byte>, total: nat,
                 room: nat, left: nat)
    requires given + rem1 == rem0 && |given| == Min(total, |rem0|) && more + rem2 == rem1
    requires |more| + left == room && (left == 0 || rem2 == [])
    ensures (given + more) + rem2 == rem0 && |given + more| == Min(total + room, |rem0|)
  {
  }

  /** Calls with any amounts of room, one after the other. Unless the block is truncated, what
      they put out together is the first so many bytes of what remained at the beginning, no
      matter how the room was divided; its checksum is the one computed. */
  method Drain(s: DState, small: bool, rooms: seq<nat>) returns (given: seq<Byte>)
    requires s.Valid() && !Truncated(s.src, s.saveNblock, s.nblockUsed)
    modifies s
    ensures s.Valid() && given + s.Remaining() == old(s.Remaining()) &&
            |given| == Min(Total(rooms), |old(s.Remaining())|)
    ensures s.calculatedBlockCRC == Crc(s.crcStep, old(s.calculatedBlockCRC), given)
  {
    hide Rest, EndsAt, RunAt, Crc;
    given := [];
    ghost var rem, crc0 := s.Remaining(), s.calculatedBlockCRC;
    assert [] + rem == rem;
    s.NoChecksum(crc0);
    var i := 0;
    while i < |rooms|
      invariant 0 <= i <= |rooms| && s.Valid() && !Truncated(s.src, s.saveNblock, s.nblockUsed)
      invariant given + s.Remaining() == rem && |given| == Min(Total(rooms[..i]), |rem|)
      invariant s.calculatedBlockCRC == Crc(s.crcStep, crc0, given)
    {
      ghost var rem1 := s.Remaining();
      var more := Call(s, small, rooms[i]);
      assert rooms[..i + 1][..i] == rooms[..i];
      ChopStep(given, more, rem, rem1, s.Remaining(), Total(rooms[..i]), rooms[i], s.availOut);
      CrcAppend(s.crcStep, crc0, given, more);
      given := given + more;
      i := i + 1;
    }
    assert rooms[..i] == rooms;
  }

  method Call(s: DState, small: bool, room: nat) returns (more: seq<Byte>)
    requires s.Valid() && !Truncated(s.src, s.saveNblock, s.nblockUsed)
    modifies s
    ensures s.Valid() && !Truncated(s.src, s.saveNblock, s.nblockUsed)
    ensures more + s.Remaining() == old(s.Remaining()) && |more| + s.availOut == room &&
            (s.availOut == 0 || s.Remaining() == [])
    ensures s.calculatedBlockCRC == Crc(s.crcStep, old(s.calculatedBlockCRC), more)
  {
    hide Rest, EndsAt, RunAt, Crc;
    var before := |s.nextOut|;
    s.availOut := room;
    var corrupt;
    if small { corrupt := s.Small(room); } else { corrupt := s.Fast(room); }
    more := s.nextOut[before..];
  }
}
