/** The run-length code in front of the block sorter: four equal bytes are followed by a byte
    that says how many more there are. Decode is the reference the compressor's and the
    decompressor's state machines are proved against. */
module RunLength {

  type Byte = b: int | 0 <= b < 256

  /** What has been decoded, and how many times in a row the last byte has been seen since the
      start, or since the last count. */
  datatype Decoder = Decoder(out: seq<Byte>, run: nat, last: int)

  /** n copies of ch. */
  function Rep(ch: Byte, n: nat): (r: seq<Byte>)
    ensures |r| == n && forall i :: 0 <= i < n ==> r[i] == ch
  {
    seq(n, _ => ch)
  }

  function Step(d: Decoder, x: Byte): Decoder {
    if d.run == 4 then
      Decoder(if 0 <= d.last < 256 then d.out + Rep(d.last, x) else d.out, 0, d.last)
    else
      Decoder(d.out + [x], if d.run > 0 && x == d.last then d.run + 1 else 1, x)
  }

  function Decode(b: seq<Byte>): (d: Decoder)
    ensures d.run <= 4 && (d.run > 0 ==> 0 <= d.last < 256)
  {
    if b == [] then Decoder([], 0, 256) else Step(Decode(b[..|b|-1]), b[|b|-1])
  }

  /** A block is complete when no count byte is missing at its end. */
  predicate Complete(b: seq<Byte>) {
    Decode(b).run < 4
  }

  /** The code of len copies of ch. */
  function PairBytes(ch: Byte, len: nat): seq<Byte>
    requires 1 <= len <= 259
  {
    if len < 4 then Rep(ch, len) else Rep(ch, 4) + [len - 4]
  }

  lemma DecodeSnoc(b: seq<Byte>, x: Byte)
    ensures Decode(b + [x]) == Step(Decode(b), x)
  {
    assert (b + [x])[..|b|] == b;
  }

  lemma RepSnoc(ch: Byte, n: nat)
    ensures Rep(ch, n + 1) == Rep(ch, n) + [ch]
  {
  }

  lemma RepAppend(ch: Byte, m: nat, n: nat)
    ensures Rep(ch, m) + Rep(ch, n) == Rep(ch, m + n)
  {
  }

  /** Up to four equal bytes after something else. */
  lemma {:induction false} DecodeRun(b: seq<Byte>, ch: Byte, n: nat)
    requires Complete(b) && (Decode(b).run == 0 || Decode(b).last != ch) && 1 <= n <= 4
    ensures Decode(b + Rep(ch, n)) == Decoder(Decode(b).out + Rep(ch, n), n, ch)
  {
    if n == 1 {
      assert Rep(ch, 1) == [ch];
      DecodeSnoc(b, ch);
    } else {
      DecodeRun(b, ch, n - 1);
      RepSnoc(ch, n - 1);
      assert b + Rep(ch, n) == (b + Rep(ch, n - 1)) + [ch];
      DecodeSnoc(b + Rep(ch, n - 1), ch);
      assert Decode(b).out + Rep(ch, n) == (Decode(b).out + Rep(ch, n - 1)) + [ch];
    }
  }

  /** The code of a run decodes to the run, behind whatever comes before it. */
  lemma DecodePair(b: seq<Byte>, ch: Byte, len: nat)
    requires Complete(b) && (Decode(b).run == 0 || Decode(b).last != ch) && 1 <= len <= 259
    ensures Decode(b + PairBytes(ch, len)) == Decoder(Decode(b).out + Rep(ch, len), if len < 4 then len else 0, ch)
  {
    if len < 4 {
      DecodeRun(b, ch, len);
    } else {
      DecodeRun(b, ch, 4);
      assert b + PairBytes(ch, len) == (b + Rep(ch, 4)) + [len - 4];
      DecodeSnoc(b + Rep(ch, 4), len - 4);
      RepAppend(ch, 4, len - 4);
      assert Decode(b).out + Rep(ch, len) == (Decode(b).out + Rep(ch, 4)) + Rep(ch, len - 4);
    }
  }

  // ----- checksums, for any step function -----

  const CRC_START: bv32 := 0xffffffff

  function Crc(step: (bv32, Byte) -> bv32, from: bv32, s: seq<Byte>): bv32 {
    if s == [] then from else step(Crc(step, from, s[..|s|-1]), s[|s|-1])
  }

  lemma {:induction false} CrcAppend(step: (bv32, Byte) -> bv32, from: bv32, s: seq<Byte>, t: seq<Byte>)
    ensures Crc(step, from, s + t) == Crc(step, Crc(step, from, s), t)
  {
    if t == [] {
      assert s + t == s;
    } else {
      CrcAppend(step, from, s, t[..|t|-1]);
      assert (s + t)[..|s + t|-1] == s + t[..|t|-1];
    }
  }
}
