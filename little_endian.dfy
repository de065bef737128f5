/**
 * The VM's multi-byte operands: a 32-bit unsigned value stored in four
 * consecutive bytes, least significant first, with no alignment
 * requirement.  The C code assembles it as `b0 | b1 << 8 | b2 << 16 |
 * b3 << 24`; the four shifted bytes occupy disjoint bits, so the OR is
 * their sum (ReadU32IsOr).
 */
module LittleEndian {
  import opened Decoder

  const Two32: int := 0x1_0000_0000

  /** An `unsigned int` value. */
  type Word = w: int | 0 <= w < Two32

  /** The word stored at `mem[p..p+4]`; ReadU32Bytes says which bytes
      it is made of. */
  function ReadU32(mem: seq<Byte>, p: nat): (w: Word)
    requires p + 4 <= |mem|
  {
    mem[p] as int + 0x100 * mem[p + 1] as int + 0x1_0000 * mem[p + 2] as int
      + 0x100_0000 * mem[p + 3] as int
  }

  /** The base-256 digits of the word read at `p` are the four bytes there,
      least significant first. */
  lemma ReadU32Bytes(mem: seq<Byte>, p: nat)
    requires p + 4 <= |mem|
    ensures var w := ReadU32(mem, p);
      && w % 0x100 == mem[p]
      && w / 0x100 % 0x100 == mem[p + 1]
      && w / 0x1_0000 % 0x100 == mem[p + 2]
      && w / 0x100_0000 == mem[p + 3]
  {
    ByteDigits(mem[p], mem[p + 1], mem[p + 2], mem[p + 3]);
  }

  /** The four bytes, least significant first, that store `w`. */
  function EncodeU32(w: Word): (bytes: seq<Byte>)
    ensures |bytes| == 4
    ensures bytes[0] as int + 0x100 * bytes[1] as int + 0x1_0000 * bytes[2] as int
            + 0x100_0000 * bytes[3] as int == w
  {
    WordDigits(w);
    [w % 0x100, w / 0x100 % 0x100, w / 0x1_0000 % 0x100, w / 0x100_0000]
  }

  /** Reading back what EncodeU32 stored gives the word. */
  lemma ReadEncodeU32(w: Word, mem: seq<Byte>, p: nat)
    requires p + 4 <= |mem|
    requires mem[p..p + 4] == EncodeU32(w)
    ensures ReadU32(mem, p) == w
  {
    var e := EncodeU32(w);
    assert mem[p] == e[0] && mem[p + 1] == e[1] && mem[p + 2] == e[2] && mem[p + 3] == e[3];
  }

  /** Encoding the word read at `p` gives back the four bytes there. */
  lemma EncodeReadU32(mem: seq<Byte>, p: nat)
    requires p + 4 <= |mem|
    ensures EncodeU32(ReadU32(mem, p)) == mem[p..p + 4]
  {
    ReadU32Bytes(mem, p);
    var e := EncodeU32(ReadU32(mem, p));
    assert e == [mem[p], mem[p + 1], mem[p + 2], mem[p + 3]];
  }

  /** ReadU32 is the C expression `b0 | b1 << 8 | b2 << 16 | b3 << 24` on
      the bits of the four bytes at `p`. */
  lemma ReadU32IsOr(mem: seq<Byte>, p: nat, b0: bv8, b1: bv8, b2: bv8, b3: bv8)
    requires p + 4 <= |mem|
    requires mem[p] == b0 as int && mem[p + 1] == b1 as int
    requires mem[p + 2] == b2 as int && mem[p + 3] == b3 as int
    ensures ReadU32(mem, p) ==
      ((b0 as bv32) | ((b1 as bv32) << 8) | ((b2 as bv32) << 16) | ((b3 as bv32) << 24)) as int
  {
    var w0, w1, w2, w3 := b0 as bv32, b1 as bv32, b2 as bv32, b3 as bv32;
    var y1 := w0 | (w1 << 8);
    var y2 := y1 | (w2 << 16);
    OrByte8(w0, w1);
    assert y1 < 0x1_0000;
    OrByte16(y1, w2);
    assert y2 < 0x100_0000;
    OrByte24(y2, w3);
  }

  /** Or-ing a byte in above the 8 low bits of `y` adds it times 2^8. */
  lemma OrByte8(y: bv32, b: bv32)
    requires y < 0x100 && b < 0x100
    ensures (y | (b << 8)) as int == y as int + 0x100 * b as int
  {
  }

  /** Or-ing a byte in above the 16 low bits of `y` adds it times 2^16. */
  lemma OrByte16(y: bv32, b: bv32)
    requires y < 0x1_0000 && b < 0x100
    ensures (y | (b << 16)) as int == y as int + 0x1_0000 * b as int
  {
  }

  /** Or-ing a byte in above the 24 low bits of `y` adds it times 2^24. */
  lemma OrByte24(y: bv32, b: bv32)
    requires y < 0x100_0000 && b < 0x100
    ensures (y | (b << 24)) as int == y as int + 0x100_0000 * b as int
  {
  }

  // Base-256 digit arithmetic used by the two functions above.

  lemma ByteDigits(b0: Byte, b1: Byte, b2: Byte, b3: Byte)
    ensures var w := b0 as int + 0x100 * b1 as int + 0x1_0000 * b2 as int + 0x100_0000 * b3 as int;
      && 0 <= w < Two32
      && w % 0x100 == b0
      && w / 0x100 % 0x100 == b1
      && w / 0x1_0000 % 0x100 == b2
      && w / 0x100_0000 == b3
  {
    var w := b0 as int + 0x100 * b1 as int + 0x1_0000 * b2 as int + 0x100_0000 * b3 as int;
    assert w / 0x100 == b1 as int + 0x100 * b2 as int + 0x1_0000 * b3 as int;
    assert w / 0x1_0000 == b2 as int + 0x100 * b3 as int;
  }

  lemma WordDigits(w: Word)
    ensures w / 0x100_0000 < 0x100
    ensures w % 0x100 + 0x100 * (w / 0x100 % 0x100) + 0x1_0000 * (w / 0x1_0000 % 0x100)
            + 0x100_0000 * (w / 0x100_0000) == w
  {
    var q0 := w / 0x100;
    var q1 := q0 / 0x100;
    var q2 := q1 / 0x100;
    assert w == w % 0x100 + 0x100 * q0;
    assert q0 == q0 % 0x100 + 0x100 * q1;
    assert q1 == q1 % 0x100 + 0x100 * q2;
    assert w / 0x1_0000 == q1;
    assert w / 0x100_0000 == q2;
  }
}
