/** Four-byte little-endian layout, as a ByteBuffer in ByteOrder.LITTLE_ENDIAN writes
    the low half of a long or the bit pattern of a float. */
module LittleEndian {
  import opened MilvusTypes

  /** The four bytes of the 32-bit word `w`, least significant first. */
  function Le32(w: int): (r: seq<Byte>)
    requires 0 <= w < 0x1_0000_0000
    ensures |r| == 4
  {
    var q1 := w / 0x100;
    var q2 := q1 / 0x100;
    var q3 := q2 / 0x100;
    [w % 0x100, q1 % 0x100, q2 % 0x100, q3]
  }

  /** The 32-bit word whose little-endian bytes are `b`. */
  function FromLe32(b: seq<Byte>): (r: int)
    requires |b| == 4
    ensures 0 <= r < 0x1_0000_0000
  {
    var h2: int := b[2] as int + 0x100 * b[3] as int;
    var h1: int := b[1] as int + 0x100 * h2;
    b[0] as int + 0x100 * h1
  }

  /** Reading back the bytes of a word gives the word. */
  lemma FromLe32OfLe32(w: int)
    requires 0 <= w < 0x1_0000_0000
    ensures FromLe32(Le32(w)) == w
  {
  }

  /** Writing the word read from four bytes gives the bytes back. */
  lemma Le32OfFromLe32(b: seq<Byte>)
    requires |b| == 4
    ensures Le32(FromLe32(b)) == b
  {
    var h2: int := b[2] as int + 0x100 * b[3] as int;
    var h1: int := b[1] as int + 0x100 * h2;
    SplitByte(b[2], b[3]);
    SplitByte(b[1], h2);
    SplitByte(b[0], h1);
  }

  lemma SplitByte(lo: int, hi: int)
    requires 0 <= lo < 0x100
    ensures (lo + 0x100 * hi) / 0x100 == hi
    ensures (lo + 0x100 * hi) % 0x100 == lo
  {
  }
}
