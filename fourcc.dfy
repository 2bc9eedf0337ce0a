/** Pixel-format four-character codes (src/fourcc.rs). */
module Fourcc {
  import opened Sys

  /** A four-character code: four characters packed little-endian into a `u32`. */
  datatype FourCC = FourCC(code: u32) {

    /** `as_u32`: the packed value, as handed to the SDK in `dwFOURCC`. */
    function AsU32(): (v: u32)
      ensures v == code
    {
      code
    }
  }

  /** Rust's `c as u32` on a `char`: its scalar value. */
  function CharBits(c: char): u32
  {
    c as u32
  }

  /** Byte `k` (0 = least significant) of a 32-bit word. */
  function ByteAt(v: u32, k: nat): (b: u32)
    requires k < 4
    ensures b < 256
  {
    match k
    case 0 => v & 0xFF
    case 1 => (v >> 8) & 0xFF
    case 2 => (v >> 16) & 0xFF
    case 3 => (v >> 24) & 0xFF
  }

  /** `FourCC::new(a, b, c, d)`: `a | b << 8 | c << 16 | d << 24` in 32 bits;
      bits shifted past bit 31 are dropped, as Rust's `<<` on `u32` does. */
  function New(a: char, b: char, c: char, d: char): (f: FourCC)
    // whatever the characters, the low byte is exactly the low byte of `a`
    ensures ByteAt(f.code, 0) == ByteAt(CharBits(a), 0)
  {
    FourCC(CharBits(a) | (CharBits(b) << 8) | (CharBits(c) << 16) | (CharBits(d) << 24))
  }

  /** A character that fits in one byte. */
  predicate IsByteChar(c: char) {
    c as int < 256
  }

  /** The byte of a byte-sized character; `as u32` on it widens this byte. */
  lemma ByteCharBits(c: char)
    requires IsByteChar(c)
    ensures (c as int as u8) as int == c as int
    ensures CharBits(c) == (c as int as u8) as u32
  {
  }

  /** For byte-sized characters each of the four bytes of the packed code is
      the corresponding character, so `as_u32` returns them all intact. */
  lemma NewBytes(a: char, b: char, c: char, d: char)
    requires IsByteChar(a) && IsByteChar(b) && IsByteChar(c) && IsByteChar(d)
    ensures ByteAt(New(a, b, c, d).AsU32(), 0) == CharBits(a)
    ensures ByteAt(New(a, b, c, d).AsU32(), 1) == CharBits(b)
    ensures ByteAt(New(a, b, c, d).AsU32(), 2) == CharBits(c)
    ensures ByteAt(New(a, b, c, d).AsU32(), 3) == CharBits(d)
  {
    ByteCharBits(a);
    ByteCharBits(b);
    ByteCharBits(c);
    ByteCharBits(d);
  }

  /** Packing is injective on byte-sized characters. */
  lemma NewInjective(a: char, b: char, c: char, d: char, a': char, b': char, c': char, d': char)
    requires IsByteChar(a) && IsByteChar(b) && IsByteChar(c) && IsByteChar(d)
    requires IsByteChar(a') && IsByteChar(b') && IsByteChar(c') && IsByteChar(d')
    requires New(a, b, c, d) == New(a', b', c', d')
    ensures a == a' && b == b' && c == c' && d == d'
  {
    NewBytes(a, b, c, d);
    NewBytes(a', b', c', d');
    ByteCharBits(a); ByteCharBits(b); ByteCharBits(c); ByteCharBits(d);
    ByteCharBits(a'); ByteCharBits(b'); ByteCharBits(c'); ByteCharBits(d');
  }

  /** The packed-BGR format the capture test uses: 'B','G','R',' ' is 0x20524742. */
  lemma BgrCode()
    ensures New('B', 'G', 'R', ' ').AsU32() == 0x20524742
  {
    assert CharBits('B') == 0x42 && CharBits('G') == 0x47;
    assert CharBits('R') == 0x52 && CharBits(' ') == 0x20;
  }
}
