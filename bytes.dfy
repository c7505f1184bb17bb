/** Fixed-width unsigned integers of the C code and little-endian field decoding. */
module Bytes {

  type u8 = x: int | 0 <= x < 0x100
  type u16 = x: int | 0 <= x < 0x1_0000
  type u32 = x: int | 0 <= x < 0x1_0000_0000

  /** 2^32: `unsigned int` arithmetic wraps modulo this value. */
  const U32_MODULUS: int := 0x1_0000_0000
  /** 2^64: `size_t` arithmetic wraps modulo this value. */
  const SIZE_MODULUS: int := 0x1_0000_0000_0000_0000

  /** Little-endian 16-bit field starting at byte `at` of `b`. */
  function LE16(b: seq<u8>, at: nat): u16
    requires at + 2 <= |b|
  {
    b[at] as int + b[at + 1] as int * 0x100
  }

  /** The low byte of a decoded 16-bit field is byte `at`, the high byte is byte `at + 1`. */
  lemma LE16Bytes(b: seq<u8>, at: nat)
    requires at + 2 <= |b|
    ensures LE16(b, at) % 0x100 == b[at] && LE16(b, at) / 0x100 == b[at + 1]
  {
  }

  /** Little-endian 32-bit field starting at byte `at` of `b`. */
  function LE32(b: seq<u8>, at: nat): u32
    requires at + 4 <= |b|
  {
    LE16(b, at) as int + LE16(b, at + 2) as int * 0x1_0000
  }

  /** A 32-bit field is two consecutive 16-bit fields, low half first. */
  lemma LE32Halves(b: seq<u8>, at: nat)
    requires at + 4 <= |b|
    ensures LE32(b, at) % 0x1_0000 == LE16(b, at) && LE32(b, at) / 0x1_0000 == LE16(b, at + 2)
  {
  }
}
