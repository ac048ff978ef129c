/**
 Bytes and the fixed-width integers that the endpoint layer reads out of byte buffers.
 */
module Bytes {

  type byte = b: int | 0 <= b < 256

  /** The largest value of a 32-bit unsigned integer; several limits use it as "unlimited". */
  const UINT32_MAX: nat := 0xFFFF_FFFF

  /** Reads a big-endian 16-bit integer at offset `at`. */
  function ReadUint16BE(s: seq<byte>, at: nat): (r: nat)
    requires at + 2 <= |s|
    ensures r < 0x1_0000
  {
    s[at] as int * 256 + s[at + 1] as int
  }

  /** Reads a little-endian 32-bit integer at offset `at`. */
  function ReadUint32LE(s: seq<byte>, at: nat): (r: nat)
    requires at + 4 <= |s|
    ensures r <= UINT32_MAX
  {
    s[at] as int + 0x100 * s[at + 1] as int + 0x1_0000 * s[at + 2] as int + 0x100_0000 * s[at + 3] as int
  }

  function Max(a: int, b: int): int {
    if a >= b then a else b
  }

  function Min(a: int, b: int): int {
    if a <= b then a else b
  }
}
