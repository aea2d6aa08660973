/**
 * Fixed-width unsigned integers and the little-endian u16 layout used by the
 * block format: `put_u16_le` on the writing side, `u16::from_le_bytes` on
 * the reading side, and the truncating `as u8` / `as u16` casts.
 */
module Bytes {

  newtype u8 = x: int | 0 <= x < 0x100
  newtype u16 = x: int | 0 <= x < 0x1_0000

  /** A Rust `n as u8` cast: keeps the low 8 bits of `n`. */
  function TruncU8(n: nat): (r: u8)
    ensures n < 0x100 ==> r as int == n
  {
    (n % 0x100) as u8
  }

  /** A Rust `n as u16` cast: keeps the low 16 bits of `n`. */
  function TruncU16(n: nat): (r: u16)
    ensures n < 0x1_0000 ==> r as int == n
  {
    (n % 0x1_0000) as u16
  }

  /** `u16::from_le_bytes([lo, hi])`. */
  function FromLE16(lo: u8, hi: u8): u16
  {
    (lo as int + 0x100 * hi as int) as u16
  }

  /** The two bytes `put_u16_le(x)` appends: low byte first. */
  function LE16(x: u16): (r: seq<u8>)
    ensures |r| == 2
    ensures FromLE16(r[0], r[1]) == x
  {
    [(x % 0x100) as u8, (x / 0x100) as u8]
  }

  /** The little-endian u16 stored at positions `pos` and `pos + 1` of `s`. */
  function ReadU16(s: seq<u8>, pos: int): u16
    requires 0 <= pos && pos + 1 < |s|
  {
    FromLE16(s[pos], s[pos + 1])
  }
}
