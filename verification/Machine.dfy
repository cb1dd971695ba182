/** The integer widths, casts and saturating operations the firmware relies on. */
module Machine {

  type u8 = x: int | 0 <= x < 0x100
  type i8 = x: int | -0x80 <= x < 0x80
  type u16 = x: int | 0 <= x < 0x1_0000
  type u32 = x: int | 0 <= x < 0x1_0000_0000

  const U32_MAX: u32 := 0xFFFF_FFFF

  /** The largest instant of the 64-bit clock; the delay queue uses it as a sentinel. */
  const INSTANT_MAX: nat := 0xFFFF_FFFF_FFFF_FFFF

  datatype Option<+T> = None | Some(value: T)

  /** `as u32` from a wider integer, and `+=` on a 32-bit counter in a release build. */
  function Wrap32(x: int): u32 {
    x % 0x1_0000_0000
  }

  function SaturatingAdd(a: u32, b: u32): u32 {
    if a + b > U32_MAX then U32_MAX else a + b
  }

  function SaturatingSub(a: u32, b: u32): u32 {
    if a < b then 0 else a - b
  }

  /** `as u32` from a float: drops the fraction and saturates at both ends. */
  function RealToU32(r: real): u32 {
    if r <= 0.0 then 0
    else if r >= 4294967295.0 then U32_MAX
    else r.Floor
  }

  function Min(a: int, b: int): int {
    if a < b then a else b
  }

  function Max(a: int, b: int): int {
    if a < b then b else a
  }

  /** `slice.copy_from_slice` into the part of `dest` that starts at `at`. */
  method CopyFromSlice(dest: array<u8>, at: nat, src: seq<u8>)
    requires at + |src| <= dest.Length
    modifies dest
    ensures dest[..] == old(dest[..at]) + src + old(dest[at + |src|..])
  {
    forall k | 0 <= k < |src| {
      dest[at + k] := src[k];
    }
  }
}
