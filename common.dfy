/** Machine integer widths and the Option type shared by every component. */
module Common {

  /** Rust `u8`. */
  type u8 = x: int | 0 <= x < 0x100

  /** Rust `u16`: the width of a CSI/DCS parameter value. */
  type u16 = x: int | 0 <= x < 0x1_0000

  const U16_MAX: int := 0xFFFF

  /** Rust `usize` on a 64-bit target. */
  const USIZE_MAX: int := 0xFFFF_FFFF_FFFF_FFFF

  type usize = x: int | 0 <= x <= USIZE_MAX

  datatype Option<+T> = None | Some(value: T)

  /** `u16::saturating_mul`. */
  function SaturatingMulU16(a: u16, b: u16): u16
  {
    if a * b > U16_MAX then U16_MAX else a * b
  }

  /** `u16::saturating_add`. */
  function SaturatingAddU16(a: u16, b: u16): u16
  {
    if a + b > U16_MAX then U16_MAX else a + b
  }

  /** `usize::saturating_add`. */
  function SaturatingAddUsize(a: usize, b: usize): usize
  {
    if a + b > USIZE_MAX then USIZE_MAX else a + b
  }

  /** `usize::saturating_sub`. */
  function SaturatingSubUsize(a: usize, b: usize): usize
  {
    if a < b then 0 else a - b
  }

  /** `char::REPLACEMENT_CHARACTER`, U+FFFD. */
  const REPLACEMENT_CHARACTER: char := '\U{FFFD}'

  /** `byte as char`: the code point with the byte's value (Latin-1). */
  function ByteChar(b: u8): char
  {
    b as char
  }

  /** The empty sequence is a unit of concatenation on either side. */
  lemma AppendEmpty<T>(s: seq<T>)
    ensures s + [] == s && [] + s == s
  {
  }
}
