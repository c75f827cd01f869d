/** Fixed-width integer types of the Rust and C interfaces, written as ranges of `int`. */
module CTypes {

  /** `u8`, the element type of a byte buffer. */
  type Byte = b: int | 0 <= b < 0x100

  /** `i8`, what `c_char` is on the targets that use the signed `buf_to_string`. */
  type I8 = b: int | -0x80 <= b < 0x80

  type U16 = x: int | 0 <= x < 0x1_0000

  type U32 = x: int | 0 <= x < 0x1_0000_0000

  type U64 = x: int | 0 <= x < 0x1_0000_0000_0000_0000

  /** `c_int` (32 bits on every platform NNG supports). */
  type CInt = x: int | -0x8000_0000 <= x < 0x8000_0000

  /** `usize` on a 64-bit target: the width of the atomic state word. */
  type Usize = x: int | 0 <= x < 0x1_0000_0000_0000_0000
}
