/** The fixed-width unsigned integers of the source, as ranges of `int`. */
module RustInts {
  type u8 = x: int | 0 <= x < 0x100
  type u32 = x: int | 0 <= x < 0x1_0000_0000
}
