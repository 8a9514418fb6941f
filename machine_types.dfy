/** The fixed-width integer types of the target, as integer ranges. */
module MachineTypes {

  /** `u8`: one byte of memory. */
  type byte = b: int | 0 <= b < 0x100

  /** `u32`: a header field, a tag or a property length. */
  type u32 = w: int | 0 <= w < 0x1_0000_0000

  const WORD_MODULUS: int := 0x1_0000_0000
}
