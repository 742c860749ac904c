/** Value types shared by the model: optional values and the fixed-width
    integers of the block's fields, written as subset types of `int` so that every
    overflow the code can hit has to be handled explicitly. */
module Types {

  datatype Option<T> = None | Some(value: T)

  const U32_MAX: int := 0xFFFF_FFFF
  const U64_MAX: int := 0xFFFF_FFFF_FFFF_FFFF
  /** 2^64, the number of values of a `u64`. */
  const WORD: int := U64_MAX + 1
  /** `isize::MAX` on a 64-bit host. */
  const ISIZE_MAX: int := 0x7FFF_FFFF_FFFF_FFFF

  type u8 = x: int | 0 <= x <= 0xFF
  type u32 = x: int | 0 <= x <= U32_MAX
  type u64 = x: int | 0 <= x <= U64_MAX

  /** A host address: raw pointers are modelled as integers. */
  type Address = int
}
