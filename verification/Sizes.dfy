/** The width of the program's sizes. */
module Sizes {
  const SIZE_MAX: int := 0xFFFF_FFFF_FFFF_FFFF  // of a 64-bit size_t
}
