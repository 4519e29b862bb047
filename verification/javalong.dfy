/** Java's 64-bit `long`, the type of the ticket and performance ids. */
module JavaLong {

  const LONG_MIN: int := -0x8000_0000_0000_0000
  const LONG_MAX: int := 0x7FFF_FFFF_FFFF_FFFF

  /** The range of Java's `long`. */
  type Long = x: int | LONG_MIN <= x <= LONG_MAX
}
