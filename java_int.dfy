/** Java's fixed-width integer types, as far as the experiment uses them. */
module JavaInt {

  const INT_MIN: int := -0x8000_0000
  const INT_MAX: int := 0x7fff_ffff
  const LONG_MIN: int := -0x8000_0000_0000_0000
  const LONG_MAX: int := 0x7fff_ffff_ffff_ffff

  /** v fits in a Java `int` */
  predicate IsInt(v: int) {
    INT_MIN <= v <= INT_MAX
  }

  /** v fits in a Java `long` */
  predicate IsLong(v: int) {
    LONG_MIN <= v <= LONG_MAX
  }

  /** The `int` that Java's 32-bit arithmetic yields for the exact result v:
      v reduced modulo 2^32 into the range of `int`. */
  function WrapInt(v: int): (r: int)
    ensures IsInt(r)
    ensures (v - r) % 0x1_0000_0000 == 0
    ensures IsInt(v) ==> r == v
  {
    (v - INT_MIN) % 0x1_0000_0000 + INT_MIN
  }
}
