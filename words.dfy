/** The C integer types of an LP64 Linux build, and the wrap-around the program relies on. */
module Words {

  const TWO_32: int := 0x1_0000_0000
  const TWO_64: int := 0x1_0000_0000_0000_0000

  /** `unsigned int` */
  newtype uint32 = x: int | 0 <= x < 0x1_0000_0000

  /** `unsigned long` and `unsigned long long` */
  newtype uint64 = x: int | 0 <= x < 0x1_0000_0000_0000_0000

  /** Unsigned 64-bit subtraction `a - b`, which wraps modulo 2^64. */
  function Sub64(a: uint64, b: uint64): (d: uint64)
    ensures b <= a ==> d as int == a as int - b as int
    ensures a < b ==> d as int == TWO_64 + a as int - b as int
  {
    ((a as int - b as int) % TWO_64) as uint64
  }

  /**
   * Conversion of an integral `double` to `unsigned long`. C leaves an out-of-range
   * value undefined; the model takes the value modulo 2^64, which is what x86-64
   * produces for a small negative value.
   */
  function ToULong(x: int): (r: uint64)
    ensures 0 <= x < TWO_64 ==> r as int == x
  {
    (x % TWO_64) as uint64
  }
}
