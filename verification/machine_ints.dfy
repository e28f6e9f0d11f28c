/** The fixed-width integer types of the C++ source, as subset types of `int`,
    and the conversions between them that matter to the model. */
module MachineInts {

  const U64_LIMIT: int := 0x1_0000_0000_0000_0000

  /** `uint64_t` and `std::size_t` (64-bit platform). */
  type U64 = x: int | 0 <= x < U64_LIMIT

  /** `int` (32-bit). */
  type Int32 = x: int | -0x8000_0000 <= x < 0x8000_0000

  /** The implicit conversion of an `int` to `std::size_t`: reduction modulo 2^64,
      so -1 becomes the largest `size_t`. */
  function ToSize(n: Int32): (r: U64)
    ensures n >= 0 ==> r == n
    ensures n < 0 ==> r == U64_LIMIT + n
  {
    n % U64_LIMIT
  }
}
