/**
 * Machine-width integers, bytes and the failure-compatible wrappers the rest
 * of the model shares.
 */
module Common {

  /** C++ `uint32_t`. */
  type uint32 = x: int | 0 <= x < 0x1_0000_0000

  /** C++ `uint64_t`. */
  type uint64 = x: int | 0 <= x < 0x1_0000_0000_0000_0000

  /** `std::numeric_limits<uint32_t>::max()`. */
  const UINT32_MAX: uint32 := 0xFFFF_FFFF

  type byte = bv8

  datatype Option<+T> = None | Some(value: T)

  /** Construction failures are thrown exceptions in the source; here they are `Err` values. */
  datatype Result<+T, +E> = Ok(value: T) | Err(error: E)
}
