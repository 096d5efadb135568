/** Shared vocabulary: the fixed-width unsigned integers the GPU layout and
    the D3D12 records use, Rust's truncating `as u32` cast, and the usual
    Option and Result datatypes. */
module Common {

  const U32_LIMIT: nat := 0x1_0000_0000

  /** A Rust `u32`. */
  type u32 = x: nat | x < U32_LIMIT

  /** A Rust `u8`. */
  type u8 = x: nat | x < 0x100

  /** `u32::MAX`, written `!0` in the source. */
  const U32_MAX: u32 := 0xFFFF_FFFF

  /** Rust's `n as u32` on an unsigned source value: keep the low 32 bits. */
  function AsU32(n: nat): (r: u32)
    ensures n < U32_LIMIT ==> r == n
    ensures n >= U32_LIMIT ==> r < n
  {
    n % U32_LIMIT
  }

  datatype Option<+T> = None | Some(value: T)

  datatype Result<+R, +E> = Success(value: R) | Failure(error: E)
}
