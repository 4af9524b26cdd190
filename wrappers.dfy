/** Option and Result, the two failure-carrying types the Rust code returns
    (`Option<&dyn Error>` from `source()`, `Result<(), SoloudError>` from the
    filter setters), plus the fixed-width integers that cross the native
    boundary. */
module Wrappers {

  datatype Option<+T> = None | Some(value: T)

  datatype Result<+T, +E> = Ok(value: T) | Err(error: E)

  /** Rust's `i32`: the width of native status codes and of `#[repr(i32)]` enums. */
  newtype i32 = x: int | -0x8000_0000 <= x < 0x8000_0000

  /** Rust's `u32`: the width of `#[repr(u32)]` enums and of filter attribute codes. */
  newtype u32 = x: int | 0 <= x < 0x1_0000_0000
}
