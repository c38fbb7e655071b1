/** Failure-carrying wrappers used throughout the model, and the byte type. */
module Wrappers {

  /** A u8 of the driver. Bit-vector arithmetic truncates like Rust's u8 shifts. */
  type Byte = bv8

  datatype Option<+T> = None | Some(value: T)

  /** Rust's `Result<T, E>`. */
  datatype Result<+T, +E> = Success(value: T) | Failure(error: E)
}
