/** Option and Result values used where the source returns `Option`, `Result` or panics. */
module Wrappers {
  datatype Option<T> = None | Some(value: T)

  datatype Result<T, E> = Ok(value: T) | Err(error: E)

  /**
   * Why a Rust operation panics: `unreachable!`, `unwrap` on `None`, `unwrap` on an `Err`,
   * an index out of range, a failed `assert!`, or a `usize` subtraction below zero (checked
   * in debug builds).
   */
  datatype Panic = Unreachable | UnwrapNone | UnwrapErr | IndexOutOfBounds | AssertionFailed | SubtractOverflow

  /**
   * How a loop run for at most a given number of iterations ends: with the value the
   * source's function returns, out of iterations, or in a panic.
   */
  datatype Ending<T> = Returns(value: T) | OutOfFuel | Panics(panic: Panic)
}
