/** Small shared vocabulary: optional values, results with an error, absolute value. */
module Util {

  /** A value that may be missing; Python's `None` stands for `None` here. */
  datatype Option<+T> = None | Some(value: T)

  /** The outcome of an operation that raises on invalid use. */
  datatype Result<+T, +E> = Ok(value: T) | Err(error: E)

  function Abs(x: int): nat {
    if x < 0 then -x else x
  }

  function Max(a: int, b: int): int {
    if a < b then b else a
  }

  function Sign(x: int): int {
    if x > 0 then 1 else if x < 0 then -1 else 0
  }
}
