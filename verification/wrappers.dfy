/** Failure-compatible return types standing in for the exceptions and `out` parameters of the
    C# API. */
module Wrappers {

  /** A value that may be missing; stands for a `bool TryX(..., out T value)` pair. */
  datatype Option<+T> = None | Some(value: T)

  /** A successful value or an error; stands for a method that returns or throws. */
  datatype Result<+R, +E> = Success(value: R) | Failure(error: E)
}
