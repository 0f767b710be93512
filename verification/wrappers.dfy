/** Option and Result, the two failure-carrying datatypes the model uses for
    JavaScript's `undefined` and for a render that throws. */
module Wrappers {

  /** A value that may be absent (`undefined` in the source). */
  datatype Option<+T> = None | Some(value: T)

  /** The outcome of a computation that either yields a value or throws. */
  datatype Result<+R, +E> = Success(value: R) | Failure(error: E)
}
