/** Option and Result: the optional values and thrown errors of the Swift source. */
module Wrappers {

  /** A Swift optional: `nil` is `None`. */
  datatype Option<+T> = None | Some(value: T)

  /** A Swift `Result`, or the outcome of a `throws` function. */
  datatype Result<+R, +E> = Success(value: R) | Failure(error: E)
}
