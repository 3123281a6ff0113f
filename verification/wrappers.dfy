/** The optional value and value-or-error result shared by the model. */
module Wrappers {

  /** A value that may be absent, as Swift's `Optional`. */
  datatype Option<+T> = None | Some(value: T)

  /** Either a value or an error, as a Swift function that `throws`. */
  datatype Result<+R, +E> = Success(value: R) | Failure(error: E)
}
