/** The Option and Result types used across the model. */
module Wrappers {

  /** A value that may be absent: JavaScript's `undefined`/`null` on one side, a value on the other. */
  datatype Option<+T> = None | Some(value: T)

  /** The outcome of a request handler: the payload it sends, or the message it reports. */
  datatype Result<+R, +E> = Success(value: R) | Failure(error: E)
}
