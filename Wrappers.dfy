/** Failure-carrying values used wherever the source throws or may find nothing. */
module Wrappers {

  /** A value that may be absent: a missing request field, a URL that does not parse. */
  datatype Option<+T> = None | Some(value: T)

  /** The outcome of a call that can throw: the value, or the message of the thrown Error. */
  datatype Result<+T, +E> = Success(value: T) | Failure(error: E)
}
