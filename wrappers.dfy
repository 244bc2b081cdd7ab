/** Option and Result, the two failure-carrying shapes the model uses. */
module Wrappers {

  /** A value that may be absent: JavaScript's `undefined` for an optional property. */
  datatype Option<+T> = None | Some(value: T)

  /** The outcome of an operation that may reject: a value, or the cause of the failure. */
  datatype Result<+T> = Success(value: T) | Failure(error: string)
}
