/** Option and Result values shared by the relay model. */
module Wrappers {

  /** A value that may be absent (JavaScript `null` / `undefined` returns). */
  datatype Option<+T> = None | Some(value: T)

  /** The outcome of a call into the durable store: a value, or the error it threw. */
  datatype Result<+T> = Success(value: T) | Failure(error: string)
}
