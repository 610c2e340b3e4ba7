/** Option and Result, the two failure-carrying wrappers the model uses. */
module Wrappers {

  /** An optional argument (`None` stands for an argument left at its default). */
  datatype Option<+T> = None | Some(value: T)

  /** The outcome of an operation that either returns a value or raises an error. */
  datatype Result<+T, +E> = Ok(value: T) | Err(error: E)
}
