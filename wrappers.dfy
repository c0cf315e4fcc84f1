/** Failure-carrying datatypes used throughout the model. */
module Wrappers {

  datatype Option<+T> = None | Some(value: T)

  /** The outcome of an operation that Ruby would abort with an exception. */
  datatype Result<+T, +E> = Ok(value: T) | Err(error: E)
}
