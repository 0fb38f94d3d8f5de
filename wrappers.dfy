/** Failure-carrying values standing for the Java exceptions of the model. */
module Wrappers {

  datatype Option<T> = None | Some(value: T)

  /** A value, or the exception that was thrown instead. */
  datatype Result<T, E> = Ok(value: T) | Err(error: E)

  /** A `void` call that either returns normally or throws. */
  datatype Outcome<E> = Pass | Fail(error: E)
}
