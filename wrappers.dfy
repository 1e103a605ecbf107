/** Option and Result, shared by the front-end and back-end modules. */
module Wrappers {

  datatype Option<+T> = None | Some(value: T)

  /** The outcome of a step that may raise: Ok with a value, or Err with the exception's text. */
  datatype Result<+T, +E> = Ok(value: T) | Err(error: E)
}
