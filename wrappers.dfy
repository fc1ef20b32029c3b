/** Option and Result, the failure-carrying types the rest of the model uses. */
module Wrappers {

  datatype Option<+T> = None | Some(value: T)

  /** The outcome of a computation that may fail; a JavaScript exception becomes `Err`. */
  datatype Result<+T, +E> = Ok(value: T) | Err(error: E)

  /** The outcome of a step that changes state in place and may fail. */
  datatype Outcome<+E> = Pass | Fail(error: E)
}
