/** Option and Result values shared by the inventory model. */
module Wrappers {

  datatype Option<+T> = None | Some(value: T)

  /** The outcome of an operation that may fail with a caller-facing message. */
  datatype Result<+T> = Ok(value: T) | Err(message: string)

  /** A failure-or-success outcome that carries no value. */
  datatype Outcome = Pass | Fail(message: string)
}
