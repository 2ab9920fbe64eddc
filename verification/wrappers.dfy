/** Failure-carrying values shared by every module of the model. */
module Wrappers {

  /** A value that may be absent: how the model writes a Go `(T, error)` pair
      whose error carries no information the caller inspects. */
  datatype Option<+T> = None | Some(value: T)

  /** A value or the error that replaced it: a Go `(T, error)` pair whose
      error kind matters to the caller. */
  datatype Result<+T, +E> = Ok(value: T) | Err(error: E)
}
