/**
  Failure-compatible wrappers shared by every module of the model.
  `Option` stands for a Java reference that may be null; `Result` for a
  value-or-error outcome where the Java code shows a dialog and returns.
 */
module Wrappers {

  datatype Option<+T> = None | Some(value: T)

  datatype Result<+T, +E> = Ok(value: T) | Err(error: E)
}
