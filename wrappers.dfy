/** Option, Result and Outcome datatypes shared by the fileset and gateway models. */
module Wrappers {

  /** An optional value; `None` also stands for Go's `nil` error. */
  datatype Option<+T> = None | Some(value: T)

  /** A value or the error that took its place. */
  datatype Result<+R, +E> = Success(value: R) | Failure(error: E)

  /** An outcome that carries no value on success. */
  datatype Outcome<+E> = Pass | Fail(error: E)
}
