/** Option and Result types shared by every module of the model. */
module Wrappers {

  /** A value that may be absent (`undefined` in the source). */
  datatype Option<+T> = None | Some(value: T)

  /** The outcome of an operation that may throw: either its value, or the
      message of the single `Error` it rethrows from its `catch` block. */
  datatype Result<+T> = Ok(value: T) | Err(message: string)
}
