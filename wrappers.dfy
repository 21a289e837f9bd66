/** Optional values and pass/fail outcomes shared by the modules of this model. */
module Wrappers {

  /** Ruby's `nil` or a value. */
  datatype Option<+T> = None | Some(value: T)

  /** Normal return, or an exception carrying `error`. */
  datatype Outcome<+E> = Pass | Fail(error: E)

  /** A value returned normally, or an exception carrying `error`. */
  datatype Result<+T, +E> = Ok(value: T) | Err(error: E)
}
