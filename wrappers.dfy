/** Optional values and results with an error, shared by the other modules. */
module Wrappers {

  /** An optional value; `None` plays the part of a nil slot. */
  datatype Option<+T> = None | Some(value: T)

  /** Errors are carried as their messages and passed on unchanged. */
  type Error = string

  /** A value or the error that prevented it. */
  datatype Result<+T> = Ok(value: T) | Err(error: Error)
}
