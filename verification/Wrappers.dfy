/** Values that may be missing. */
module Wrappers {
  datatype Option<+T> = None | Some(value: T)

  /** A value, or an exception. */
  datatype Result<+T> = Ok(value: T) | Raised
}
