/** Results that may be missing, and calls that may panic. */
module Wrappers {
  datatype Option<T> = None | Some(value: T)

  /** A panic ends the process; looking up a hash that is not stored is one. */
  datatype Result<T> = Ok(value: T) | Panic
}
