/** The optional-value datatype used throughout the model. */
module Wrappers {

  /** A value that may be absent (PHP's `null` / an unset variable). */
  datatype Option<+T> = None | Some(value: T)
}
