module Wrappers {
  /** A value that may be missing: a null pointer, an absent file, a failed parse. */
  datatype Option<+T> = None | Some(value: T)
}
