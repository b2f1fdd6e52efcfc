/** Shared vocabulary. */
module Basics {
  /** A value that may be missing, as the source's `None`. */
  datatype Option<+T> = None | Some(value: T)
}
