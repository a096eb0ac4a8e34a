/** A value that may be missing: a null pointer, or a result where there is none. */
module Wrappers {
  datatype Option<+T> = None | Some(value: T)
}
