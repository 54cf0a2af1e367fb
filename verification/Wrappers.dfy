/**
 A value that may be missing: a null pointer, or nothing found.
 */
module Wrappers {
  datatype Option<T> = None | Some(value: T)
}
