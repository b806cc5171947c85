/** A value that may be absent: SQL NULL, a missing row, a failed lookup. */
module Wrappers {
  datatype Option<T> = None | Some(value: T)
}
