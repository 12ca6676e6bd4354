/** A value that may be missing, as Python's `None` or a search without a result. */
module Wrappers {
  datatype Option<T> = None | Some(value: T)
}
