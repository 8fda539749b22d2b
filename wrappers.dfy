/** A value that may be absent: Python's `None`, or a chart function that
    draws nothing. */
module Wrappers {
  datatype Option<T> = None | Some(value: T)
}
