/** A value that may be absent: Go's nil pointers. */
module Wrappers {
  datatype Option<+T> = None | Some(value: T)
}
