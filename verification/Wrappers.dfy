/** A value that may be absent: Go's nil results and second boolean results. */
module Wrappers {
  datatype Option<+T> = None | Some(value: T)
}
