/** A value that may be absent: a nil pointer, a missing map entry, or a failed parse. */
module Wrappers {
  datatype Option<+T> = None | Some(value: T)
}
