/** An optional value: Python's `None` or an actual result. */
module Wrappers {
  datatype Option<+T> = None | Some(value: T)
}
