/** The optional value used for Python's `x: T = None` arguments and fields. */
module Wrappers {
  datatype Option<+T> = None | Some(value: T)
}
