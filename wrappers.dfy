/** The optional value that a case path's `extract` returns. */
module Wrappers {
  datatype Option<+T> = None | Some(value: T)
}
