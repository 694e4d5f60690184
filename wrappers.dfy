/** The optional-value datatype used for the handle id and the recorded overlay. */
module Wrappers {
  datatype Option<+T> = None | Some(value: T)
}
