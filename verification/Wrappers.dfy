/** The optional value used throughout the project in place of a Go nil or a missing Redis reply. */
module Wrappers {
  datatype Option<+T> = None | Some(value: T)
}
