/** The optional value used for C++ pointers that may be null or dangling. */
module Wrappers {
  datatype Option<+T> = None | Some(value: T)
}
