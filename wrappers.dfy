/** The optional value used across the model for C++ null pointers and Python `None`. */
module Wrappers {
  datatype Option<T> = None | Some(value: T)
}
