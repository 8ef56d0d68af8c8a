/** The optional value that stands for a C++ null pointer, `npos` or a failed lookup. */
module Wrappers {
  datatype Option<+T> = None | Some(value: T)
}
