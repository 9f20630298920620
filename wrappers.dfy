/** The optional value that stands for a pointer result which may be null. */
module Wrappers {
  datatype Option<T> = None | Some(value: T)
}
