/** The optional value used wherever the Go engine answers "none". */
module Wrappers {
  datatype Option<T> = None | Some(value: T)
}
