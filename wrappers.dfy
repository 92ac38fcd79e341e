/** Small helper datatypes shared by the shell model. */
module Wrappers {

  /** A value that may be absent: a null pointer or a missing result. */
  datatype Option<+T> = None | Some(value: T)
}
