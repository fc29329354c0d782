/** An optional value shared by the other modules. */
module Wrappers {

  /** A value that may be absent: the result of a partial operation such as `JSON.parse`. */
  datatype Option<+T> = None | Some(value: T)
}
