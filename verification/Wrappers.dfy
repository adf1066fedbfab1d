/** A value that may be absent: the model of a possibly null pointer or a failed lookup. */
module Wrappers {
  datatype Option<+T> = None | Some(value: T)
}
