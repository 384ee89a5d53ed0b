/** The optional value used wherever the source returns a possibly nil pointer. */
module Wrappers {
  datatype Option<+T> = None | Some(value: T)
}
