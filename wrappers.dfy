/** The optional result of a lookup: the source returns a line pointer or NULL. */
module Wrappers {
  datatype Option<+T> = None | Some(value: T)
}
