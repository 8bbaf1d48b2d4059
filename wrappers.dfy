/** The optional value used for the transient search highlight (`null` or a row index). */
module Wrappers {
  datatype Option<+T> = None | Some(value: T)
}
