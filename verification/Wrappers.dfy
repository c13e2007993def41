/** The optional value used for the source's nullable columns and fields. */
module Wrappers {
  datatype Option<+T> = None | Some(value: T)
}
