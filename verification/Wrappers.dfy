/** The Some/None datatype used where the source has a nil-able value. */
module Wrappers {
  datatype Option<+T> = None | Some(value: T)
}
