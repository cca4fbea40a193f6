/** The usual optional value, used for Go's zero times, nil pointers and absent rows. */
module Wrappers {
  datatype Option<+T> = None | Some(value: T)
}
