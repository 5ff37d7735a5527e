/** Values that the C code represents by a possibly-NULL pointer. */
module Wrappers {
  datatype Option<+T> = None | Some(value: T)
}
