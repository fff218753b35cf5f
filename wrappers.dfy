/** Option, standing for a value that may be absent (a missing cell, NaN, no result). */
module Wrappers {
  datatype Option<+T> = None | Some(value: T)
}
