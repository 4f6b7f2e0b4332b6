/** Option datatype used for values that may be absent (a missing key, an unset preference). */
module Wrappers {
  datatype Option<+T> = None | Some(value: T)
}
