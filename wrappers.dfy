/** Option, for values the source leaves unset (Python's None) and for computations that raise. */
module Wrappers {
  datatype Option<+T> = None | Some(value: T)
}
