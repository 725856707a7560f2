/** The optional value used for "a radio button may be checked" and "the walk may not stop". */
module Wrappers {
  datatype Option<+T> = None | Some(value: T)
}
