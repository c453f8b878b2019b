/** The optional value used wherever the source yields `undefined`. */
module Wrappers {
  datatype Option<+T> = None | Some(value: T)
}
