/** The optional value used for matrices that may be empty. */
module Wrappers {

  datatype Option<+T> = None | Some(value: T)
}
