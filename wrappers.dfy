/** The optional value used for the pending operator and for pattern matches that may fail. */
module Wrappers {

  datatype Option<+T> = None | Some(value: T)
}
