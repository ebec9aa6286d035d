/** The optional value used for a client IP that may be missing and for a configuration override. */
module Wrappers {

  datatype Option<+T> = None | Some(value: T)

}
