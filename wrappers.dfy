/** The optional value used where the driver receives a parse outcome that may be missing. */
module Wrappers {

  datatype Option<+T> = None | Some(value: T)
}
