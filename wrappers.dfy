/** The optional value used for a parse or fetch that may have failed. */
module Wrappers {

  datatype Option<+T> = None | Some(value: T)
}
