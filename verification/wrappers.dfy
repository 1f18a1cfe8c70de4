/** The optional-value datatype used for a head request that may or may not be issued. */
module Wrappers {

  datatype Option<+T> = None | Some(value: T)
}
