/** The optional value used wherever the app gets `null` back or catches a parse exception. */
module Wrappers {

  datatype Option<+T> = None | Some(value: T)
}
