/** The optional-value datatype used for absent query parameters and JSON fields. */
module Wrappers {

  datatype Option<+T> = None | Some(value: T)
}
