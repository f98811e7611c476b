/** The optional-value datatype used for the arc solver's result. */
module Wrappers {

  datatype Option<+T> = None | Some(value: T)
}
