/** The optional-value type used for partial results. */
module Wrappers {
  datatype Option<+T> = None | Some(value: T)
}
