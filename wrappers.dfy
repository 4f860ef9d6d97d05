/** The optional-value datatype used for a missing schema URL and for the key dispatch. */
module Wrappers {
  datatype Option<+T> = None | Some(value: T)
}
