/** Option, the outcome of a lookup or of an assertion that may fail. */
module Wrappers {
  datatype Option<+T> = None | Some(value: T)
}
