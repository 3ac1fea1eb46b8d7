/** The Some/None datatype used for the outcome of one attempt to read a number. */
module Wrappers {
  datatype Option<+T> = None | Some(value: T)
}
