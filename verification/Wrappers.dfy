/** The optional value the rest of the project uses where the source has null or undefined. */
module Wrappers {
  datatype Option<+T> = None | Some(value: T)
}
