/** The optional value the source spells `T | undefined`. */
module Wrappers {
  datatype Option<+T> = None | Some(value: T)
}
