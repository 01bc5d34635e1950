/** The optional result every grammar function of the parser returns. */
module Wrappers {
  datatype Option<+T> = None | Some(value: T)
}
