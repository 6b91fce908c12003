/** The result types shared by the model. */
module Wrappers {
  /** A reference that may be null in the source. */
  datatype Option<+T> = None | Some(value: T)
}
