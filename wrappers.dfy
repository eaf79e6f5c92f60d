/** Small failure-carrying datatypes shared by the other modules. */
module Wrappers {

  /** A value that may be absent: the outcome of a parse that can fail. */
  datatype Option<+T> = None | Some(value: T)
}
