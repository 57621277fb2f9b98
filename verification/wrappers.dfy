/** The optional value shared by every module of the model. */
module Wrappers {

  /** A value that may be absent: `null`/`undefined`, or a NaN parse. */
  datatype Option<+T> = None | Some(value: T)
}
