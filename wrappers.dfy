/** The optional-value datatype shared by the modules of this model. */
module Wrappers {

  /** A value that may be absent: Go's nil pointer stands as None. */
  datatype Option<+T> = None | Some(value: T)
}
