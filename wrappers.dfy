/** Small value wrappers shared by the workflow modules. */
module Wrappers {

  /** A value that may be absent: JavaScript's `null` for the workflow's slots. */
  datatype Option<+T> = None | Some(value: T)
}
