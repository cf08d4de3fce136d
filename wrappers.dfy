/** Small value wrappers shared by the attendance model. */
module Wrappers {

  /** A value that may be absent: `null` in the screen's state. */
  datatype Option<+T> = None | Some(value: T)
}
