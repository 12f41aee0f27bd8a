/** The optional value used where the canvas code returns `null` or finds nothing. */
module Wrappers {
  datatype Option<+T> = None | Some(value: T)
}
