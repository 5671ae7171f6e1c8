/** The optional value used for the evidence an authorization outcome carries. */
module Wrappers {
  datatype Option<+T> = None | Some(value: T)
}
