/** The optional value used across the model for absent fields and for calls that threw. */
module Wrappers {
  datatype Option<+T> = None | Some(value: T)
}
