/** The optional value used by the samplers and the Python value helpers. */
module Wrappers {
  datatype Option<+T> = None | Some(value: T)
}
