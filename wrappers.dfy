/** The optional value used for "nothing happened" and "no error" in the model. */
module Wrappers {
  datatype Option<+T> = None | Some(value: T)
}
