/** The optional value used for React's `null | boolean` state cell. */
module Wrappers {
  datatype Option<T> = None | Some(value: T)
}
