/** What a call may or may not return. */
module Wrappers {
  datatype Option<T> = None | Some(value: T)
}
