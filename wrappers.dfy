/** An optional value, shared by the modules that may have no answer. */
module Wrappers {
  datatype Option<T> = None | Some(value: T)
}
