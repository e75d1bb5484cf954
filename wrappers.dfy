/** The optional value used wherever the source returns null or an out-parameter pair. */
module Wrappers {
  datatype Option<T> = None | Some(value: T)
}
