/** The option type used where the source returns a value with an `ok` flag or a nil pointer. */
module Wrappers {
  datatype Option<+T> = None | Some(value: T)
}
