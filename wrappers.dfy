/** The optional value used for Go's `error` results: `None` is a nil error. */
module Wrappers {

  datatype Option<+T> = None | Some(value: T)
}
