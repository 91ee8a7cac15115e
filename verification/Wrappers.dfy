/** Shared result types. */
module Wrappers {

  /** An optional value: Go's nil pointer, missing map entry or absent error. */
  datatype Option<+T> = None | Some(value: T)
}
