/** The optional value returned by a lookup that may find nothing (Python's `None`). */
module Wrappers {

  datatype Option<+T> = None | Some(value: T)
}
