/** Absence as a value: Python's `None` next to a present result. */
module Wrappers {

  datatype Option<+T> = None | Some(value: T)
}
