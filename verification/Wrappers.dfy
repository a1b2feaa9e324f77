/** A value that may be absent: the Python source's `None`. */
module Wrappers {

  datatype Option<+T> = None | Some(value: T)
}
