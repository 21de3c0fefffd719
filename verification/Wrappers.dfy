/** Values that may be absent: a missing dictionary key, or Python's `None`. */
module Wrappers {

  datatype Option<+T> = None | Some(value: T)
}
