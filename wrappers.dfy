/** The optional value used wherever the source returns `None` or raises on a missing case. */
module Wrappers {

  datatype Option<+T> = None | Some(value: T)
}
