/** The optional value used for the relay's stored identifier (Python's `None` or a `str`). */
module Wrappers {

  datatype Option<+T> = None | Some(value: T)
}
