/** The optional value the Python code signals with `None`. */
module Wrappers {

  /** `None` is Python's `None`; `Some(v)` is any other value `v`. */
  datatype Option<+T> = None | Some(value: T)
}
