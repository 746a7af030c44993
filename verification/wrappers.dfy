/** The optional-value type shared by the other modules. */
module Wrappers {

  /** Python's "a value or None". */
  datatype Option<T> = None | Some(value: T)
}
