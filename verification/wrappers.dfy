/** The optional-value datatype used wherever the script returns `None`. */
module Wrappers {

  /** `None` or `Some(value)`, as Python's `None`-or-value results. */
  datatype Option<+T> = None | Some(value: T)
}
