/** A value that may be absent, as Python's `None` is used for columns and results. */
module Options {
  datatype Option<+T> = None | Some(value: T)
}
