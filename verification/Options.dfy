/** A value or none: Python's `None` for an absent result. */
module Options {
  datatype Option<+T> = None | Some(value: T)
}
