/** A result that may be missing: Python's `None` and the exceptions and `exit` calls of the source. */
module Options {
  datatype Option<+T> = None | Some(value: T)
}
