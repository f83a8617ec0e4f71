/** Python's `None`-or-value, as a datatype. */
module Options {
  datatype Option<+T> = None | Some(value: T)
}
