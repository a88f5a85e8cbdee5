/** The type of values that may be missing: a nil pointer, an absent key, a failed parse. */
module Options {
  datatype Option<+T> = None | Some(value: T)
}
