/** The Some/None wrapper used wherever the source has a value that may be None. */
module Optional {
  datatype Option<+T> = None | Some(value: T)
}
