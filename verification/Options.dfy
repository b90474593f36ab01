/** A value that may be absent: SQL NULL, a nil pointer, an empty result. */
module Options {
  datatype Option<+T> = None | Some(value: T)
}
