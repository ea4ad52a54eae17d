/** A value that may be absent: a nil pointer or a failed lookup. */
module Options {
  datatype Option<+T> = None | Some(value: T)
}
