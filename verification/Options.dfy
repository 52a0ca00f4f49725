/** A value that may be missing (null in the source). */
module Options {
  datatype Option<+T> = None | Some(value: T)
}
