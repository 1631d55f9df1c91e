/** A value that may be missing: an empty optional or a null pointer of the code. */
module Options {
  datatype Option<+T> = None | Some(value: T)
}
