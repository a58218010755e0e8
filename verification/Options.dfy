/** A value that may be missing: the program's `Option`, and its assertions that abort. */
module Options {
  datatype Option<T> = None | Some(value: T)
}
