/** A value that may be missing: a null pointer, a failed allocation, no owner. */
module Options {
  datatype Option<T> = None | Some(value: T)
}
