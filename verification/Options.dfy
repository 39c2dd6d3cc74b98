/** A value that may be missing: a null pointer, a lock nobody holds. */
module Options {
  datatype Option<T> = None | Some(value: T)
}
