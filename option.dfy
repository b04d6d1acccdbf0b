/** An optional value: a reference that may be null or a weak reference that may have expired. */
module Options {
  datatype Option<T> = None | Some(value: T)
}
