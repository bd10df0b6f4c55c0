/** A value that may be absent: the sources' null pointers and failures. */
module Options {
  datatype Option<T> = None | Some(value: T)
}
