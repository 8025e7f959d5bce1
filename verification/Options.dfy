/** A value that may be missing: a message body that does not parse, a request that is not made. */
module Options {
  datatype Option<T> = None | Some(value: T)
}
