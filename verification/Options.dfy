/** A value that may be absent: a null pointer, a search without a hit, a failure. */
module Options {
  datatype Option<+T> = None | Some(value: T)
}
