/** Values that may be absent: a missing key, an unreadable file, a `None` result. */
module Options {
  datatype Option<+T> = None | Some(value: T)
}
