/** A value that may be absent: SQL NULL, Python None, a cache miss. */
module Options {
  datatype Option<+T> = None | Some(value: T)
}
