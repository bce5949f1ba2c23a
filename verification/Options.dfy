module Options {
  /** A value that may be absent: SQL NULL, Python None, a nil pointer or error in Go. */
  datatype Option<+T> = None | Some(value: T)
}
