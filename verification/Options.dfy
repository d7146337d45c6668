module Options {
  /** A value that may be absent: a NULL column, a missing row, an empty function slot. */
  datatype Option<+T> = None | Some(value: T)
}
