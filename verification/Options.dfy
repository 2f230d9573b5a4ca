/** A value that may be absent: SQL's NULL, Python's None, JavaScript's null. */
module Options {
  datatype Option<+T> = None | Some(value: T)
}
