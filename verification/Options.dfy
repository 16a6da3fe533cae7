/** The result of an operation that may be impossible or find nothing. */
module Options {
  datatype Option<+T> = None | Some(value: T)
}
