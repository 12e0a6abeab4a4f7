/** The optional values used for SQL NULL, Go nil and absent results. */
module Options {
  datatype Option<+T> = None | Some(value: T)
}
