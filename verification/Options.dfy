/** The optional values used throughout: a SQL NULL, a Python None, a missing dict entry. */
module Options {
  datatype Option<+T> = None | Some(value: T)
}
