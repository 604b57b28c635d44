/** The optional value used for TypeScript's absent fields. */
module Options {
  datatype Option<+T> = None | Some(value: T)
}
