/** The optional value the repository spells as a nil pointer or a JavaScript null. */
module Options {
  datatype Option<+T> = None | Some(value: T)
}
