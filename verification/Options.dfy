module Options {
  /** A nullable column or a missing dictionary entry. */
  datatype Option<+T> = None | Some(value: T)
}
