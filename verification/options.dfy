/** The optional value used for a part's parent: `None` for the root. */
module Options {
  datatype Option<+T> = None | Some(value: T)
}
