/** The optional value shared by the other modules: the source's `undefined`, `null` or absent path. */
module Options {
  datatype Option<+T> = None | Some(value: T)
}
