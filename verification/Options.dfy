/** The optional value shared by every module (the source's `None`). */
module Options {
  datatype Option<+T> = None | Some(value: T)
}
