/** The usual optional-value wrapper, used for every decoder that can fail. */
module Options {
  datatype Option<+T> = None | Some(value: T)
}
