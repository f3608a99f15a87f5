/** The optional value used wherever the source has `undefined` or a call that may throw. */
module Options {
  datatype Option<+T> = None | Some(value: T)
}
