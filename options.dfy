/** The optional value used for results that may be absent or for calls that may fail. */
module Options {
  datatype Option<+T> = None | Some(value: T)
}
