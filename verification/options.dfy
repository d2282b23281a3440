/** The usual stand-in for a nullable value. */
module Options {
  datatype Option<+T> = None | Some(value: T)
}
