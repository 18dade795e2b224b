/** A value that may be missing, or the result of a call that may throw. */
module Options {

  datatype Option<+T> = None | Some(value: T)
}
