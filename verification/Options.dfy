/** A value that may be missing; also the result of what may raise. */
module Options {
  datatype Option<+T> = None | Some(value: T)
}
