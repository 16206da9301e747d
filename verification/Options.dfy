/** An optional value: a result that may be missing, an input that may not arrive. */
module Options {
  datatype Option<+T> = None | Some(value: T)
}
