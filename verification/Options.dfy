/** The nullable column and the optional argument of the modelled code. */
module Options {
  datatype Option<+T> = None | Some(value: T)
}
