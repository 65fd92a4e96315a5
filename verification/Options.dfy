/** The option type used wherever the controller returns a nil pointer, an absent field or an `ok` flag. */
module Options {
  datatype Option<+T> = None | Some(value: T)
}
