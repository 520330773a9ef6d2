/** The optional value used for Go's nil pointers and for parsers that may fail. */
module Options {
  datatype Option<+T> = None | Some(value: T)
}
