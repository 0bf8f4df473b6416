/** The optional value used wherever the source holds a possibly empty function or pointer. */
module Options {
  datatype Option<+T> = None | Some(value: T)
}
