/** The optional value used wherever the sources return an error code or nothing. */
module Options {

  datatype Option<+T> = None | Some(value: T)
}
