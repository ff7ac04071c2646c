/** The optional value used for the source's `Option` returns and fields. */
module Options {

  datatype Option<+T> = None | Some(value: T)
}
