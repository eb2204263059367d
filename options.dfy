/** The optional value used wherever the original returns or stores `None`. */
module Options {

  datatype Option<+T> = None | Some(value: T)
}
