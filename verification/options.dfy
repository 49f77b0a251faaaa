/** The optional value used wherever a poll stream can run out before an answer arrives. */
module Options {

  datatype Option<+T> = None | Some(value: T)
}
