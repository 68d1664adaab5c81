/** The optional value used for outputs that may or may not be produced by a step. */
module Options {

  datatype Option<+T> = None | Some(value: T)
}
