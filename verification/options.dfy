/** The optional value used for absent map entries and missing motion states. */
module Options {

  datatype Option<+T> = None | Some(value: T)
}
