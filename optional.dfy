/** The usual Some/None datatype, standing for a pointer that may be null. */
module Optional {
  datatype Option<+T> = None | Some(value: T)
}
