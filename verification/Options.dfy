/** An optional value, for absent entries and failed system calls. */
module Options {
  datatype Option<+T> = None | Some(value: T)
}
