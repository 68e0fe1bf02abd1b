/** The conventional Some/None datatype, used where the program has `None` or a missing row. */
module Options {
  datatype Option<+T> = None | Some(value: T)
}
