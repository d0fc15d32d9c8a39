/** The optional value that stands for Python's "something or nothing" results. */
module Options {
  datatype Option<+T> = None | Some(value: T)
}
