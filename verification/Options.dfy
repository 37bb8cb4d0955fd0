/** The optional value used throughout: a Go zero time, nil pointer or missing row is `None`. */
module Options {
  datatype Option<+T> = None | Some(value: T)
}
