/** The usual optional value; None stands for the error return of a Go or Rust function. */
module Options {
  datatype Option<+T> = None | Some(value: T)
}
