/** An optional value: what the C sources write as a pointer that may be NULL. */
module Options {
  datatype Option<+T> = None | Some(value: T)
}
