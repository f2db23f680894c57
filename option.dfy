/** Swift optionals: a value that may be absent (`nil`). */
module Options {
  datatype Option<T> = None | Some(value: T)
}
