/** The usual optional value, used for what a page may or may not show. */
module Options {
  datatype Option<+T> = None | Some(value: T)
}
