/** A value that may be absent: a nullable column, or a lookup that found no row. */
module Options {
  datatype Option<+T> = None | Some(value: T)
}
