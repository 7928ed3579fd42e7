/** An optional value, for the places where the source uses NULL for "none". */
module Optional {
  datatype Option<T> = None | Some(value: T)
}
