/** An optional value: an absent JSON field, a missed lookup, `null`. */
module Optional {
  datatype Option<T> = None | Some(value: T)
}
