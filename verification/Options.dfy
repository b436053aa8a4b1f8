/** A value that may be absent: nil pointers, missing map entries, the second result of a lookup. */
module Options {

  datatype Option<+T> = None | Some(value: T)
}
