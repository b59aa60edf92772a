/** Small helper types shared by the other modules. */
module Base {

  /** A value that may be missing: a nil pointer or an absent result in the Go code. */
  datatype Option<T> = None | Some(value: T)
}
