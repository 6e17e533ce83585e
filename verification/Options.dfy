/** A value that may be missing: what a NULL pointer says in the source. */
module Options {

  datatype Option<T> = None | Some(value: T)
}
