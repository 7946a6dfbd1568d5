/**
 A value that may be absent: Python's None against any other value.
 */
module Options {

  datatype Option<T> = None | Some(value: T)
}
