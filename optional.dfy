/** An optional value: a NULL pointer, a missing cell value, a failed query. */
module Optional {

  datatype Option<+T> = None | Some(value: T)
}
