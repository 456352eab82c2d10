/** The usual optional value: JavaScript's `null`/`undefined` or a failed match. */
module Optional {

  datatype Option<+T> = None | Some(value: T)
}
