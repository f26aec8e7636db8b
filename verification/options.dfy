/** A value that may be absent: the source's `undefined`. */
module Options {

  datatype Option<+T> = None | Some(value: T)

  function Or<T>(a: Option<T>, b: Option<T>): Option<T> {
    if a.Some? then a else b
  }
}
