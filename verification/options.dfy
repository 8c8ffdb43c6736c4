/** An optional value: JavaScript's `undefined`/`null` or an actual value. */
module Options {
  datatype Option<T> = None | Some(value: T)
}
