/** An optional value: JavaScript's `undefined`/`null` versus a present value. */
module Options {
  datatype Option<+T> = None | Some(value: T)
}
