/** JavaScript's optional values: `undefined`, or a present value. */
module Options {

  /** `undefined` (None) or a present value (Some). */
  datatype Option<T> = None | Some(value: T)
}
