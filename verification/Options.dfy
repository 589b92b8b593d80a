/** The optional values that stand for `undefined` results, tokens and fields. */
module Options {
  datatype Option<+T> = None | Some(value: T)
}
