/** An optional value: the model's stand-in for a TypeScript property that may be `undefined`. */
module Options {
  datatype Option<+T> = None | Some(value: T)
}
