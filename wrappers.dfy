/** The Option type used wherever the source returns `null`, `undefined` or a value. */
module Wrappers {
  datatype Option<+T> = None | Some(value: T)
}
