/** An optional value, standing for JavaScript's `undefined` where the source tests for it. */
module Wrappers {
  datatype Option<+T> = None | Some(value: T)
}
