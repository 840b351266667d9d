/** A value that may be missing: JavaScript's `undefined`/`null`, or a store call that threw. */
module Wrappers {
  datatype Option<+T> = None | Some(value: T)
}
