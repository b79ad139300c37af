/** A value that may be missing: the model of TypeScript's `T | undefined` and `T | null`. */
module Wrappers {
  datatype Option<+T> = None | Some(value: T)
}
