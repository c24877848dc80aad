/** An optional value: a missing file, a `substring` that throws, a `parseInt` that throws. */
module Wrappers {
  datatype Option<+T> = None | Some(value: T)
}
