/** The one result type shared by every module: a value, or nothing where the C code
    reports failure (a negative count, a zero length or `false`). */
module Wrappers {
  datatype Option<+T> = None | Some(value: T)
}
