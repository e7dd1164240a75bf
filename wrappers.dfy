/** The optional value used for JavaScript's `null` fields and for a `NaN` rating. */
module Wrappers {
  datatype Option<+T> = None | Some(value: T)
}
