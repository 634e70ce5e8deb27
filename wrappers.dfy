/** The optional value used for JavaScript's `undefined` and for a failed parse (`NaN`). */
module Wrappers {

  datatype Option<+T> = None | Some(value: T)
}
