/** The optional value used throughout the model for JavaScript's `null`/`undefined`. */
module Opt {
  datatype Option<+T> = None | Some(value: T)
}
