/** The optional value that stands for JavaScript's `null` throughout the model. */
module Wrappers {

  datatype Option<+T> = None | Some(value: T)
}
