/** The optional value used where the program either produces a result or produces nothing. */
module Wrappers {
  datatype Option<+T> = None | Some(value: T)
}
