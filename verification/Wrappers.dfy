/** The failure and absence values every other module returns. */
module Wrappers {
  datatype Option<+T> = None | Some(value: T)
}
