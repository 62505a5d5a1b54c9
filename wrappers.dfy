/** PHP's nullable values: a property that was never set, or a `?string` holding null. */
module Wrappers {

  datatype Option<+T> = None | Some(value: T)
}
