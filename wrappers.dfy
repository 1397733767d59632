/** An optional value, for the operations of the game that may fail. */
module Wrappers {

  datatype Option<+T> = None | Some(value: T)
}
