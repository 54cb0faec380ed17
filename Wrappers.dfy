/** The optional value used wherever a component state field may hold `null`. */
module Wrappers {

  datatype Option<+T> = None | Some(value: T)
}
